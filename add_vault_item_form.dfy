/** The form that adds an account to a vault: its field validation, the URL check
    and display name derived from the website, the per-field error clearing, the
    request it submits, and the password strength label. The WHATWG URL parser is
    not part of this model: a `UrlParser` gives the hostname of a URL it accepts. */
module AddVaultItemForm {
  import opened Wrappers
  import opened Json
  import JsStrings
  import ClientVaultService

  const LoginIdRequired: string := "로그인 ID는 필수 항목입니다"
  const PasswordRequired: string := "비밀번호는 필수 항목입니다"
  const PasswordEmpty: string := "비밀번호를 입력해주세요"
  const WebsiteRequired: string := "웹사이트 주소는 필수 항목입니다"
  const WebsiteInvalid: string := "올바른 웹사이트 주소 형식이 아닙니다"
  const NewAccountName: string := "새 계정"
  const AccountType: string := "ACCOUNT"

  const StrongLabel: string := "강함"
  const MediumLabel: string := "보통"
  const WeakLabel: string := "약함"

  datatype Field = LoginId | Password | Website | Notes

  /** `new URL(...)`: the hostname, or `None` where the constructor throws. */
  type UrlParser = string -> Option<string>

  // ---------------------------------------------------------------------------
  // URLs

  /** The URL handed to the parser: `https://` is put in front unless the text
      already starts with `http`. */
  function WithScheme(url: string): (r: string)
    ensures JsStrings.StartsWith(r, "http")
    ensures JsStrings.StartsWith(url, "http") ==> r == url
    ensures !JsStrings.StartsWith(url, "http") ==> r == "https://" + url
  {
    if JsStrings.StartsWith(url, "http") then url else "https://" + url
  }

  /** Prefixing is done at most once. */
  lemma WithSchemeIdempotent(url: string)
    ensures WithScheme(WithScheme(url)) == WithScheme(url)
  {
  }

  /** `isValidUrl`. */
  predicate IsValidUrl(parser: UrlParser, url: string) {
    parser(WithScheme(url)).Some?
  }

  // ---------------------------------------------------------------------------
  // Validation

  /** The specification of `validateForm`: the errors it records, one per field. */
  function FormErrors(parser: UrlParser, loginId: string, password: string, website: string): map<Field, string> {
    CheckWebsite(CheckPassword(CheckLoginId(map[], loginId), password), parser, website)
  }

  /** The login-id step: a blank id is required, anything else adds nothing. */
  function CheckLoginId(errors: map<Field, string>, loginId: string): (r: map<Field, string>)
    ensures JsStrings.AllWhitespace(loginId) ==> r == errors[LoginId := LoginIdRequired]
    ensures !JsStrings.AllWhitespace(loginId) ==> r == errors
  {
    if JsStrings.Trim(loginId) == "" then errors[LoginId := LoginIdRequired] else errors
  }

  /** The password step. A password that is not blank has a character, so the
      `length < 1` branch adds nothing: a blank password is required, and anything
      else adds nothing. */
  function CheckPassword(errors: map<Field, string>, password: string): (r: map<Field, string>)
    ensures JsStrings.AllWhitespace(password) ==> r == errors[Password := PasswordRequired]
    ensures !JsStrings.AllWhitespace(password) ==> r == errors
  {
    if JsStrings.Trim(password) == "" then errors[Password := PasswordRequired]
    else if |password| < 1 then errors[Password := PasswordEmpty]
    else errors
  }

  /** The website step: a blank website is required, one the parser rejects is
      invalid, and a valid one adds nothing. */
  function CheckWebsite(errors: map<Field, string>, parser: UrlParser, website: string): (r: map<Field, string>)
    ensures JsStrings.AllWhitespace(website) ==> r == errors[Website := WebsiteRequired]
    ensures !JsStrings.AllWhitespace(website) && !IsValidUrl(parser, website) ==> r == errors[Website := WebsiteInvalid]
    ensures !JsStrings.AllWhitespace(website) && IsValidUrl(parser, website) ==> r == errors
  {
    if JsStrings.Trim(website) == "" then errors[Website := WebsiteRequired]
    else if !IsValidUrl(parser, website) then errors[Website := WebsiteInvalid]
    else errors
  }

  /** Each field's error in both directions: blank (only whitespace) is required,
      a website that does not parse is invalid, and nothing else is an error. The
      `length < 1` branch for the password can never be taken, and the invalid-URL
      error only ever concerns a non-blank website. */
  lemma FormErrorsCases(parser: UrlParser, loginId: string, password: string, website: string)
    ensures var errors := FormErrors(parser, loginId, password, website);
      (LoginId in errors <==> JsStrings.AllWhitespace(loginId)) &&
      (LoginId in errors ==> errors[LoginId] == LoginIdRequired) &&
      (Password in errors <==> JsStrings.AllWhitespace(password)) &&
      (Password in errors ==> errors[Password] == PasswordRequired) &&
      (Website in errors <==> JsStrings.AllWhitespace(website) || !IsValidUrl(parser, website)) &&
      (Website in errors && errors[Website] == WebsiteInvalid ==> !JsStrings.AllWhitespace(website)) &&
      Notes !in errors
  {
    var e1 := CheckLoginId(map[], loginId);
    assert LoginId in e1 <==> JsStrings.AllWhitespace(loginId);
    assert Password !in e1 && Website !in e1 && Notes !in e1;
    var e2 := CheckPassword(e1, password);
    assert Password in e2 <==> JsStrings.AllWhitespace(password);
    assert Website !in e2 && Notes !in e2;
    assert LoginId in e2 <==> LoginId in e1;
    var e3 := CheckWebsite(e2, parser, website);
    assert e3 == FormErrors(parser, loginId, password, website);
  }

  // ---------------------------------------------------------------------------
  // The display name

  /** The hostname without one leading `www.`. */
  function StripWww(hostname: string): (r: string)
    ensures JsStrings.StartsWith(hostname, "www.") ==> r == hostname[4..]
    ensures !JsStrings.StartsWith(hostname, "www.") ==> r == hostname
  {
    if JsStrings.StartsWith(hostname, "www.") then hostname[4..] else hostname
  }

  /** `split('.')[0]`: everything before the first dot. */
  function FirstLabel(s: string): (tag: string)
    ensures '.' !in tag
    ensures |tag| <= |s| && tag == s[..|tag|]
    ensures |tag| < |s| ==> s[|tag|] == '.'
  {
    var i := JsStrings.IndexOf(s, '.');
    assert forall k :: 0 <= k < i ==> s[..i][k] == s[k];
    s[..i]
  }

  /** `charAt(0).toUpperCase() + slice(1)`, with ASCII case mapping. */
  function Capitalize(s: string): (r: string)
    ensures |r| == |s|
    ensures s != "" ==> r[0] == JsStrings.AsciiUpper(s[0]) && r[1..] == s[1..]
  {
    if s == "" then "" else [JsStrings.AsciiUpper(s[0])] + s[1..]
  }

  /** Whether a character may appear in the `([^\/\.]+)` group. */
  predicate InGroup(c: char) {
    c != '/' && c != '.'
  }

  /** The length of the longest run of group characters starting at `x`. */
  function GroupRun(s: string, x: nat): (n: nat)
    requires x <= |s|
    ensures x + n <= |s|
    ensures forall k :: x <= k < x + n ==> InGroup(s[k])
    ensures x + n < |s| ==> !InGroup(s[x + n])
    decreases |s| - x
  {
    if x < |s| && InGroup(s[x]) then 1 + GroupRun(s, x + 1) else 0
  }

  /** `([^\/\.]+)` at `x`, taking as much as it can. */
  function GroupAt(s: string, x: nat): (g: Option<string>)
    ensures g.Some? ==> g.value != "" && forall k :: 0 <= k < |g.value| ==> InGroup(g.value[k])
    ensures x < |s| && InGroup(s[x]) ==> g.Some?
  {
    if x <= |s| && GroupRun(s, x) > 0 then
      var g := s[x..x + GroupRun(s, x)];
      assert forall k :: 0 <= k < |g| ==> g[k] == s[x + k];
      Some(g)
    else None
  }

  /** `(?:www\.)?([^\/\.]+)` at `q`: with the `www.` first, then without it. */
  function AfterScheme(s: string, q: nat): (g: Option<string>)
    ensures g.Some? ==> g.value != "" && forall k :: 0 <= k < |g.value| ==> InGroup(g.value[k])
    ensures q < |s| && InGroup(s[q]) ==> g.Some?
  {
    if q <= |s| && JsStrings.StartsWith(s[q..], "www.") && GroupAt(s, q + 4).Some? then GroupAt(s, q + 4)
    else GroupAt(s, q)
  }

  /** The length of `https?:\/\/` at the start of `t`, 0 when it is not there. */
  function SchemeLength(t: string): nat {
    if JsStrings.StartsWith(t, "https://") then 8
    else if JsStrings.StartsWith(t, "http://") then 7
    else 0
  }

  /** The whole pattern anchored at `p`, the optional parts tried present first. */
  function MatchAt(s: string, p: nat): (g: Option<string>)
    requires p <= |s|
    ensures g.Some? ==> g.value != "" && forall k :: 0 <= k < |g.value| ==> InGroup(g.value[k])
    ensures p < |s| && InGroup(s[p]) ==> g.Some?
  {
    var scheme := SchemeLength(s[p..]);
    if scheme > 0 && AfterScheme(s, p + scheme).Some? then AfterScheme(s, p + scheme)
    else AfterScheme(s, p)
  }

  /** `url.match(...)`: the first position where the pattern matches, and its group. */
  function Search(s: string, p: nat): (g: Option<string>)
    requires p <= |s|
    ensures g.Some? ==> g.value != "" && forall k :: 0 <= k < |g.value| ==> InGroup(g.value[k])
    decreases |s| - p
  {
    if p == |s| then None
    else if MatchAt(s, p).Some? then MatchAt(s, p)
    else Search(s, p + 1)
  }

  /** The fallback pattern matches exactly when the text has a character other than
      `/` and `.`. */
  lemma {:induction false} SearchFinds(s: string, p: nat)
    requires p <= |s|
    ensures Search(s, p).Some? <==> exists k :: p <= k < |s| && InGroup(s[k])
    decreases |s| - p
  {
    if p < |s| {
      SearchFinds(s, p + 1);
      if !InGroup(s[p]) {
        NoMatchAtSeparator(s, p);
        assert Search(s, p) == Search(s, p + 1);
        assert (exists k :: p <= k < |s| && InGroup(s[k])) ==> exists k :: p + 1 <= k < |s| && InGroup(s[k]);
      }
    }
  }

  /** No match starts at a `/` or a `.`: neither scheme nor `www.` begins with one,
      and the group needs a character of its own. */
  lemma NoMatchAtSeparator(s: string, p: nat)
    requires p < |s| && !InGroup(s[p])
    ensures MatchAt(s, p).None?
  {
    assert s[p..][0] == s[p];
    assert SchemeLength(s[p..]) == 0;
    assert !JsStrings.StartsWith(s[p..], "www.");
    assert GroupRun(s, p) == 0;
  }

  /** `extractDomainName`. */
  function ExtractDomainName(parser: UrlParser, url: string): (name: string)
    ensures name != ""
    ensures url == "" ==> name == NewAccountName
  {
    if url == "" then NewAccountName
    else
      match parser(WithScheme(url))
      case Some(hostname) =>
        var domain := FirstLabel(StripWww(hostname));
        if domain != "" then Capitalize(domain) else NewAccountName
      case None =>
        match Search(url, 0)
        case Some(group) => Capitalize(group)
        case None => NewAccountName
  }

  /** The name the parser's hostname gives: its first label, after one leading
      `www.` when there is one, capitalised. Covers both a plain host such as
      `example.com` and a `www.` host such as `www.example.com`. */
  lemma DomainNameOfHost(parser: UrlParser, url: string, hostname: string, tag: string, rest: string)
    requires url != "" && tag != "" && '.' !in tag
    requires parser(WithScheme(url)) == Some(hostname)
    requires hostname == "www." + tag + rest || (hostname == tag + rest && !JsStrings.StartsWith(hostname, "www."))
    requires rest == "" || rest[0] == '.'
    ensures ExtractDomainName(parser, url) == Capitalize(tag)
  {
    assert StripWww(hostname) == tag + rest by {
      if hostname == "www." + tag + rest {
        assert hostname[..4] == "www.";
        assert hostname[4..] == tag + rest;
      }
    }
    if rest == "" {
      assert tag + rest == tag;
      JsStrings.IndexOfAbsent(tag, '.');
    } else {
      assert tag + rest == tag + ['.'] + rest[1..];
      JsStrings.IndexOfAfter(tag, '.', rest[1..]);
    }
    assert (tag + rest)[..|tag|] == tag;
  }

  /** Text the parser rejects still gets a name from its first run of characters
      other than `/` and `.`, and the fixed name when there is none. */
  lemma DomainNameFallback(parser: UrlParser, url: string)
    requires url != "" && parser(WithScheme(url)).None?
    ensures (forall k :: 0 <= k < |url| ==> !InGroup(url[k])) ==> ExtractDomainName(parser, url) == NewAccountName
    ensures (exists k :: 0 <= k < |url| && InGroup(url[k])) ==>
      Search(url, 0).Some? && ExtractDomainName(parser, url) == Capitalize(Search(url, 0).value)
  {
    SearchFinds(url, 0);
  }

  // ---------------------------------------------------------------------------
  // The strength tag

  /** The tag under the password field. */
  function StrengthLabel(password: string): (tag: string)
    ensures tag in {StrongLabel, MediumLabel, WeakLabel}
    ensures tag == StrongLabel <==> |password| >= 12
    ensures tag == WeakLabel <==> |password| < 8
  {
    if |password| >= 12 then StrongLabel
    else if |password| >= 8 then MediumLabel
    else WeakLabel
  }

  function StrengthRank(tag: string): nat {
    if tag == StrongLabel then 2 else if tag == MediumLabel then 1 else 0
  }

  /** A longer password never gets a weaker tag. */
  lemma StrengthMonotone(shorter: string, longer: string)
    requires |shorter| <= |longer|
    ensures StrengthRank(StrengthLabel(shorter)) <= StrengthRank(StrengthLabel(longer))
  {
  }

  // ---------------------------------------------------------------------------
  // The component

  /** `AccountData` as JSON. */
  function AccountData(loginId: string, password: string, website: string): Json {
    JObject(map["loginId" := JString(loginId), "password" := JString(password), "website" := JString(website)])
  }

  class AddAccountForm {
    var loginId: string
    var password: string
    var website: string
    var notes: string
    var showPassword: bool
    var errors: map<Field, string>
    /** Every request passed to `onSubmit`. */
    var submitted: seq<ClientVaultService.CreateVaultItemRequest>
    const vaultId: string

    constructor (vaultId: string)
      ensures this.vaultId == vaultId
      ensures loginId == "" && password == "" && website == "" && notes == ""
      ensures !showPassword && errors == map[] && submitted == []
    {
      this.vaultId := vaultId;
      loginId := "";
      password := "";
      website := "";
      notes := "";
      showPassword := false;
      errors := map[];
      submitted := [];
    }

    /** `validateForm`: the errors are recorded, and the form is valid exactly when
        there are none. */
    method ValidateForm(parser: UrlParser) returns (valid: bool)
      modifies this
      ensures errors == FormErrors(parser, loginId, password, website)
      ensures valid <==> errors == map[]
      ensures loginId == old(loginId) && password == old(password) && website == old(website)
      ensures notes == old(notes) && showPassword == old(showPassword) && submitted == old(submitted)
    {
      var newErrors: map<Field, string> := map[];
      newErrors := CheckLoginId(newErrors, loginId);
      newErrors := CheckPassword(newErrors, password);
      newErrors := CheckWebsite(newErrors, parser, website);
      errors := newErrors;
      valid := |newErrors| == 0;
    }

    /** `handleInputChange`: the field takes the value and only its own error is
        cleared. */
    method InputChange(field: Field, value: string)
      modifies this
      ensures loginId == (if field == LoginId then value else old(loginId))
      ensures password == (if field == Password then value else old(password))
      ensures website == (if field == Website then value else old(website))
      ensures notes == (if field == Notes then value else old(notes))
      ensures field !in errors || errors[field] == ""
      ensures forall f :: f != field ==> (f in errors <==> f in old(errors)) && (f in errors ==> errors[f] == old(errors)[f])
      ensures showPassword == old(showPassword) && submitted == old(submitted)
    {
      match field {
        case LoginId => loginId := value;
        case Password => password := value;
        case Website => website := value;
        case Notes => notes := value;
      }
      if field in errors && errors[field] != "" {
        errors := errors - {field};
      }
    }

    /** The eye button. */
    method TogglePassword()
      modifies this
      ensures showPassword == !old(showPassword)
      ensures loginId == old(loginId) && password == old(password) && website == old(website)
      ensures notes == old(notes) && errors == old(errors) && submitted == old(submitted)
    {
      showPassword := !showPassword;
    }

    /** `handleSubmit`: nothing is submitted unless the form validates; then an
        account item named after the website, not a favourite, with its notes only
        when there are some. */
    method Submit(parser: UrlParser)
      modifies this
      ensures errors == FormErrors(parser, loginId, password, website)
      ensures errors != map[] ==> submitted == old(submitted)
      ensures errors == map[] ==> submitted == old(submitted) + [ClientVaultService.CreateVaultItemRequest(
        vaultId, AccountType, ExtractDomainName(parser, website), AccountData(loginId, password, website),
        Some(false), None, if notes == "" then None else Some(notes))]
      ensures loginId == old(loginId) && password == old(password) && website == old(website)
      ensures notes == old(notes) && showPassword == old(showPassword)
    {
      var valid := ValidateForm(parser);
      if !valid {
        return;
      }
      var accountData := AccountData(loginId, password, website);
      var accountName := ExtractDomainName(parser, website);
      var createRequest := ClientVaultService.CreateVaultItemRequest(
        vaultId, AccountType, accountName, accountData, Some(false), None, if notes == "" then None else Some(notes));
      submitted := submitted + [createRequest];
    }
  }
}
