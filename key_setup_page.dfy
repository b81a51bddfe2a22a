/** The key-setup page: it first checks whether the signed-in user already has a key,
    then offers to generate one or to import a backup. The import saves a key only
    when the backup parses and belongs to the signed-in user. The per-user key store
    and the backup parser are not part of this model: the lookup and the parser are
    parameters, and every save is recorded in `saves`. */
module KeySetupPage {
  import opened Wrappers
  import JsStrings

  const MismatchMessage: string := "올바르지 않은 백업 데이터이거나 다른 사용자의 키입니다."
  const ImportFailedMessage: string := "키 가져오기 중 오류가 발생했습니다."

  datatype Step = Check | Setup | Import

  /** What `parseQRData` yields: a payload, `null`, or a thrown error. */
  datatype BackupPayload = BackupPayload(userId: string, secretKey: string)
  datatype ParseOutcome = Parsed(payload: BackupPayload) | NoPayload | ParseThrew

  /** One call of `saveUserSecretKey(userId, key)`. */
  datatype KeySave = KeySave(userId: string, secretKey: string)

  /** `user?.id`, truthy. */
  predicate HasUserId(userId: Option<string>) {
    userId.Some? && userId.value != ""
  }

  /** Whether a parsed backup may be imported for this user. */
  predicate Accepts(outcome: ParseOutcome, userId: string) {
    outcome.Parsed? && outcome.payload.userId == userId
  }

  /** What one confirm does: nothing, a save of the given key, or an error message. */
  datatype ImportEffect = NoAttempt | Saved(save: KeySave) | Rejected(message: string)

  /** The specification of `handleConfirmImport`: nothing for a blank input or a
      missing user id; otherwise the parser's answer on the trimmed text decides. */
  function ImportEffectOf(userId: Option<string>, input: string, parseQRData: string -> ParseOutcome): ImportEffect {
    if !HasUserId(userId) || JsStrings.Trim(input) == "" then NoAttempt
    else
      var outcome := parseQRData(JsStrings.Trim(input));
      if outcome.ParseThrew? then Rejected(ImportFailedMessage)
      else if Accepts(outcome, userId.value) then Saved(KeySave(userId.value, outcome.payload.secretKey))
      else Rejected(MismatchMessage)
  }

  /** The identity guard: a key is saved exactly when the trimmed input parses to a
      backup whose user is the signed-in user, and then it is that backup's key for
      that user. Blank input (whitespace only) never reaches the parser. */
  lemma SavesExactlyOwnBackup(userId: Option<string>, input: string, parseQRData: string -> ParseOutcome)
    ensures ImportEffectOf(userId, input, parseQRData).Saved? <==>
      HasUserId(userId) && !JsStrings.AllWhitespace(input) && Accepts(parseQRData(JsStrings.Trim(input)), userId.value)
    ensures ImportEffectOf(userId, input, parseQRData).Saved? ==>
      ImportEffectOf(userId, input, parseQRData).save ==
        KeySave(userId.value, parseQRData(JsStrings.Trim(input)).payload.secretKey)
    ensures JsStrings.AllWhitespace(input) ==> ImportEffectOf(userId, input, parseQRData) == NoAttempt
    ensures ImportEffectOf(userId, input, parseQRData).Rejected? ==>
      ImportEffectOf(userId, input, parseQRData).message in {ImportFailedMessage, MismatchMessage}
  {
  }

  class KeySetupPage {
    var loading: bool
    var step: Step
    var importInput: string
    var error: Option<string>
    var navigations: seq<string>
    var saves: seq<KeySave>
    /** The id of the cached user read at render time, if any. */
    const userId: Option<string>

    constructor (userId: Option<string>)
      ensures this.userId == userId
      ensures !loading && step == Check && importInput == "" && error == None
      ensures navigations == [] && saves == []
    {
      this.userId := userId;
      loading := false;
      step := Check;
      importInput := "";
      error := None;
      navigations := [];
      saves := [];
    }

    /** The mount effect: without a session or a user id, go to `/login`; while
        still checking, go home if the user has a key and otherwise show the setup. */
    method Mount(loggedIn: bool, hasUserSecretKey: string -> bool)
      modifies this
      ensures !loggedIn || !HasUserId(userId) ==> navigations == old(navigations) + ["/login"] && step == old(step)
      ensures loggedIn && HasUserId(userId) && old(step) == Check && hasUserSecretKey(userId.value) ==>
        navigations == old(navigations) + ["/"] && step == Check
      ensures loggedIn && HasUserId(userId) && old(step) == Check && !hasUserSecretKey(userId.value) ==>
        navigations == old(navigations) && step == Setup
      ensures loggedIn && HasUserId(userId) && old(step) != Check ==> navigations == old(navigations) && step == old(step)
      ensures loading == old(loading) && importInput == old(importInput) && error == old(error) && saves == old(saves)
    {
      if !loggedIn || !HasUserId(userId) {
        navigations := navigations + ["/login"];
        return;
      }
      if step == Check {
        if hasUserSecretKey(userId.value) {
          navigations := navigations + ["/"];
        } else {
          step := Setup;
        }
      }
    }

    /** `handleGenerateNewKey`. */
    method GenerateNewKey()
      modifies this
      ensures navigations == old(navigations) + ["/key-generation"]
      ensures step == old(step) && importInput == old(importInput) && error == old(error)
      ensures loading == old(loading) && saves == old(saves)
    {
      navigations := navigations + ["/key-generation"];
    }

    /** `handleImportKey`. */
    method ImportKey()
      modifies this
      ensures step == Import
      ensures importInput == old(importInput) && error == old(error) && loading == old(loading)
      ensures navigations == old(navigations) && saves == old(saves)
    {
      step := Import;
    }

    /** The import text box. */
    method SetImportInput(text: string)
      modifies this
      ensures importInput == text
      ensures step == old(step) && error == old(error) && loading == old(loading)
      ensures navigations == old(navigations) && saves == old(saves)
    {
      importInput := text;
    }

    /** `handleConfirmImport`: the trimmed text is parsed; a backup of this user's key
        is saved and the page goes home, anything else sets an error. A blank input or
        a missing user id changes nothing. */
    method ConfirmImport(parseQRData: string -> ParseOutcome)
      modifies this
      ensures var effect := ImportEffectOf(userId, old(importInput), parseQRData);
        (effect.NoAttempt? ==> loading == old(loading) && error == old(error)) &&
        (!effect.NoAttempt? ==> !loading) &&
        (effect.Saved? ==> error == None) &&
        (effect.Rejected? ==> error == Some(effect.message)) &&
        saves == old(saves) + (if effect.Saved? then [effect.save] else []) &&
        navigations == old(navigations) + (if effect.Saved? then ["/"] else [])
      ensures step == old(step) && importInput == old(importInput)
    {
      var trimmed := JsStrings.Trim(importInput);
      if !HasUserId(userId) || trimmed == "" {
        return;
      }
      loading := true;
      error := None;
      var parsedData := parseQRData(trimmed);
      if parsedData.ParseThrew? {
        error := Some(ImportFailedMessage);
      } else if parsedData.Parsed? && parsedData.payload.userId == userId.value {
        saves := saves + [KeySave(userId.value, parsedData.payload.secretKey)];
        navigations := navigations + ["/"];
      } else {
        error := Some(MismatchMessage);
      }
      loading := false;
    }

    /** `handleBackToSetup`. */
    method BackToSetup()
      modifies this
      ensures step == Setup && importInput == "" && error == None
      ensures loading == old(loading) && navigations == old(navigations) && saves == old(saves)
    {
      step := Setup;
      importInput := "";
      error := None;
    }
  }
}
