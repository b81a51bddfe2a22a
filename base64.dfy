/** The base64 helpers of the encryption service: bytes become a "binary string" (one
    character per byte, code below 256) that `btoa` encodes with the alphabet of
    section 4 of RFC 4648, and `atob` followed by `charCodeAt` turns text back into
    bytes. `btoa` and `atob` are written out here: `btoa` is the padded RFC 4648
    encoder, `atob` the forgiving decoder of the HTML standard (ASCII whitespace is
    ignored, padding is optional, leftover bits are discarded). */
module Base64 {
  import opened Wrappers

  type byte = x: int | 0 <= x < 256

  /** Message of the `DOMException` that `atob` throws on malformed input. */
  const AtobFailure: string := "The string to be decoded is not correctly encoded."
  /** Message of the `DOMException` that `btoa` throws on a character above U+00FF. */
  const BtoaFailure: string := "The string to be encoded contains characters outside of the Latin1 range."

  // ---------------------------------------------------------------------------
  // The alphabet (Table 1 of RFC 4648)

  predicate IsAlphabetChar(c: char) {
    ('A' <= c <= 'Z') || ('a' <= c <= 'z') || ('0' <= c <= '9') || c == '+' || c == '/'
  }

  function IndexChar(i: int): (c: char)
    requires 0 <= i < 64
    ensures IsAlphabetChar(c)
  {
    if i < 26 then ('A' as int + i) as char
    else if i < 52 then ('a' as int + i - 26) as char
    else if i < 62 then ('0' as int + i - 52) as char
    else if i == 62 then '+'
    else '/'
  }

  function CharIndex(c: char): (i: int)
    requires IsAlphabetChar(c)
    ensures 0 <= i < 64
  {
    if 'A' <= c <= 'Z' then c as int - 'A' as int
    else if 'a' <= c <= 'z' then c as int - 'a' as int + 26
    else if '0' <= c <= '9' then c as int - '0' as int + 52
    else if c == '+' then 62
    else 63
  }

  lemma CharIndexOfIndexChar(i: int)
    requires 0 <= i < 64
    ensures CharIndex(IndexChar(i)) == i
  {
  }

  predicate AllAlphabet(s: string) {
    forall k :: 0 <= k < |s| ==> IsAlphabetChar(s[k])
  }

  // ---------------------------------------------------------------------------
  // Encoding

  /** Three bytes become four characters of six bits each. */
  function EncodeGroup(a: byte, b: byte, c: byte): string {
    [IndexChar(a / 4), IndexChar((a % 4) * 16 + b / 16), IndexChar((b % 16) * 4 + c / 64), IndexChar(c % 64)]
  }

  /** The last one or two bytes become two or three characters, zero-filled. */
  function EncodeTail(b: seq<byte>): string
    requires |b| < 3
  {
    if |b| == 0 then ""
    else if |b| == 1 then [IndexChar(b[0] / 4), IndexChar((b[0] % 4) * 16)]
    else [IndexChar(b[0] / 4), IndexChar((b[0] % 4) * 16 + b[1] / 16), IndexChar((b[1] % 16) * 4)]
  }

  function EncodeUnpadded(b: seq<byte>): (s: string)
    ensures AllAlphabet(s)
    decreases |b|
  {
    if |b| < 3 then EncodeTail(b)
    else EncodeGroup(b[0], b[1], b[2]) + EncodeUnpadded(b[3..])
  }

  function Padding(n: nat): string {
    if n % 3 == 1 then "==" else if n % 3 == 2 then "=" else ""
  }

  /** Padded base64 text of `b` (section 4 of RFC 4648). */
  function Encode(b: seq<byte>): (s: string)
  {
    EncodeUnpadded(b) + Padding(|b|)
  }

  // ---------------------------------------------------------------------------
  // Decoding

  function DecodeGroup(s: string): (r: seq<byte>)
    requires |s| == 4 && AllAlphabet(s)
    ensures |r| == 3
  {
    var i0, i1, i2, i3 := CharIndex(s[0]), CharIndex(s[1]), CharIndex(s[2]), CharIndex(s[3]);
    [i0 * 4 + i1 / 16, (i1 % 16) * 16 + i2 / 4, (i2 % 4) * 64 + i3]
  }

  /** Two or three trailing characters give one or two bytes; the low bits left over are discarded. */
  function DecodeTail(s: string): (r: seq<byte>)
    requires |s| < 4 && |s| != 1 && AllAlphabet(s)
    ensures |r| == if |s| == 0 then 0 else |s| - 1
  {
    if |s| == 0 then []
    else
      var i0, i1 := CharIndex(s[0]), CharIndex(s[1]);
      if |s| == 2 then [i0 * 4 + i1 / 16]
      else
        var i2 := CharIndex(s[2]);
        [i0 * 4 + i1 / 16, (i1 % 16) * 16 + i2 / 4]
  }

  function DecodeUnpadded(s: string): seq<byte>
    requires AllAlphabet(s) && |s| % 4 != 1
    decreases |s|
  {
    if |s| < 4 then DecodeTail(s)
    else DecodeGroup(s[..4]) + DecodeUnpadded(s[4..])
  }

  /** The ASCII whitespace `atob` ignores: TAB, LF, FF, CR and SPACE. */
  predicate IsAsciiWhitespace(c: char) {
    c == '\t' || c == '\n' || c == '\U{000C}' || c == '\r' || c == ' '
  }

  function RemoveAsciiWhitespace(s: string): (r: string)
    ensures |r| <= |s|
    decreases |s|
  {
    if s == [] then []
    else (if IsAsciiWhitespace(s[0]) then [] else [s[0]]) + RemoveAsciiWhitespace(s[1..])
  }

  /** When the length is a multiple of four, one or two trailing `=` are dropped. */
  function StripPadding(t: string): string {
    if |t| % 4 == 0 && |t| >= 2 && t[|t| - 1] == '=' && t[|t| - 2] == '=' then t[..|t| - 2]
    else if |t| % 4 == 0 && |t| >= 1 && t[|t| - 1] == '=' then t[..|t| - 1]
    else t
  }

  /** Bytes of base64 text, failing where `atob` throws. */
  function Decode(s: string): (r: Result<seq<byte>, string>)
    ensures r.Failure? ==> r.error == AtobFailure
  {
    var u := StripPadding(RemoveAsciiWhitespace(s));
    if |u| % 4 == 1 || !AllAlphabet(u) then Failure(AtobFailure)
    else Success(DecodeUnpadded(u))
  }

  // ---------------------------------------------------------------------------
  // Binary strings and the two library calls

  predicate IsBinaryString(s: string) {
    forall k :: 0 <= k < |s| ==> (s[k] as int) < 256
  }

  /** `String.fromCharCode` applied to every byte. */
  function BinaryOf(b: seq<byte>): (s: string)
    ensures |s| == |b|
    ensures IsBinaryString(s)
    ensures forall k :: 0 <= k < |b| ==> s[k] as int == b[k]
  {
    seq(|b|, k requires 0 <= k < |b| => b[k] as char)
  }

  /** `charCodeAt` applied to every character of a binary string. */
  function CodesOf(s: string): (b: seq<byte>)
    requires IsBinaryString(s)
    ensures |b| == |s|
    ensures forall k :: 0 <= k < |s| ==> b[k] == s[k] as int
  {
    seq(|s|, k requires 0 <= k < |s| => s[k] as int)
  }

  /** `btoa`: base64 of a binary string; other strings make it throw. */
  function Btoa(s: string): (r: Result<string, string>)
    ensures r.Success? <==> IsBinaryString(s)
    ensures r.Success? ==> r.value == Encode(CodesOf(s))
  {
    if IsBinaryString(s) then Success(Encode(CodesOf(s))) else Failure(BtoaFailure)
  }

  /** `atob`: the binary string that base64 text denotes, or the exception it throws. */
  function Atob(s: string): (r: Result<string, string>)
    ensures r.Success? ==> IsBinaryString(r.value)
  {
    match Decode(s)
    case Success(b) => Success(BinaryOf(b))
    case Failure(e) => Failure(e)
  }

  /** `arrayBufferToBase64`: copies each byte into `binary` with `String.fromCharCode`,
      then encodes it with `btoa`, which cannot throw on a binary string. */
  method ArrayBufferToBase64(bytes: seq<byte>) returns (r: string)
    ensures r == Encode(bytes)
  {
    var binary := "";
    for i := 0 to |bytes|
      invariant binary == BinaryOf(bytes[..i])
    {
      binary := binary + [bytes[i] as char];
    }
    assert bytes[..|bytes|] == bytes;
    assert CodesOf(binary) == bytes;
    var encoded := Btoa(binary);
    r := encoded.value;
  }

  /** `base64ToArrayBuffer`: `atob`, then every character code written into a fresh
      byte array; malformed text makes `atob` throw. */
  method Base64ToArrayBuffer(base64: string) returns (r: Result<seq<byte>, string>)
    ensures r == Decode(base64)
  {
    var decoded := Atob(base64);
    if decoded.Failure? {
      return Failure(decoded.error);
    }
    var binary := decoded.value;
    var bytes := new byte[|binary|];
    for i := 0 to |binary|
      invariant forall k :: 0 <= k < i ==> bytes[k] == binary[k] as int
    {
      bytes[i] := binary[i] as int;
    }
    assert bytes[..] == CodesOf(binary);
    var b := Decode(base64).value;
    assert CodesOf(BinaryOf(b)) == b;
    r := Success(bytes[..]);
  }

  // ---------------------------------------------------------------------------
  // Round trip

  /** The first byte comes back from its six high bits and the next two. */
  lemma FirstByteBack(a: byte, b: byte)
    ensures (a / 4) * 4 + ((a % 4) * 16 + b / 16) / 16 == a
  {
    var hi, lo := a % 4, b / 16;
    assert 0 <= lo < 16;
    assert (hi * 16 + lo) / 16 == hi;
  }

  /** The middle byte comes back from its four high and its four low bits. */
  lemma MiddleByteBack(a: byte, b: byte, c: byte)
    ensures (((a % 4) * 16 + b / 16) % 16) * 16 + ((b % 16) * 4 + c / 64) / 4 == b
  {
    var hi, lo := b / 16, c / 64;
    assert 0 <= hi < 16 && 0 <= lo < 4;
    assert ((a % 4) * 16 + hi) % 16 == hi;
    assert ((b % 16) * 4 + lo) / 4 == b % 16;
  }

  /** The last byte comes back from its two high and six low bits. */
  lemma LastByteBack(b: byte, c: byte)
    ensures (((b % 16) * 4 + c / 64) % 4) * 64 + c % 64 == c
  {
    var lo := c / 64;
    assert 0 <= lo < 4;
    assert ((b % 16) * 4 + lo) % 4 == lo;
  }

  lemma GroupRoundTrip(a: byte, b: byte, c: byte)
    ensures AllAlphabet(EncodeGroup(a, b, c))
    ensures DecodeGroup(EncodeGroup(a, b, c)) == [a, b, c]
  {
    var i0, i1, i2, i3 := a / 4, (a % 4) * 16 + b / 16, (b % 16) * 4 + c / 64, c % 64;
    var s := EncodeGroup(a, b, c);
    assert s == [IndexChar(i0), IndexChar(i1), IndexChar(i2), IndexChar(i3)];
    CharIndexOfIndexChar(i0);
    CharIndexOfIndexChar(i1);
    CharIndexOfIndexChar(i2);
    CharIndexOfIndexChar(i3);
    FirstByteBack(a, b);
    MiddleByteBack(a, b, c);
    LastByteBack(b, c);
    assert DecodeGroup(s) == [i0 * 4 + i1 / 16, (i1 % 16) * 16 + i2 / 4, (i2 % 4) * 64 + i3];
  }

  lemma TailRoundTrip(b: seq<byte>)
    requires |b| < 3
    ensures |EncodeTail(b)| != 1 && AllAlphabet(EncodeTail(b))
    ensures DecodeTail(EncodeTail(b)) == b
  {
    if |b| == 1 {
      CharIndexOfIndexChar(b[0] / 4);
      CharIndexOfIndexChar((b[0] % 4) * 16);
    } else if |b| == 2 {
      CharIndexOfIndexChar(b[0] / 4);
      CharIndexOfIndexChar((b[0] % 4) * 16 + b[1] / 16);
      CharIndexOfIndexChar((b[1] % 16) * 4);
    }
  }

  /** Every complete group gives four characters, a trailing one or two bytes two or three. */
  function UnpaddedSize(n: nat): nat {
    if n < 3 then (if n == 0 then 0 else n + 1) else 4 + UnpaddedSize(n - 3)
  }

  lemma {:induction false} UnpaddedSizeMod(n: nat)
    ensures UnpaddedSize(n) % 4 == (if n % 3 == 0 then 0 else n % 3 + 1)
    decreases n
  {
    if n >= 3 {
      UnpaddedSizeMod(n - 3);
      assert (n - 3) % 3 == n % 3;
    }
  }

  lemma {:induction false} UnpaddedLength(b: seq<byte>)
    ensures |EncodeUnpadded(b)| == UnpaddedSize(|b|)
    ensures |EncodeUnpadded(b)| % 4 == (if |b| % 3 == 0 then 0 else |b| % 3 + 1)
    decreases |b|
  {
    if |b| >= 3 {
      UnpaddedLength(b[3..]);
    }
    UnpaddedSizeMod(|b|);
  }

  lemma {:induction false} UnpaddedRoundTrip(b: seq<byte>)
    ensures |EncodeUnpadded(b)| % 4 != 1
    ensures DecodeUnpadded(EncodeUnpadded(b)) == b
    decreases |b|
  {
    if |b| < 3 {
      TailRoundTrip(b);
    } else {
      UnpaddedRoundTrip(b[3..]);
      GroupStep(b);
    }
  }

  /** One group of output encoded ahead of a tail that already decodes back. */
  lemma GroupStep(b: seq<byte>)
    requires |b| >= 3
    requires |EncodeUnpadded(b[3..])| % 4 != 1 && DecodeUnpadded(EncodeUnpadded(b[3..])) == b[3..]
    ensures |EncodeUnpadded(b)| % 4 != 1 && DecodeUnpadded(EncodeUnpadded(b)) == b
  {
    GroupThenRest(b);
    assert b == [b[0], b[1], b[2]] + b[3..];
  }

  lemma ModFourStep(x: nat)
    ensures (x + 4) % 4 == x % 4
  {
  }

  lemma GroupThenRest(b: seq<byte>)
    requires |b| >= 3
    requires |EncodeUnpadded(b[3..])| % 4 != 1
    ensures |EncodeUnpadded(b)| % 4 != 1
    ensures DecodeUnpadded(EncodeUnpadded(b)) == [b[0], b[1], b[2]] + DecodeUnpadded(EncodeUnpadded(b[3..]))
  {
    var g := EncodeGroup(b[0], b[1], b[2]);
    var rest := EncodeUnpadded(b[3..]);
    GroupRoundTrip(b[0], b[1], b[2]);
    var s := g + rest;
    assert s == EncodeUnpadded(b);
    assert s[..4] == g;
    assert s[4..] == rest;
    assert AllAlphabet(s) && AllAlphabet(g) && AllAlphabet(rest);
    assert |s| == |rest| + 4;
    ModFourStep(|rest|);
    assert DecodeUnpadded(s) == DecodeGroup(g) + DecodeUnpadded(rest);
  }

  lemma {:induction false} NoAsciiWhitespaceUnchanged(s: string)
    requires forall k :: 0 <= k < |s| ==> !IsAsciiWhitespace(s[k])
    ensures RemoveAsciiWhitespace(s) == s
    decreases |s|
  {
    if s != [] {
      NoAsciiWhitespaceUnchanged(s[1..]);
      assert s == [s[0]] + s[1..];
    }
  }

  lemma ModFourFill(x: nat, p: nat)
    requires x % 4 + p == 4
    ensures (x + p) % 4 == 0
  {
  }

  lemma StripPaddingOfEncode(b: seq<byte>)
    ensures StripPadding(Encode(b)) == EncodeUnpadded(b)
  {
    UnpaddedLength(b);
    var u := EncodeUnpadded(b);
    if |b| % 3 == 1 {
      ModFourFill(|u|, 2);
      StripTwo(u);
    } else if |b| % 3 == 2 {
      ModFourFill(|u|, 1);
      StripOne(u);
    } else {
      StripNone(u);
    }
  }

  lemma StripTwo(u: string)
    requires (|u| + 2) % 4 == 0
    ensures StripPadding(u + "==") == u
  {
    var t := u + "==";
    assert t[..|u|] == u;
  }

  lemma StripOne(u: string)
    requires (|u| + 1) % 4 == 0 && AllAlphabet(u)
    ensures StripPadding(u + "=") == u
  {
    var t := u + "=";
    assert t[|t| - 2] == u[|u| - 1];
    assert t[..|u|] == u;
  }

  lemma StripNone(u: string)
    requires AllAlphabet(u)
    ensures StripPadding(u + "") == u
  {
    assert u + "" == u;
    assert |u| >= 1 ==> u[|u| - 1] != '=';
  }

  /** Decoding the base64 text of any byte sequence gives the same bytes back. */
  lemma DecodeEncode(b: seq<byte>)
    ensures Decode(Encode(b)) == Success(b)
  {
    var t := Encode(b);
    var u := EncodeUnpadded(b);
    assert forall k :: 0 <= k < |t| ==> !IsAsciiWhitespace(t[k]) by {
      forall k | 0 <= k < |t| ensures !IsAsciiWhitespace(t[k]) {
        if k < |u| { assert t[k] == u[k]; }
      }
    }
    NoAsciiWhitespaceUnchanged(t);
    StripPaddingOfEncode(b);
    UnpaddedRoundTrip(b);
  }

  /** The same round trip through the two helpers' building blocks: `atob` of `btoa`
      of the binary string of `b` has the same character codes as `b`. */
  lemma AtobBtoa(b: seq<byte>)
    ensures Btoa(BinaryOf(b)) == Success(Encode(b))
    ensures Atob(Encode(b)) == Success(BinaryOf(b))
  {
    assert CodesOf(BinaryOf(b)) == b;
    DecodeEncode(b);
  }
}
