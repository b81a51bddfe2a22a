/** The general helpers: string truncation and the JSON wrapper over
    `localStorage`, which answers `null` for a missing, empty or unreadable entry. */
module Helpers {
  import opened Wrappers
  import opened Json
  import opened LocalStorage

  const Ellipsis: string := "..."

  /** `str.slice(0, end)` for an integer `end`: a negative end counts from the back,
      and the result is clamped to the string. */
  function SliceTo(s: string, end: int): (r: string)
    ensures 0 <= end <= |s| ==> r == s[..end]
    ensures end < 0 && -end <= |s| ==> r == s[..|s| + end]
    ensures end < 0 && -end > |s| ==> r == ""
    ensures end > |s| ==> r == s
  {
    if end >= |s| then s
    else if end >= 0 then s[..end]
    else if |s| + end >= 0 then s[..|s| + end]
    else ""
  }

  /** `truncateString`. */
  function TruncateString(s: string, maxLength: int): string {
    if |s| <= maxLength then s else SliceTo(s, maxLength) + Ellipsis
  }

  /** A string that fits is returned as it is; a longer one is cut to `maxLength`
      characters (counting from the back when negative) and marked with `...`. */
  lemma TruncateStringCases(s: string, maxLength: int)
    ensures |s| <= maxLength ==> TruncateString(s, maxLength) == s
    ensures 0 <= maxLength < |s| ==>
      TruncateString(s, maxLength) == s[..maxLength] + Ellipsis && |TruncateString(s, maxLength)| == maxLength + 3
    ensures maxLength < 0 ==>
      TruncateString(s, maxLength) == SliceTo(s, maxLength) + Ellipsis &&
      |TruncateString(s, maxLength)| == (if |s| + maxLength >= 0 then |s| + maxLength else 0) + 3
  {
  }

  /** A truncated string is a prefix of the original followed by `...`, and never
      longer than the original plus the marker. */
  lemma {:induction false} TruncatedIsPrefix(s: string, maxLength: int)
    requires |s| > maxLength
    ensures var r := TruncateString(s, maxLength);
      |r| >= 3 && r[|r| - 3..] == Ellipsis && |r| - 3 <= |s| && r[..|r| - 3] == s[..|r| - 3]
  {
    var cut := SliceTo(s, maxLength);
    var r := cut + Ellipsis;
    assert r[|r| - 3..] == Ellipsis;
    assert r[..|r| - 3] == cut;
    assert |cut| <= |s| && cut == s[..|cut|];
  }

  /** What `storage.get(key)` answers for the stored strings `items`: `null` for a
      missing or empty entry (both are falsy) and for one `JSON.parse` rejects. */
  function StoredValue(items: map<string, string>, codec: Codec, key: string): (v: Json)
    ensures key !in items || items[key] == "" ==> v == JNull
    ensures key in items && items[key] != "" && codec.parse(items[key]).None? ==> v == JNull
    ensures key in items && items[key] != "" && codec.parse(items[key]).Some? ==> v == codec.parse(items[key]).value
  {
    if key in items && items[key] != "" then codec.parse(items[key]).GetOr(JNull) else JNull
  }

  /** `storage.get`. */
  method Get(store: Storage, codec: Codec, key: string) returns (v: Json)
    ensures v == StoredValue(store.items, codec, key)
  {
    var item := store.GetItem(key);
    if item.None? || item.value == "" {
      return JNull;
    }
    var parsed := codec.parse(item.value);
    if parsed.None? {
      return JNull;
    }
    v := parsed.value;
  }

  /** `storage.set`: the key holds the JSON text of the value. */
  method Set(store: Storage, codec: Codec, key: string, value: Json)
    modifies store
    ensures store.items == old(store.items)[key := codec.stringify(value)]
  {
    store.SetItem(key, codec.stringify(value));
  }

  /** `storage.remove`. */
  method Remove(store: Storage, key: string)
    modifies store
    ensures store.items == old(store.items) - {key}
  {
    store.RemoveItem(key);
  }

  /** A value written with `set` is read back by `get` whenever the codec reads
      back its own non-empty output, and other keys read as before. */
  lemma GetAfterSet(items: map<string, string>, codec: Codec, key: string, other: string, value: Json)
    requires RoundTrips(codec, value) && codec.stringify(value) != ""
    ensures StoredValue(items[key := codec.stringify(value)], codec, key) == value
    ensures other != key ==> StoredValue(items[key := codec.stringify(value)], codec, other) == StoredValue(items, codec, other)
  {
  }

  /** After `remove`, `get` answers `null`, and other keys read as before. */
  lemma GetAfterRemove(items: map<string, string>, codec: Codec, key: string, other: string)
    ensures StoredValue(items - {key}, codec, key) == JNull
    ensures other != key ==> StoredValue(items - {key}, codec, other) == StoredValue(items, codec, other)
  {
  }
}
