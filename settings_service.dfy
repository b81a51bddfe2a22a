/** The settings service: the user's secret key lives in one `localStorage` slot,
    `'secretKey'`, from which it is loaded (generated on first use), saved, rotated
    and removed; `maskSecretKey` hides all but its first and last four characters. */
module SettingsService {
  import opened Wrappers
  import opened LocalStorage
  import JsStrings

  const SecretKeyStorageKey: string := "secretKey"
  const SecretKeyLength: nat := 64
  /** The 63 symbols a generated key is drawn from. */
  const KeyAlphabet: string := "ABCDEFGHIJKLMNOPQRSTUVWXYZabcdefghijklmnopqrstuvwxyz0123456789-"

  /** `Math.random`: the stream of numbers it returns, each in [0, 1), and how many
      have been drawn so far. */
  class MathRandom {
    const draws: nat -> real
    var position: nat

    constructor (draws: nat -> real)
      ensures this.draws == draws && position == 0
    {
      this.draws := draws;
      position := 0;
    }

    ghost predicate Valid() {
      forall i :: 0.0 <= draws(i) < 1.0
    }

    method Next() returns (x: real)
      requires Valid()
      modifies this
      ensures x == draws(old(position)) && 0.0 <= x < 1.0
      ensures position == old(position) + 1
    {
      x := draws(position);
      position := position + 1;
    }
  }

  /** `Math.floor(x * chars.length)` for a draw `x`: always an index into the alphabet. */
  function PickIndex(x: real): (i: nat)
    requires 0.0 <= x < 1.0
    ensures i < |KeyAlphabet|
  {
    (x * (|KeyAlphabet| as real)).Floor
  }

  /** The key that `generateSecretKey` builds from the draws starting at `start`. */
  ghost function KeyFromDraws(draws: nat -> real, start: nat): (key: string)
    requires forall i :: 0.0 <= draws(i) < 1.0
    ensures |key| == SecretKeyLength
    ensures IsKeyText(key)
  {
    var key := seq(SecretKeyLength, i requires 0 <= i < SecretKeyLength => KeyAlphabet[PickIndex(draws(start + i))]);
    assert forall k :: 0 <= k < |key| ==> key[k] == KeyAlphabet[PickIndex(draws(start + k))];
    key
  }

  predicate IsKeyText(key: string) {
    forall k :: 0 <= k < |key| ==> key[k] in KeyAlphabet
  }

  /** `generateSecretKey`: 64 characters, each picked by one draw. */
  method GenerateSecretKey(rng: MathRandom) returns (key: string)
    requires rng.Valid()
    modifies rng
    ensures key == KeyFromDraws(rng.draws, old(rng.position))
    ensures |key| == SecretKeyLength && IsKeyText(key)
    ensures rng.position == old(rng.position) + SecretKeyLength
  {
    key := "";
    var start := rng.position;
    for i := 0 to SecretKeyLength
      invariant rng.position == start + i
      invariant key == KeyFromDraws(rng.draws, start)[..i]
    {
      var x := rng.Next();
      key := key + [KeyAlphabet[PickIndex(x)]];
    }
  }

  /** `hasSecretKey`: `getItem` did not return `null` (an empty string counts). */
  function HasSecretKey(ls: Storage): (b: bool)
    reads ls
    ensures b <==> SecretKeyStorageKey in ls.items
  {
    ls.GetItem(SecretKeyStorageKey) != None
  }

  /** A stored value `loadSecretKey` accepts: present and not the empty string. */
  predicate HasUsableKey(items: map<string, string>) {
    SecretKeyStorageKey in items && items[SecretKeyStorageKey] != ""
  }

  /** `loadSecretKey`: a stored non-empty key is returned as it is; otherwise a new
      one is generated, stored and returned. No other slot is touched. */
  method LoadSecretKey(ls: Storage, rng: MathRandom) returns (key: string)
    requires rng.Valid()
    modifies ls, rng
    ensures HasUsableKey(old(ls.items)) ==>
      key == old(ls.items)[SecretKeyStorageKey] && ls.items == old(ls.items) && rng.position == old(rng.position)
    ensures !HasUsableKey(old(ls.items)) ==>
      key == KeyFromDraws(rng.draws, old(rng.position)) && ls.items == old(ls.items)[SecretKeyStorageKey := key] &&
      rng.position == old(rng.position) + SecretKeyLength
    ensures HasUsableKey(ls.items) && ls.items[SecretKeyStorageKey] == key
  {
    var stored := ls.GetItem(SecretKeyStorageKey);
    if stored.Some? && stored.value != "" {
      key := stored.value;
    } else {
      key := GenerateSecretKey(rng);
      ls.SetItem(SecretKeyStorageKey, key);
    }
  }

  /** `saveSecretKey`. */
  method SaveSecretKey(ls: Storage, key: string)
    modifies ls
    ensures ls.items == old(ls.items)[SecretKeyStorageKey := key]
  {
    ls.SetItem(SecretKeyStorageKey, key);
  }

  /** `refreshSecretKey`: a new key replaces the stored one and is returned. */
  method RefreshSecretKey(ls: Storage, rng: MathRandom) returns (newKey: string)
    requires rng.Valid()
    modifies ls, rng
    ensures newKey == KeyFromDraws(rng.draws, old(rng.position))
    ensures ls.items == old(ls.items)[SecretKeyStorageKey := newKey]
  {
    newKey := GenerateSecretKey(rng);
    SaveSecretKey(ls, newKey);
  }

  /** `removeSecretKey`. */
  method RemoveSecretKey(ls: Storage)
    modifies ls
    ensures ls.items == old(ls.items) - {SecretKeyStorageKey}
    ensures !HasSecretKey(ls)
  {
    ls.RemoveItem(SecretKeyStorageKey);
  }

  /** `maskSecretKey`: keys of at most 8 characters are shown whole; longer ones keep
      their first and last four characters with `*` in between. */
  function MaskSecretKey(key: string): (masked: string)
    ensures |key| <= 8 ==> masked == key
    ensures |masked| == |key|
    ensures |key| > 8 ==> masked[..4] == key[..4] && masked[|key| - 4..] == key[|key| - 4..]
    ensures |key| > 8 ==> forall k :: 4 <= k < |key| - 4 ==> masked[k] == '*'
  {
    if |key| <= 8 then key
    else key[..4] + JsStrings.Repeat('*', |key| - 8) + key[|key| - 4..]
  }

  /** Masking is a fixed point for masked keys: masking twice changes nothing more. */
  lemma MaskIdempotent(key: string)
    ensures MaskSecretKey(MaskSecretKey(key)) == MaskSecretKey(key)
  {
    var m := MaskSecretKey(key);
    if |key| > 8 {
      var mm := MaskSecretKey(m);
      assert forall k :: 0 <= k < |m| ==> mm[k] == m[k] by {
        forall k | 0 <= k < |m| ensures mm[k] == m[k] {
          if k < 4 {
            assert mm[..4][k] == m[..4][k];
          } else if k >= |m| - 4 {
            assert mm[|m| - 4..][k - (|m| - 4)] == m[|m| - 4..][k - (|m| - 4)];
          }
        }
      }
    }
  }

  /** Loading twice in a row returns the same key and generates at most once. */
  method LoadTwice(ls: Storage, rng: MathRandom) returns (first: string, second: string)
    requires rng.Valid()
    modifies ls, rng
    ensures first == second
    ensures ls.items == old(ls.items)[SecretKeyStorageKey := first]
  {
    first := LoadSecretKey(ls, rng);
    second := LoadSecretKey(ls, rng);
  }

  /** A non-empty key that was saved is the one the next load returns. */
  method SaveThenLoad(ls: Storage, rng: MathRandom, key: string) returns (loaded: string)
    requires rng.Valid() && key != ""
    modifies ls, rng
    ensures loaded == key
  {
    SaveSecretKey(ls, key);
    loaded := LoadSecretKey(ls, rng);
  }

  /** A saved empty key counts as present for `hasSecretKey`, yet the next load
      replaces it with a generated one. */
  method SaveEmptyThenLoad(ls: Storage, rng: MathRandom) returns (present: bool, loaded: string)
    requires rng.Valid()
    modifies ls, rng
    ensures present
    ensures |loaded| == SecretKeyLength && loaded != ""
  {
    SaveSecretKey(ls, "");
    present := HasSecretKey(ls);
    loaded := LoadSecretKey(ls, rng);
  }
}
