/** The settings page: the key it shows (masked unless revealed), the confirmation
    step before the key is rotated, and the copy button. The page's React state is
    the fields of `SettingsPage`; `navigations` records every `navigate` call. */
module SettingsPage {
  import opened LocalStorage
  import opened SettingsService
  import AuthService

  class SettingsPage {
    var secretKey: string
    var showSecretKey: bool
    var showRefreshWarning: bool
    var copySuccess: bool
    /** The text last written to the clipboard (by either copy path). */
    var clipboard: string
    var navigations: seq<string>
    const storage: Storage
    const rng: MathRandom

    /** The first render: every state hook at its initial value. */
    constructor (storage: Storage, rng: MathRandom)
      ensures this.storage == storage && this.rng == rng
      ensures secretKey == "" && !showSecretKey && !showRefreshWarning && !copySuccess
      ensures clipboard == "" && navigations == []
    {
      this.storage := storage;
      this.rng := rng;
      secretKey := "";
      showSecretKey := false;
      showRefreshWarning := false;
      copySuccess := false;
      clipboard := "";
      navigations := [];
    }

    /** The mount effect: a signed-out visitor is sent to `/login`, and the key is
        loaded either way (the effect does not return after navigating). */
    method Mount()
      requires rng.Valid()
      modifies this, storage, rng
      ensures navigations == old(navigations) + (if old(AuthService.IsLoggedIn(storage)) then [] else ["/login"])
      ensures HasUsableKey(old(storage.items)) ==> secretKey == old(storage.items)[SecretKeyStorageKey]
      ensures HasUsableKey(old(storage.items)) ==>
        storage.items == old(storage.items) && rng.position == old(rng.position)
      ensures !HasUsableKey(old(storage.items)) ==>
        secretKey == KeyFromDraws(rng.draws, old(rng.position)) &&
        storage.items == old(storage.items)[SecretKeyStorageKey := secretKey] &&
        rng.position == old(rng.position) + SecretKeyLength
      ensures HasUsableKey(storage.items) && secretKey == storage.items[SecretKeyStorageKey]
      ensures showSecretKey == old(showSecretKey) && showRefreshWarning == old(showRefreshWarning)
      ensures copySuccess == old(copySuccess) && clipboard == old(clipboard)
    {
      if !AuthService.IsLoggedIn(storage) {
        navigations := navigations + ["/login"];
      }
      var key := LoadSecretKey(storage, rng);
      secretKey := key;
    }

    /** `handleGoBack`. */
    method GoBack()
      modifies this
      ensures navigations == old(navigations) + ["/"]
      ensures secretKey == old(secretKey) && showSecretKey == old(showSecretKey)
      ensures showRefreshWarning == old(showRefreshWarning) && copySuccess == old(copySuccess) && clipboard == old(clipboard)
    {
      navigations := navigations + ["/"];
    }

    /** `handleToggleSecretKey`. */
    method ToggleSecretKey()
      modifies this
      ensures showSecretKey == !old(showSecretKey)
      ensures secretKey == old(secretKey) && showRefreshWarning == old(showRefreshWarning)
      ensures copySuccess == old(copySuccess) && clipboard == old(clipboard) && navigations == old(navigations)
    {
      showSecretKey := !showSecretKey;
    }

    /** `handleCopySecretKey`: the clipboard path and its fallback both copy the key
        and report success. */
    method CopySecretKey()
      modifies this
      ensures clipboard == secretKey && copySuccess
      ensures secretKey == old(secretKey) && showSecretKey == old(showSecretKey)
      ensures showRefreshWarning == old(showRefreshWarning) && navigations == old(navigations)
    {
      clipboard := secretKey;
      copySuccess := true;
    }

    /** `handleRefreshSecretKey`: only the warning opens; no key is generated. */
    method RefreshSecretKey()
      modifies this
      ensures showRefreshWarning
      ensures secretKey == old(secretKey) && showSecretKey == old(showSecretKey)
      ensures copySuccess == old(copySuccess) && clipboard == old(clipboard) && navigations == old(navigations)
    {
      showRefreshWarning := true;
    }

    /** `confirmRefreshSecretKey`: the key is rotated, the page shows the stored key,
        the warning closes and the key is hidden again. */
    method ConfirmRefreshSecretKey()
      requires rng.Valid()
      modifies this, storage, rng
      ensures secretKey == KeyFromDraws(rng.draws, old(rng.position))
      ensures storage.items == old(storage.items)[SecretKeyStorageKey := secretKey]
      ensures !showRefreshWarning && !showSecretKey
      ensures copySuccess == old(copySuccess) && clipboard == old(clipboard) && navigations == old(navigations)
    {
      var newKey := SettingsService.RefreshSecretKey(storage, rng);
      secretKey := newKey;
      showRefreshWarning := false;
      showSecretKey := false;
    }

    /** `cancelRefreshSecretKey`. */
    method CancelRefreshSecretKey()
      modifies this
      ensures !showRefreshWarning
      ensures secretKey == old(secretKey) && showSecretKey == old(showSecretKey)
      ensures copySuccess == old(copySuccess) && clipboard == old(clipboard) && navigations == old(navigations)
    {
      showRefreshWarning := false;
    }

    /** The key as the page renders it. */
    function DisplayedKey(): (shown: string)
      reads this
      ensures showSecretKey ==> shown == secretKey
      ensures !showSecretKey ==> shown == MaskSecretKey(secretKey)
    {
      if showSecretKey then secretKey else MaskSecretKey(secretKey)
    }
  }

  /** What the page shows always has the key's length, and a hidden key of more than
      eight characters shows nothing but its first and last four. */
  lemma DisplayedKeyShape(secretKey: string, show: bool)
    ensures |if show then secretKey else MaskSecretKey(secretKey)| == |secretKey|
    ensures !show && |secretKey| > 8 ==>
      forall k :: 0 <= k < |secretKey| ==>
        (MaskSecretKey(secretKey)[k] == secretKey[k] || (4 <= k < |secretKey| - 4 && MaskSecretKey(secretKey)[k] == '*'))
  {
    if !show && |secretKey| > 8 {
      var m := MaskSecretKey(secretKey);
      forall k | 0 <= k < |secretKey|
        ensures m[k] == secretKey[k] || (4 <= k < |secretKey| - 4 && m[k] == '*')
      {
        if k < 4 {
          assert m[..4][k] == secretKey[..4][k];
        } else if k >= |secretKey| - 4 {
          assert m[|secretKey| - 4..][k - (|secretKey| - 4)] == secretKey[|secretKey| - 4..][k - (|secretKey| - 4)];
        }
      }
    }
  }

  /** Toggling twice restores the visibility, and nothing else moves. */
  method ToggleTwice(page: SettingsPage)
    modifies page
    ensures page.showSecretKey == old(page.showSecretKey) && page.secretKey == old(page.secretKey)
  {
    page.ToggleSecretKey();
    page.ToggleSecretKey();
  }

  /** Opening the warning and cancelling it leaves the shown and the stored key as
      they were and the warning closed. */
  method OpenThenCancel(page: SettingsPage)
    modifies page
    ensures page.secretKey == old(page.secretKey) && page.DisplayedKey() == old(page.DisplayedKey())
    ensures page.storage.items == old(page.storage.items) && !page.showRefreshWarning
  {
    page.RefreshSecretKey();
    page.CancelRefreshSecretKey();
  }

  /** Confirming a rotation leaves the page showing, masked, exactly the stored key. */
  method OpenThenConfirm(page: SettingsPage)
    requires page.rng.Valid()
    modifies page, page.storage, page.rng
    ensures SecretKeyStorageKey in page.storage.items && page.secretKey == page.storage.items[SecretKeyStorageKey]
    ensures page.DisplayedKey() == MaskSecretKey(page.storage.items[SecretKeyStorageKey])
    ensures |page.secretKey| == SecretKeyLength && !page.showRefreshWarning
  {
    page.RefreshSecretKey();
    page.ConfirmRefreshSecretKey();
  }
}
