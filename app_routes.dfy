/** The route gate around every page: a spinner while anything is still loading,
    the login page for a visitor without a session, only the two key-setup pages for
    a signed-in user whose id is known and who has no key yet, and otherwise the main
    route table under the header. Paths are compared as exact strings. */
module AppRoutes {
  import opened Wrappers

  const LoginPath: string := "/login"
  const HomePath: string := "/"
  const SettingsPath: string := "/settings"
  const KeySetupPath: string := "/key-setup"
  const KeyGenerationPath: string := "/key-generation"

  datatype Page = HomePage | LoginPage | SettingsPage | KeySetupPage | KeyGenerationPage

  /** What `ProtectedRoutes` renders. `withHeader` is set inside the main table. */
  datatype View =
    | Spinner
    | Render(page: Page, withHeader: bool)
    | Redirect(to: string, withHeader: bool)

  /** What the gate reads: the session flags, the cached user's id, the key-check
      state and the current path. */
  datatype GateInput = GateInput(
    isLoading: bool,
    keyCheckLoading: bool,
    isAuthenticated: bool,
    userId: Option<string>,
    userHasKey: bool,
    path: string)

  /** `isInKeySetupProcess`. */
  predicate IsInKeySetupProcess(path: string) {
    path == KeySetupPath || path == KeyGenerationPath
  }

  /** `user?.id`, truthy. */
  predicate HasUserId(userId: Option<string>) {
    userId.Some? && userId.value != ""
  }

  /** The routes offered while the key is missing. */
  function KeySetupRoutes(path: string): (v: View)
    ensures !v.Spinner? && !v.withHeader
    ensures v.Render? <==> IsInKeySetupProcess(path)
    ensures v.Redirect? ==> v.to == KeySetupPath
  {
    if path == KeySetupPath then Render(KeySetupPage, false)
    else if path == KeyGenerationPath then Render(KeyGenerationPage, false)
    else Redirect(KeySetupPath, false)
  }

  /** The main route table under the header. */
  function MainRoutes(path: string): (v: View)
    ensures !v.Spinner? && v.withHeader
    ensures v.Render? <==> path == HomePath || path == SettingsPath
    ensures v.Redirect? ==> v.to == HomePath
  {
    if path == LoginPath || path == KeySetupPath || path == KeyGenerationPath then Redirect(HomePath, true)
    else if path == HomePath then Render(HomePage, true)
    else if path == SettingsPath then Render(SettingsPage, true)
    else Redirect(HomePath, true)
  }

  /** `ProtectedRoutes`: the chain of early returns. */
  function Gate(input: GateInput): View {
    if input.isLoading || input.keyCheckLoading then Spinner
    else if !input.isAuthenticated then Render(LoginPage, false)
    else if HasUserId(input.userId) && !input.userHasKey then KeySetupRoutes(input.path)
    else MainRoutes(input.path)
  }

  /** Either loading flag shows the spinner, and nothing else does. */
  lemma SpinnerExactlyWhileLoading(input: GateInput)
    ensures Gate(input) == Spinner <==> input.isLoading || input.keyCheckLoading
  {
  }

  /** Once loading is over, a visitor without a session gets the login page on
      every path, and the login page is rendered for no one else. */
  lemma LoginExactlyWhenSignedOut(input: GateInput)
    requires !input.isLoading && !input.keyCheckLoading
    ensures Gate(input) == Render(LoginPage, false) <==> !input.isAuthenticated
  {
  }

  /** A signed-in user with a known id and no key reaches exactly the two key-setup
      pages, each at its own path; every other path goes to `/key-setup`. */
  lemma KeyMissingGate(input: GateInput)
    requires !input.isLoading && !input.keyCheckLoading && input.isAuthenticated
    requires HasUserId(input.userId) && !input.userHasKey
    ensures Gate(input).Render? <==> IsInKeySetupProcess(input.path)
    ensures input.path == KeySetupPath ==> Gate(input) == Render(KeySetupPage, false)
    ensures input.path == KeyGenerationPath ==> Gate(input) == Render(KeyGenerationPage, false)
    ensures !IsInKeySetupProcess(input.path) ==> Gate(input) == Redirect(KeySetupPath, false)
  {
  }

  /** With a key, or with no cached id at all, the main table decides: home and
      settings render, the login and key-setup paths and every unknown path go
      home. */
  lemma MainTableGate(input: GateInput)
    requires !input.isLoading && !input.keyCheckLoading && input.isAuthenticated
    requires input.userHasKey || !HasUserId(input.userId)
    ensures input.path == HomePath ==> Gate(input) == Render(HomePage, true)
    ensures input.path == SettingsPath ==> Gate(input) == Render(SettingsPage, true)
    ensures input.path != HomePath && input.path != SettingsPath ==> Gate(input) == Redirect(HomePath, true)
  {
  }

  /** No page of the main table is a key-setup page, and a key-setup page never
      shows the header. */
  lemma KeySetupPagesOnlyWhileKeyMissing(input: GateInput)
    ensures Gate(input).Render? && Gate(input).page in {KeySetupPage, KeyGenerationPage} ==>
      input.isAuthenticated && HasUserId(input.userId) && !input.userHasKey &&
      IsInKeySetupProcess(input.path) && !Gate(input).withHeader
  {
  }

  /** The key check run by the effect: with a user id it records whether that user
      has a key; without one it only ends the loading, keeping the previous answer. */
  function KeyCheck(userId: Option<string>, hasUserSecretKey: string -> bool, previous: bool): (state: (bool, bool))
    ensures !state.1
    ensures HasUserId(userId) ==> state.0 == hasUserSecretKey(userId.value)
    ensures !HasUserId(userId) ==> state.0 == previous
  {
    if HasUserId(userId) then (hasUserSecretKey(userId.value), false) else (previous, false)
  }

  /** After the effect has run, a signed-in user whose key exists is never held on
      the key-setup routes. */
  lemma KeyHolderReachesMainTable(isAuthenticated: bool, userId: Option<string>, hasUserSecretKey: string -> bool, path: string)
    requires isAuthenticated && HasUserId(userId) && hasUserSecretKey(userId.value)
    ensures var state := KeyCheck(userId, hasUserSecretKey, false);
      Gate(GateInput(false, state.1, isAuthenticated, userId, state.0, path)) == MainRoutes(path)
  {
  }
}
