# mini-password-manager — a Dafny model of its core

This project models the deterministic core of a small password manager. The
manager has a React client and a NestJS API. On the client, vault items are
encrypted before they leave the browser. The client derives an AES-GCM key with
Argon2id from the user's secret key and a fresh salt. It stores an envelope of
base64 texts with metadata naming the algorithm, the key-derivation function
and its iteration count.

The model covers:

- the envelope engine and its base64 helpers;
- the password rules;
- the single-slot secret-key store and its masking;
- the vault-item wire mapping and the two bulk-decryption loops;
- the session cache with its 24-hour expiry, and the token storage;
- the HTTP client's URL, header and error-normalisation rules;
- the state machines of the settings, key-setup, key-generation and login
  pages;
- the add-account form;
- the route gate;
- the general helpers and the counter hook;
- on the server: the JWT guard, the user service (current and legacy), and
  the vault repository and service over in-memory tables.

One Dafny module models each core source file. Four shared modules support
them:

- `Wrappers`: Option and Result values;
- `Json`: JSON values and the abstract `JSON.parse`/`JSON.stringify` codec;
- `JsStrings`: the JavaScript string built-ins the core relies on, written
  out;
- `LocalStorage`: a `Storage` class over a `map<string, string>`.

Code that changes state becomes a class or a method with `modifies` clauses:

- the pages are classes whose fields are the React state, and their
  `navigations` field logs every `navigate` call;
- `localStorage`, `fetch` (`HttpClient.Network`), `Math.random`
  (`SettingsService.MathRandom`) and the server tables are classes.

Pure decisions are functions, and the properties the source promises are
`ensures` clauses and lemmas.

Foreign code is carried as function values in parameters, with its correctness
assumptions stated as hypotheses of the lemmas that need them:

- Argon2id, AES-GCM, UTF-8 and `crypto.getRandomValues` are carried by
  `CryptoService.Primitives` and `Entropy`;
- `JSON.parse`/`JSON.stringify` by `Json.Codec`;
- the URL parser by `AddVaultItemForm.UrlParser`;
- bcrypt by `UserService.Bcrypt`;
- `verifyToken` by `JwtGuard.TokenVerifier`;
- the per-user key store, QR and PDF helpers the pages import are parameters
  or recorded calls.

An example of such a hypothesis is the AEAD axiom "opening what was sealed
under the same key and IV gives back the plaintext". `btoa` and `atob` are
written out concretely:

- `btoa` is the padded encoder of section 4 of RFC 4648;
- `atob` is the forgiving-base64 decoder of the HTML standard.

The clock is the parameter `now`, in milliseconds.

Where the code and its documentation disagree, the model follows the code:

- `encrypt` records `options.iterations || 3` in the envelope, but it derives
  the key with the destructuring default, which applies only when the option
  is absent. An explicit `0` therefore derives with 0 iterations but records
  3 (`ZeroIterationsRecordsDefault`).
- `decrypt` re-derives from the envelope's iterations and salt only. Memory
  and parallelism always fall back to 65536 and 1.
- `useAuthState` returns no `isLoading`, so the route gate's loading flag is
  always undefined in the running app. The model keeps it as an input.

## Model

| member | source | states |
|---|---|---|
| Base64.ArrayBufferToBase64 | client/src/services/CryptoService.ts:34-41 | the loop over the bytes yields their padded RFC 4648 base64 text |
| Base64.Base64ToArrayBuffer | client/src/services/CryptoService.ts:46-53 | the loop yields the bytes the forgiving decoder gives, and an error where `atob` throws |
| Base64.DecodeEncode | client/src/services/CryptoService.ts:34-53 | the forgiving decoder inverts the padded RFC 4648 encoder on every byte string |
| Base64.AtobBtoa | client/src/services/CryptoService.ts:34-53 | `btoa` accepts the binary string of any bytes and gives their encoding, and `atob` of that encoding gives back the binary string |
| Base64.GroupRoundTrip | client/src/services/CryptoService.ts:34-53 | one 3-byte group encodes to four alphabet characters that decode back to the three bytes |
| Base64.UnpaddedRoundTrip | client/src/services/CryptoService.ts:34-53 | the unpadded encoding never has length 1 mod 4 and decodes back to the bytes |
| CryptoService.GenerateSalt | client/src/services/CryptoService.ts:58-60 | the salt is 32 bytes taken in order from the random source |
| CryptoService.GenerateIV | client/src/services/CryptoService.ts:65-67 | the IV is 12 bytes, the next ones from the random source after the salt |
| CryptoService.KdfParamsOf | client/src/services/CryptoService.ts:77-93 | an absent option takes its default (3 iterations, 65536 KB, parallelism 1); a present one, even 0, is used; the key is 32 bytes |
| CryptoService.RecordedIterations | client/src/services/CryptoService.ts:191 | the recorded count is 3 exactly when the option is absent, 0 or 3; otherwise it is the option's value |
| CryptoService.Encrypt | client/src/services/CryptoService.ts:169-201 | a success is tagged AES-GCM/Argon2id, records the iteration count, and carries the base64 of the salt and IV drawn; success iff derivation and sealing succeed; any failure carries the fixed prefix and no envelope |
| CryptoService.Decrypt | client/src/services/CryptoService.ts:206-239 | a wrong algorithm fails first, then a wrong KDF, both without deriving; undecodable salt or IV fails; every failure carries the fixed prefix |
| CryptoService.StoredOptionsRederive | client/src/services/CryptoService.ts:228-230 | for options with default memory and parallelism and a positive or absent iteration count, the stored metadata re-derives the same Argon2id parameters |
| CryptoService.DecryptEncrypt | client/src/services/CryptoService.ts:169-239 | under the AEAD axiom and a UTF-8 round trip, decrypting a successful encryption with the same secret key returns the plaintext |
| CryptoService.ZeroIterationsRecordsDefault | client/src/services/CryptoService.ts:186-192 | an explicit 0 iterations derives with 0 but records 3 |
| CryptoService.DecryptUsesStoredParameters | client/src/services/CryptoService.ts:223-233 | two KDFs that agree on the parameters read from the envelope give the same decryption: nothing else of the options is used |
| CryptoService.PasswordErrorsFacts | client/src/services/CryptoService.ts:248-268 | at most one message per rule, each for a broken rule, in the rules' order, and every broken rule reported |
| CryptoService.PasswordErrorsBroken | client/src/services/CryptoService.ts:250-268 | the first n rules yield at most n messages, each the message of a rule the password breaks |
| CryptoService.PasswordErrorsOrdered | client/src/services/CryptoService.ts:250-268 | messages appear in strictly increasing rule order (length, upper, lower, digit, special) |
| CryptoService.PasswordErrorsComplete | client/src/services/CryptoService.ts:250-268 | a rule's message is present exactly when the password breaks that rule |
| CryptoService.ValidatePassword | client/src/services/CryptoService.ts:244-274 | the five rule checks, one `if` each in rule order, push exactly the rule-list errors, and `isValid` holds iff there are none |
| CryptoService.ValidExactlyWhenNoRuleBroken | client/src/services/CryptoService.ts:270-271 | the error list is empty iff no rule is broken |
| SettingsService.MathRandom.Next | client/src/services/SettingsService.ts:18 | each draw is the next value of the stream, in [0, 1) |
| SettingsService.PickIndex | client/src/services/SettingsService.ts:18 | `floor(x * 63)` is a valid alphabet index for every draw in [0, 1) |
| SettingsService.KeyFromDraws | client/src/services/SettingsService.ts:13-21 | the key built from 64 draws has length 64 and only `A-Z a-z 0-9 -` characters |
| SettingsService.GenerateSecretKey | client/src/services/SettingsService.ts:13-21 | the loop builds the key of the next 64 draws: 64 alphabet characters, and the stream advances by 64 |
| SettingsService.HasSecretKey | client/src/services/SettingsService.ts:81-83 | true iff the `secretKey` slot exists, whatever its value |
| SettingsService.LoadSecretKey | client/src/services/SettingsService.ts:28-35 | a stored non-empty key is returned with storage untouched; otherwise the key built from the next 64 draws is stored in the slot and returned, and the stream moves on by 64; afterwards the slot holds the result |
| SettingsService.SaveSecretKey | client/src/services/SettingsService.ts:41-43 | only the `secretKey` slot changes, to the given key |
| SettingsService.RefreshSecretKey | client/src/services/SettingsService.ts:49-53 | the new generated key is stored in the slot and returned; no other key changes |
| SettingsService.RemoveSecretKey | client/src/services/SettingsService.ts:73-75 | only the slot is removed, and `hasSecretKey` is then false |
| SettingsService.MaskSecretKey | client/src/services/SettingsService.ts:61-68 | up to 8 characters unchanged; otherwise the same length, first and last four kept, `*` between |
| SettingsService.MaskIdempotent | client/src/services/SettingsService.ts:61-68 | masking a masked key changes nothing |
| SettingsService.LoadTwice | client/src/services/SettingsService.ts:28-35 | two loads return the same key, and the slot holds it |
| SettingsService.SaveThenLoad | client/src/services/SettingsService.ts:28-43 | after saving a non-empty key, loading returns it |
| SettingsService.SaveEmptyThenLoad | client/src/services/SettingsService.ts:28-83 | a stored empty string counts as present for `hasSecretKey` but is regenerated by the load into a 64-character key |
| ClientVaultService.WireEncryption | client/src/services/VaultService.ts:321-332 | the wire `encryption` carries the envelope's algorithm, iv, salt, kdf and iterations |
| ClientVaultService.EnvelopeOf | client/src/services/VaultService.ts:213-222 | the envelope rebuilt from the wire has the blob as data and the wire's five metadata fields |
| ClientVaultService.EnvelopeOfWire | client/src/services/VaultService.ts:213-222 | envelope to wire and back is the identity |
| ClientVaultService.WireOfEnvelope | client/src/services/VaultService.ts:321-332 | wire to envelope and back is the identity |
| ClientVaultService.IterationsField | client/src/services/CryptoService.ts:77-79 | an absent `iterations` reads as the default 3; a present one must be a number and is used as it is |
| ClientVaultService.AsEnvelopeOfJson | client/src/services/CryptoService.ts:206-233 | the JSON object of an envelope reads back as that envelope |
| ClientVaultService.AbsentIterationsDefault | client/src/services/CryptoService.ts:228-230 | an envelope without `iterations` still reads, with the count 3 the key derivation fills in |
| ClientVaultService.AddRequestOf | client/src/services/VaultService.ts:321-332 | the add request keeps type and title, and its blob and encryption rebuild the envelope |
| ClientVaultService.GetVaultItems | client/src/services/VaultService.ts:152-179 | the loop returns exactly the items that pass, after decryption, and no more than were fetched |
| ClientVaultService.KeptItemsOrder | client/src/services/VaultService.ts:152-179 | the result is the fetched list at strictly increasing indices, an index is kept iff its item decrypts and parses, and each kept item is that item decrypted |
| ClientVaultService.KeptAtIndices | client/src/services/VaultService.ts:152-179 | each returned item is the decryption of the fetched item at its recorded index |
| ClientVaultService.DecryptItemKeepsOtherFields | client/src/services/VaultService.ts:157-172 | an item without truthy `encryptedData` passes unchanged; a kept item has the same fields as the input, with the same values, apart from `data` |
| ClientVaultService.DecryptItemCases | client/src/services/VaultService.ts:154-176 | an item is dropped iff it has truthy `encryptedData` and its envelope is malformed, decryption fails or the plaintext does not parse; a decrypted item's `data` is the parsed plaintext |
| ClientVaultService.DecryptDtoKeepsOtherFields | client/src/services/VaultService.ts:211-243 | decryption changes only `decryptedData`, and an item without both blob and encryption is returned unchanged |
| ClientVaultService.DecryptDtoCases | client/src/services/VaultService.ts:211-243 | an item that does not decrypt to parsable JSON is kept exactly as it came; one that does gets the parsed plaintext as `decryptedData` |
| ClientVaultService.DecryptListed | client/src/services/VaultService.ts:211-243 | one step of the loop gives the item unchanged when it has no blob or metadata or fails to decrypt or parse, and otherwise the item with the parsed plaintext as `decryptedData` |
| ClientVaultService.GetVaultItemsDecrypted | client/src/services/VaultService.ts:207-246 | as many items as fetched, in order; an item that fails (or is not encrypted) is kept unchanged, and one that decrypts gets the parsed plaintext as `decryptedData` |
| ClientVaultService.AddVaultItemWithEncryption | client/src/services/VaultService.ts:303-338 | after a successful encryption the result is the server's answer to the request built from the envelope, or its error with the fixed prefix; an encryption failure fails with the prefix too |
| ClientVaultService.AddedItemReadsBack | client/src/services/VaultService.ts:313-334 | under the AEAD and JSON round trips, the stored wire form decrypts back to the item's data |
| ClientVaultService.CreateBodyOf | client/src/services/VaultService.ts:362-370 | `favorite` is true only when the caller set it true (unset sends false); the other fields and the envelope go as given |
| ClientVaultService.CreateVaultItem | client/src/services/VaultService.ts:347-396 | after a successful encryption, a successful post returns the server's answer with the caller's plaintext `data`, and a failed post is its error; an encryption failure is that failure |
| ClientVaultService.UpdateBodyOf | client/src/services/VaultService.ts:411-427 | `encryptedData` is sent iff `data` is present, and then is its encryption; the other fields are copied; without data it cannot fail |
| ClientVaultService.UpdateVaultItem | client/src/services/VaultService.ts:405-462 | a body failure or a failed put is that failure; an answer without truthy `encryptedData` is returned with the caller's `data` |
| ClientVaultService.UpdateAnswerCases | client/src/services/VaultService.ts:437-450 | an answer with truthy `encryptedData` fails on a malformed envelope, a failed decryption or an unparsable plaintext; otherwise `data` is the parsed plaintext when truthy, else the caller's `data` |
| HttpClient.Network.Fetch | client/src/services/httpClient.ts:62 | `fetch` records the request and hands out the next answer in order |
| HttpClient.GetAccessToken | client/src/services/httpClient.ts:21-23 | the token is present iff its key is stored, and is that value |
| HttpClient.SetAccessToken | client/src/services/httpClient.ts:25-27 | only the token key changes, and reading it back returns the token |
| HttpClient.RemoveAccessToken | client/src/services/httpClient.ts:29-31 | only the token key is removed, and reading it back gives null |
| HttpClient.ApiBaseUrl | client/src/services/httpClient.ts:4 | a non-empty configured URL is used, else the localhost default |
| HttpClient.RequestUrl | client/src/services/httpClient.ts:38 | the URL starts with the base URL and what follows is the endpoint |
| HttpClient.BaseHeaders | client/src/services/httpClient.ts:40-46 | the caller's headers replace the merged ones when given; otherwise only `Content-Type: application/json` |
| HttpClient.CallerHeadersReplaceDefault | client/src/services/httpClient.ts:40-46 | caller headers without `Content-Type` lose the default `Content-Type` |
| HttpClient.HeadersFor | client/src/services/httpClient.ts:49-59 | `Authorization` is added exactly when the token rule holds; otherwise the headers are unchanged |
| HttpClient.AuthorizationHeaderRule | client/src/services/httpClient.ts:49-59 | `Authorization: Bearer <token>` is present iff there is a non-empty token and the endpoint mentions neither `/login` nor `/register` |
| HttpClient.ConfigFor | client/src/services/httpClient.ts:40-59 | the request keeps the caller's method and body and uses the headers of the rule above |
| HttpClient.ErrorMessage | client/src/services/httpClient.ts:64-73 | `String` of the parsed object body's truthy `message` of any JSON type when it has one, else `HTTP error! status: N`; an empty message only from a truthy `message` such as `[]` |
| HttpClient.StringMessageShown | client/src/services/httpClient.ts:69 | a non-empty string `message` is shown as it is |
| HttpClient.ValidationMessagesShown | client/src/services/httpClient.ts:69 | an array of message strings, as a validation pipe answers, is shown joined by commas |
| HttpClient.JoinedStrings | client/src/services/httpClient.ts:69 | `String` of a non-empty array of strings is their comma join |
| HttpClient.SingleValidationMessage | client/src/services/httpClient.ts:64-73 | a 400 answer with `message: ["email must be an email"]` shows `email must be an email` |
| HttpClient.FalsyMessageFallsBack | client/src/services/httpClient.ts:64-73 | an absent or falsy `message` leaves `HTTP error! status: N` |
| HttpClient.Normalize | client/src/services/httpClient.ts:61-84 | a network failure and an unparsable OK body become status 0; a non-OK answer becomes its status and message; an OK parsed body is the result |
| HttpClient.StatusZeroUnlessErrorAnswer | client/src/services/httpClient.ts:77-84 | a failure has non-zero status iff it came from a non-OK answer |
| HttpClient.HttpRequest | client/src/services/httpClient.ts:34-85 | exactly one request, to the composed URL with the composed config, and its answer normalised |
| AuthService.WithoutCache | client/src/services/AuthService.ts:55-58 | both cache keys gone, every other key kept |
| AuthService.RemoveCachedUser | client/src/services/AuthService.ts:55-58 | storage loses exactly the two cache keys |
| AuthService.Cleared | client/src/services/AuthService.ts:60-63 | the token and both cache keys gone, every other key kept |
| AuthService.ClearAllTokens | client/src/services/AuthService.ts:60-63 | storage is cleared of the three keys and `isLoggedIn` is false |
| AuthService.ClearedAbsorbs | client/src/services/AuthService.ts:60-63 | clearing is idempotent and forgets any token written before it |
| AuthService.ClearedHasNoUser | client/src/services/AuthService.ts:60-63 | after clearing, the cached user reads as null and storage is left alone |
| AuthService.WriteCache | client/src/services/AuthService.ts:43-49 | the user is stored as JSON with expiry now + 86400000 as a decimal string; other keys kept |
| AuthService.SetCachedUser | client/src/services/AuthService.ts:43-53 | storage becomes the cache write of the user at `now` |
| AuthService.GetCachedUser | client/src/services/AuthService.ts:21-41 | the result and the new storage are those of the cache read at `now` |
| AuthService.CacheReadCases | client/src/services/AuthService.ts:21-41 | a missing key gives null with storage untouched; a corrupt entry is removed and gives null; a user read leaves storage untouched and is the parsed entry |
| AuthService.CacheRoundTrip | client/src/services/AuthService.ts:21-49 | a user cached at t reads back at any time up to t + 24 h, with storage unchanged |
| AuthService.CacheExpires | client/src/services/AuthService.ts:30-33 | after t + 24 h the read gives null and removes both keys |
| AuthService.Logout | client/src/services/AuthService.ts:173-175 | logout clears the three keys and leaves the user signed out |
| AuthService.IsLoggedIn | client/src/services/AuthService.ts:177-179 | true iff the access-token key is stored |
| AuthService.AccessTokenOf | client/src/services/AuthService.ts:79 | the token is found iff the answer has a string `accessToken.value`, and is that string |
| AuthService.TokenCallResultCases | client/src/services/AuthService.ts:66-116 | success iff the call succeeded with a token; the expected status becomes the fixed message; any other error is rethrown as it is |
| AuthService.RegisterUser | client/src/services/AuthService.ts:66-90 | one POST to `/api/v1/user/register` with the body; 409 is the user-exists message; a success stores the returned token |
| AuthService.LoginUser | client/src/services/AuthService.ts:92-116 | one POST to `/api/v1/user/login` with the credentials; 401 is the invalid-credentials message; a success stores the returned token |
| AuthService.RefreshAccessToken | client/src/services/AuthService.ts:118-141 | one POST to the refresh endpoint; a 401 clears all tokens before failing; a success stores the new token |
| AuthService.RefreshThenRetry | client/src/services/AuthService.ts:155-166 | after a refresh the request is retried once with the new token; a retry success is cached; any failure clears everything and signs out |
| AuthService.GetCurrentUser | client/src/services/AuthService.ts:143-171 | the first request carries the stored token; the result, storage and requests sent are those of the session run |
| AuthService.CurrentUserIsCached | client/src/services/AuthService.ts:143-162 | a user returned by `getCurrentUser` reads back from the cache for the next 24 hours |
| AuthService.CurrentUserSignsOut | client/src/services/AuthService.ts:151-170 | a retry happens iff the first answer is a 401; the sign-out message comes exactly from a failed retry path, which clears all keys |
| LoginPage.FailureMessage | client/src/pages/LoginPage.tsx:87-93 | the shown message is the thrown error's own message |
| LoginPage.RegisterCheck | client/src/pages/LoginPage.tsx:63-71 | no error iff the passwords match and have at least 8 characters; the mismatch is reported before the length |
| LoginPage.LoginPage.constructor | client/src/pages/LoginPage.tsx:14-22 | the page starts in login mode, not loading, with no error and empty fields |
| LoginPage.LoginPage.Mount | client/src/pages/LoginPage.tsx:25-29 | a signed-in visitor is sent to `/`, and nothing else changes |
| LoginPage.LoginPage.SetMode | client/src/pages/LoginPage.tsx:25-29 | the tab sets the mode; the redirect effect runs again when the mode changes, so a signed-in visitor is sent to `/`; nothing else changes |
| LoginPage.LoginPage.InputChange | client/src/pages/LoginPage.tsx:31-37 | only the named field takes the new value |
| LoginPage.LoginPage.Submit | client/src/pages/LoginPage.tsx:39-97 | login sends only e-mail and password, with no local check; a failed register check sends nothing and shows its error; success goes home; failure shows its message; loading is off on every path |
| KeySetupPage.SavesExactlyOwnBackup | client/src/pages/KeySetupPage.tsx:45-66 | a key is saved iff there is a user id, the input is not blank, and the trimmed input parses to a backup of this user; the saved key is that backup's key; blank input does nothing |
| KeySetupPage.KeySetupPage.constructor | client/src/pages/KeySetupPage.tsx:14-17 | the page starts at the check step with no input, no error, not loading |
| KeySetupPage.KeySetupPage.Mount | client/src/pages/KeySetupPage.tsx:19-35 | no session or user id goes to `/login`; at the check step an existing key goes home, otherwise the step becomes setup |
| KeySetupPage.KeySetupPage.GenerateNewKey | client/src/pages/KeySetupPage.tsx:37-39 | navigates to `/key-generation` and changes nothing else |
| KeySetupPage.KeySetupPage.ImportKey | client/src/pages/KeySetupPage.tsx:41-43 | the step becomes import |
| KeySetupPage.KeySetupPage.SetImportInput | client/src/pages/KeySetupPage.tsx:252 | the import input takes the typed text |
| KeySetupPage.KeySetupPage.ConfirmImport | client/src/pages/KeySetupPage.tsx:45-66 | state follows the import effect: a save of the user's own key and a move home, or an error message; loading ends false after any attempt; nothing changes without an attempt |
| KeySetupPage.KeySetupPage.BackToSetup | client/src/pages/KeySetupPage.tsx:68-72 | the step becomes setup, and the input and the error are cleared |
| KeyGenerationPage.KeyGenerationPage.constructor | client/src/pages/KeyGenerationPage.tsx:15-19 | the page starts at the generate step with no key, no QR data and no error |
| KeyGenerationPage.KeyGenerationPage.GenerateNewKey | client/src/pages/KeyGenerationPage.tsx:21-47 | no user id does nothing; a generation failure sets an error and keeps the step; success shows the generated key and its QR payload and moves to success; a backup is attempted only with an e-mail; loading ends false |
| KeyGenerationPage.KeyGenerationPage.DownloadBackup | client/src/pages/KeyGenerationPage.tsx:49-56 | exactly one backup attempt is recorded, and its failure changes nothing |
| KeyGenerationPage.KeyGenerationPage.Continue | client/src/pages/KeyGenerationPage.tsx:58-60 | navigates to `/` |
| KeyGenerationPage.KeyGenerationPage.Back | client/src/pages/KeyGenerationPage.tsx:62-64 | navigates to `/key-setup` |
| KeyGenerationPage.SuccessShowsGeneratedKey | client/src/pages/KeyGenerationPage.tsx:28-40 | reaching success means the shown key is the generated one and the QR payload is built from that key and user id |
| SettingsPage.SettingsPage.constructor | client/src/pages/SettingsPage.tsx:14-17 | no key shown, key hidden, warning closed |
| SettingsPage.SettingsPage.Mount | client/src/pages/SettingsPage.tsx:19-28 | a signed-out visitor is sent to `/login`; a usable stored key is shown and storage and the random stream are unchanged; otherwise the key built from the next 64 draws is stored in its slot only and shown, and the stream moves on by 64 |
| SettingsPage.SettingsPage.GoBack | client/src/pages/SettingsPage.tsx:30-32 | navigates to `/` |
| SettingsPage.SettingsPage.ToggleSecretKey | client/src/pages/SettingsPage.tsx:34-36 | visibility flips; nothing else changes |
| SettingsPage.SettingsPage.CopySecretKey | client/src/pages/SettingsPage.tsx:38-55 | the clipboard receives the key and success is shown |
| SettingsPage.SettingsPage.RefreshSecretKey | client/src/pages/SettingsPage.tsx:57-59 | only the warning opens; the key is neither regenerated nor changed |
| SettingsPage.SettingsPage.ConfirmRefreshSecretKey | client/src/pages/SettingsPage.tsx:61-66 | the shown key is the newly generated and stored key; the warning closes and the key is hidden |
| SettingsPage.SettingsPage.CancelRefreshSecretKey | client/src/pages/SettingsPage.tsx:68-70 | the warning closes and the key stays |
| SettingsPage.SettingsPage.DisplayedKey | client/src/pages/SettingsPage.tsx:150 | the key when revealed, its mask otherwise |
| SettingsPage.DisplayedKeyShape | client/src/pages/SettingsPage.tsx:150 | the shown text has the key's length; hidden, each position is the key's or a `*` strictly inside the first and last four |
| SettingsPage.ToggleTwice | client/src/pages/SettingsPage.tsx:34-36 | two toggles restore the visibility |
| SettingsPage.OpenThenCancel | client/src/pages/SettingsPage.tsx:57-70 | open then cancel leaves the shown and stored key as they were, with the warning closed |
| SettingsPage.OpenThenConfirm | client/src/pages/SettingsPage.tsx:57-66 | open then confirm shows, masked, exactly the stored 64-character key |
| AddVaultItemForm.WithScheme | client/src/components/AddVaultItemForm.tsx:60-67 | the text parsed starts with `http`, and is the input itself iff the input already did |
| AddVaultItemForm.WithSchemeIdempotent | client/src/components/AddVaultItemForm.tsx:60-67 | prefixing twice is prefixing once |
| AddVaultItemForm.CheckLoginId | client/src/components/AddVaultItemForm.tsx:40-42 | an error iff the login id is blank after trim |
| AddVaultItemForm.CheckPassword | client/src/components/AddVaultItemForm.tsx:44-48 | an error iff the password is blank after trim, so the length-below-1 branch never fires |
| AddVaultItemForm.CheckWebsite | client/src/components/AddVaultItemForm.tsx:50-54 | blank gives the required error, an unparsable URL the invalid error, which needs a non-blank website |
| AddVaultItemForm.FormErrorsCases | client/src/components/AddVaultItemForm.tsx:37-58 | each field's error is recorded iff its own check fails |
| AddVaultItemForm.AddAccountForm.ValidateForm | client/src/components/AddVaultItemForm.tsx:37-58 | the recorded errors are the three checks' results, and the form is valid iff none is recorded |
| AddVaultItemForm.StripWww | client/src/components/AddVaultItemForm.tsx:91 | a leading `www.` is removed once; nothing else changes |
| AddVaultItemForm.FirstLabel | client/src/components/AddVaultItemForm.tsx:91 | the text before the first dot, with no dot in it |
| AddVaultItemForm.Capitalize | client/src/components/AddVaultItemForm.tsx:92 | same length, the first character upper-cased, the rest unchanged |
| AddVaultItemForm.Search | client/src/components/AddVaultItemForm.tsx:95 | the fallback regular expression's group, when it matches, is a non-empty run of characters other than `/` and `.` |
| AddVaultItemForm.SearchFinds | client/src/components/AddVaultItemForm.tsx:95 | the fallback expression matches iff the text has a character other than `/` and `.` |
| AddVaultItemForm.ExtractDomainName | client/src/components/AddVaultItemForm.tsx:84-98 | the name is never empty, and the empty website gives `새 계정` |
| AddVaultItemForm.DomainNameOfHost | client/src/components/AddVaultItemForm.tsx:88-92 | a parsed host `<label><rest>` not starting with `www.`, or `www.<label><rest>`, where rest is empty or starts with a dot, gives the label with its first character upper-cased |
| AddVaultItemForm.DomainNameFallback | client/src/components/AddVaultItemForm.tsx:93-97 | when the parser rejects the text, the name is the capitalised fallback group when the text has a character other than `/` and `.`, and `새 계정` otherwise |
| AddVaultItemForm.StrengthLabel | client/src/components/AddVaultItemForm.tsx:237-249 | strong from 12 characters, medium from 8, weak below |
| AddVaultItemForm.StrengthMonotone | client/src/components/AddVaultItemForm.tsx:237-249 | a longer password never gets a weaker label |
| AddVaultItemForm.AddAccountForm.constructor | client/src/components/AddVaultItemForm.tsx:27-35 | empty fields, no errors, password hidden |
| AddVaultItemForm.AddAccountForm.InputChange | client/src/components/AddVaultItemForm.tsx:69-82 | only the named field changes, and only that field's error is cleared |
| AddVaultItemForm.AddAccountForm.TogglePassword | client/src/components/AddVaultItemForm.tsx:219 | password visibility flips |
| AddVaultItemForm.AddAccountForm.Submit | client/src/components/AddVaultItemForm.tsx:100-125 | submits only after validation passes, as an ACCOUNT, not favourite, named from the website, with notes absent when empty |
| AppRoutes.KeySetupRoutes | client/src/App.tsx:81-89 | shown without the header; a path renders iff it is exactly `/key-setup` or `/key-generation` (`isInKeySetupProcess`), and every other path redirects to `/key-setup` |
| AppRoutes.MainRoutes | client/src/App.tsx:92-103 | shown under the header; only `/` and `/settings` render, and every other path, `/login` and the key pages included, redirects to `/` |
| AppRoutes.SpinnerExactlyWhileLoading | client/src/App.tsx:71-73 | the spinner is shown iff a loading flag is set, whatever else holds |
| AppRoutes.LoginExactlyWhenSignedOut | client/src/App.tsx:76-78 | when nothing is loading, the login page is shown iff the user is not authenticated |
| AppRoutes.KeyMissingGate | client/src/App.tsx:81-89 | a signed-in user with an id and no key gets `/key-setup` and `/key-generation` rendered and every other path redirected to `/key-setup` |
| AppRoutes.MainTableGate | client/src/App.tsx:92-103 | a signed-in user with a key, or with no cached id even without a key, gets `/` and `/settings` rendered and every other path redirected to `/` |
| AppRoutes.KeySetupPagesOnlyWhileKeyMissing | client/src/App.tsx:81-89 | a key-setup page is rendered only for a signed-in user with an id and no key, on its own path, without the header |
| AppRoutes.KeyCheck | client/src/App.tsx:43-61 | the key check always ends its loading; with a user id the key flag is the store's answer for that id, without one the previous flag stays |
| AppRoutes.KeyHolderReachesMainTable | client/src/App.tsx:43-103 | once the key check has run for a signed-in user whose key exists, the gate gives the main route table for every path |
| Helpers.SliceTo | client/src/utils/helpers.js:10-13 | the prefix of the first n characters |
| Helpers.TruncateStringCases | client/src/utils/helpers.js:10-13 | unchanged when no longer than n; for 0 <= n below the length, the first n characters and `...`, of length n + 3; a negative n slices from the back, as `slice` does |
| Helpers.TruncatedIsPrefix | client/src/utils/helpers.js:10-13 | a truncated text ends with `...` and what precedes it is a prefix of the text |
| Helpers.StoredValue | client/src/utils/helpers.js:30-38 | null for a missing, empty or unparsable entry, else the parsed value |
| Helpers.Get | client/src/utils/helpers.js:30-38 | returns the stored value and writes nothing |
| Helpers.Set | client/src/utils/helpers.js:40-46 | only the key changes, to the value's JSON text |
| Helpers.Remove | client/src/utils/helpers.js:48-54 | only the key is removed |
| Helpers.GetAfterSet | client/src/utils/helpers.js:30-46 | get after set returns the value, given a JSON round trip, and other keys read as before |
| Helpers.GetAfterRemove | client/src/utils/helpers.js:30-54 | get after remove returns null, and other keys read as before |
| UseCounter.Counter.constructor | client/src/hooks/useCounter.js:6-7 | the count starts at the initial value |
| UseCounter.Counter.Default | client/src/hooks/useCounter.js:6-7 | without an argument the initial value is 0 |
| UseCounter.Counter.Increment | client/src/hooks/useCounter.js:9 | adds exactly 1 |
| UseCounter.Counter.Decrement | client/src/hooks/useCounter.js:10 | subtracts exactly 1 |
| UseCounter.Counter.Reset | client/src/hooks/useCounter.js:11 | restores the initial value |
| UseCounter.IncrementThenDecrement | client/src/hooks/useCounter.js:9-10 | increment then decrement returns the previous count |
| UseCounter.IncrementsThenReset | client/src/hooks/useCounter.js:9-11 | n increments raise the count by exactly n, and a reset after them gives the initial value |
| UseCounter.DecrementBelowZero | client/src/hooks/useCounter.js:10 | decrement goes below zero: there is no lower bound |
| JwtGuard.TokenOf | server/apps/api/src/guard/jwt.guard.ts:19-26 | a token is never empty and has no space; a missing or empty header gives none |
| JwtGuard.TokenIsSecondWord | server/apps/api/src/guard/jwt.guard.ts:23 | for any first word without spaces, `<word> <token>` followed by nothing or by a space gives the token: the scheme is not checked |
| JwtGuard.NoTokenWithoutSecondWord | server/apps/api/src/guard/jwt.guard.ts:23-26 | a single word, such as `Bearer`, and a word followed by two spaces, such as `Bearer  x`, give no token |
| JwtGuard.ReadsClientBearer | server/apps/api/src/guard/jwt.guard.ts:23-26 | the header the client sends gives back its token |
| JwtGuard.Request.constructor | server/apps/api/src/guard/jwt.guard.ts:16-17 | a request has its headers and no user yet |
| JwtGuard.ValidateRequest | server/apps/api/src/guard/jwt.guard.ts:15-35 | true iff a token is present and verifies; then `request.user` is the payload; otherwise the user is untouched |
| UserService.UserAlreadyExistsMessage | server/libs/core/src/user/user.exception.ts:1-6 | the conflict message is the fixed prefix followed by the e-mail |
| UserService.FindEmail | server/libs/core/src/user/user.repository.ts:31-39 | found iff some row has the e-mail, and then it is a row with that e-mail |
| UserService.UserTable.FindBy | server/libs/core/src/user/user.repository.ts:31-39 | found iff the e-mail exists, and then it is a stored row with that e-mail |
| UserService.UserTable.Save | server/libs/core/src/user/user.repository.ts:10-18 | appends exactly one row with the next id and the given fields, keeping ids and e-mails unique |
| UserService.SignUp | server/libs/core/src/user/user.service.ts:31-42 | an existing e-mail fails with nothing saved; otherwise name, e-mail and the bcrypt hash of the password are saved and returned |
| UserService.VerifyPassword | server/libs/core/src/user/user.service.ts:54-66 | not-found iff the e-mail is unknown; invalid-password iff it is known and the hash check fails; a success is the stored user, whose hash matches |
| UserService.SignUpThenVerify | server/libs/core/src/user/user.service.ts:31-66 | with a sound bcrypt, a fresh sign-up succeeds and verifying its password returns exactly the signed-up user |
| UserService.VerifiedUserIsStored | server/libs/core/src/user/user.service.ts:54-66 | a verified user is a row of the table with that e-mail |
| LegacyUserService.SignUp | server/src/user/user.service.ts:17-32 | an existing e-mail fails with nothing saved; otherwise exactly the given name, e-mail and password field are stored verbatim and returned |
| LegacyUserService.SignUpTwice | server/src/user/user.service.ts:22-31 | the first sign-up stores the password field verbatim, the second with the same e-mail fails, and only one row is added |
| VaultRepository.NormalizeEncryption | server/libs/core/src/vault/vault.repository.ts:186-193 | a boolean or number is the format error and an unparsable string the parse error; null, and a string that parses to null, give null; an object is itself and a string its parsed value |
| VaultRepository.StoredEncryption | server/libs/core/src/vault/vault.repository.ts:150-152 | a missing encryption is stored as JSON null, a present (truthy) one as it is |
| VaultRepository.EncryptionRoundTrip | server/libs/core/src/vault/vault.repository.ts:150-193 | normalising what was stored gives back the item's encryption object, or null when it had none |
| VaultRepository.MapItem | server/libs/core/src/vault/vault.repository.ts:173-182 | an item reads back iff its encryption normalises, with its own fields and the normalised encryption |
| VaultRepository.MapItems | server/libs/core/src/vault/vault.repository.ts:166-183 | success iff every item reads back, and then the items read back in order |
| VaultRepository.ToVault | server/libs/core/src/vault/vault.repository.ts:166-183 | a vault reads back iff its items do, with its own fields and those items |
| VaultRepository.MapItemsAppend | server/libs/core/src/vault/vault.repository.ts:139-184 | mapping a list with one item appended appends that item's mapping |
| VaultRepository.AddedItemReadsBack | server/libs/core/src/vault/vault.repository.ts:139-184 | the vault read back after `addItem` has all previous items plus the new one, with its encryption as given |
| VaultRepository.FindFirst | server/libs/core/src/vault/vault.repository.ts:54-65 | none iff no row matches; otherwise the first matching row (so `existsBy` holds iff some row matches) |
| VaultRepository.Matching | server/libs/core/src/vault/vault.repository.ts:87-97 | exactly the matching rows |
| VaultRepository.Kept | server/libs/core/src/vault/vault.repository.ts:129-137 | exactly the rows the filter does not match |
| VaultRepository.KeptNoMatch | server/libs/core/src/vault/vault.repository.ts:129-137 | a filter that matches nothing deletes nothing |
| VaultRepository.MatchingKeptSplit | server/libs/core/src/vault/vault.repository.ts:129-137 | matched and kept rows together are the whole table |
| VaultRepository.KeptPreservesValid | server/libs/core/src/vault/vault.repository.ts:129-137 | deleting rows keeps ids unique and below the counter |
| VaultRepository.KeptSubsequence | server/libs/core/src/vault/vault.repository.ts:129-137 | the rows kept still have distinct ids |
| VaultRepository.MapVaults | server/libs/core/src/vault/vault.repository.ts:99-116 | every vault read back in order; the mapping succeeds iff every row reads back, so one failure fails all |
| VaultRepository.FindFirstById | server/libs/core/src/vault/vault.repository.ts:54-65 | with unique ids, the lookup by id gives the row at the id's position, or nothing when no row has the id |
| VaultRepository.VaultTable.Create | server/libs/core/src/vault/vault.repository.ts:11-41 | one row is appended with a fresh id and no items, and returned |
| VaultRepository.VaultTable.FindBy | server/libs/core/src/vault/vault.repository.ts:54-85 | null iff no row matches; otherwise the first matching row read back; a failure iff that row does not read back |
| VaultRepository.VaultTable.FindAllBy | server/libs/core/src/vault/vault.repository.ts:87-117 | the k-th result is the k-th matching row read back, so the results are exactly the matching rows in table order; success iff every matching row reads back |
| VaultRepository.VaultTable.Delete | server/libs/core/src/vault/vault.repository.ts:119-127 | the row with the id is removed; a missing id is the not-found error and changes nothing |
| VaultRepository.VaultTable.DeleteAllBy | server/libs/core/src/vault/vault.repository.ts:129-137 | every matching row is removed, the others kept in order |
| VaultRepository.VaultTable.AddItem | server/libs/core/src/vault/vault.repository.ts:139-184 | the item is appended to that vault only, and the vault is read back; a missing vault is not found |
| ServerVaultService.VaultAlreadyExistsMessage | server/libs/core/src/vault/vault.exception.ts:1-6 | the conflict message is the fixed prefix followed by the vault name |
| ServerVaultService.DescriptionOf | server/libs/core/src/vault/vault.service.ts:43 | a missing description is stored as the empty string, a given one as it is |
| ServerVaultService.CreateVault | server/libs/core/src/vault/vault.service.ts:27-47 | a name the user already owns fails and creates nothing; otherwise name, user and `description or ''` are stored and the table grows by one |
| ServerVaultService.CreateKeepsNamesUnique | server/libs/core/src/vault/vault.service.ts:32-46 | after a create, a user still owns each name at most once |
| ServerVaultService.GetVaults | server/libs/core/src/vault/vault.service.ts:55-57 | the k-th result is the k-th of that user's vaults read back, so each of them appears once, in table order, owned by that user; success iff every one reads back |
| ServerVaultService.DeleteVault | server/libs/core/src/vault/vault.service.ts:67-74 | a vault matching both id and user is deleted by id; another user's vault or a missing id succeeds with nothing deleted; a failure happens exactly when the owned vault found does not read back, and changes nothing |
| ServerVaultService.OwnedLookup | server/libs/core/src/vault/vault.service.ts:67-74 | the lookup finds nothing iff no vault has that id or the vault with it belongs to another user |
| ServerVaultService.DeleteByIdRemovesOnlyIt | server/libs/core/src/vault/vault.service.ts:73 | the rows kept are exactly the rows with another id |
| ServerVaultService.DeleteAllVaults | server/libs/core/src/vault/vault.service.ts:82-89 | no delete when the user has no vaults; a failure happens exactly when one of the user's vaults does not read back, and changes nothing; otherwise exactly that user's vaults go |
| ServerVaultService.AddVaultItem | server/libs/core/src/vault/vault.service.ts:100-112 | an unknown vault id is not-found and changes nothing; otherwise the item is appended to that vault with only type, title, blob and encryption, whoever owns it, and the vault is read back |

## Left out

- Argon2id, AES-GCM and UTF-8 are not computed. They are function values, and only the AEAD round trip is assumed where a lemma needs it.
- The randomness of `crypto.getRandomValues` and `Math.random` is an input stream. Freshness and uniqueness of salts, IVs and keys are not stated.
- `JSON.parse` and `JSON.stringify` are abstract functions. JSON numbers are integers. `JSON.stringify` is taken to be total.
- The status-to-message mapping in the vault service's error handlers is not modelled. A failed request is one error message.
- The `fetch` engine, cookies, CORS and `credentials: 'include'` are not modelled. `Network` is a list of answers handed out in order.
- Header values given as a `Headers` object or an array of pairs are not modelled. Headers are a string map.
- The `TypeError` the engine throws is one placeholder message, `JsStrings.TypeErrorMessage`, not the engine's own text. For example, register, login and refresh answers without `accessToken` would show "Cannot read properties of undefined (reading 'value')" in the login page.
- Values thrown that are not `Error` instances are not modelled. So the login page's fixed default message (`UnknownFailureMessage`) is never shown.
- A `NaN` iteration count is not modelled. Numbers are integers.
- On an envelope whose fields have the wrong JSON type, the model fails the item at once, with the `TypeError` placeholder message. The source handles these differently: it may fail later or with another message, or it may decrypt a coerced value. A missing or non-object `metadata` raises a `TypeError`. A non-string `algorithm` or `kdf` throws the unsupported-algorithm or unsupported-KDF error. A non-string salt, iv or data is converted to a string by `atob` and goes on to the decoder and AES-GCM. An `iterations` field that is present but not a number, `null` included (the destructuring default replaces only `undefined`), is treated the same way; an absent one reads as 3.
- JavaScript strings are UTF-16: lengths and indices count code units. The model counts characters.
- `toUpperCase` is modelled on ASCII letters only.
- The WHATWG URL parser is a parameter that returns the hostname of a URL it accepts.
- An access token stored as a non-string, and the `localStorage` quota exception of `setCachedUser`, are not modelled.
- Helpers.Set: the quota exception `localStorage.setItem` can throw is not modelled; `Storage` has no capacity, so every write succeeds.
- The clock is read once per call. The model takes one `now` per operation.
- `getCachedUser` runs during render in the pages. Its side effects there are not modelled; the pages take the cached user id as a constructor argument.
- `saveUserSecretKey`, `hasUserSecretKey`, `parseQRData`, `generateQRData`, `generateAndSaveUserSecretKey` and `downloadPDFBackup` are not defined in the files modelled. They are parameters or recorded calls, and a throwing save is not modelled.
- In the add-account form, an error set to `undefined` is modelled as removing that field's error.
- The form's checkbox branch of `handleInputChange` is not modelled, because the form has no checkbox field.
- Floating-point progress-bar widths are not modelled.
- The clipboard's `execCommand` fallback is one copy action. The copy-success and polling timers are left out.
- `notifyAuthChange` and the `useAuth` listeners are left out.
- The polling `useEffect` in `App.tsx` is left out; only the route and view decision is modelled.
- The router's case-insensitive matching and trailing-slash handling are left out. Paths are compared as exact strings.
- `debounce` and `formatDate` in the helpers are timers and locale formatting, and are left out.
- Prisma is an in-memory table. Timestamps, unique-constraint and write-time errors, row order beyond insertion order, and cascading deletes are left out.
- `VaultNotFoundError`, `UserNotFoundError` and `InvalidPasswordError` are not defined in the files modelled. They are error constructors of the model.
- bcrypt is a pair of functions. The salt randomness of its hash is not modelled.
- The legacy user service imports an exception file that is not part of this model. Its conflict error is the same error constructor.
- The Nest controllers, the modules and `main.ts` are wiring and I/O, and are left out.
- JWT signing and `verifyToken` are a verifier function.
- The counter hook's JavaScript numbers are unbounded integers. Floating-point precision far from zero is not modelled.
- `localStorage` is a `map<string, string>`. Its per-origin persistence and events across tabs are not modelled.
