/** The vault encryption service: a payload string is sealed with AES-GCM under a
    key that Argon2id derives from the user's secret key and a fresh salt; the
    result is an envelope of base64 texts with metadata naming the algorithm, the
    key-derivation function and its iteration count. Argon2id, AES-GCM, the UTF-8
    codec and the random source are not computed here: they are parameters. */
module CryptoService {
  import opened Wrappers
  import opened Base64
  import JsStrings

  const DefaultIterations: int := 3
  const DefaultMemorySize: int := 64 * 1024
  const DefaultParallelism: int := 1
  const IvLength: nat := 12
  const SaltLength: nat := 32
  /** Output length asked of Argon2id: a 256-bit AES key. */
  const KeyLength: nat := 32

  const AlgorithmTag: string := "AES-GCM"
  const KdfTag: string := "Argon2id"

  const KeyDerivationPrefix: string := "키 생성 실패: "
  const SealPrefix: string := "암호화 실패: "
  const OpenPrefix: string := "복호화 실패: "
  const EncryptPrefix: string := "암호화 처리 실패: "
  const DecryptPrefix: string := "복호화 처리 실패: "
  const UnsupportedAlgorithm: string := "지원되지 않는 암호화 알고리즘: "
  const UnsupportedKdf: string := "지원되지 않는 키 유도 함수: "

  datatype EncryptionMetadata = EncryptionMetadata(
    algorithm: string, iv: string, salt: string, kdf: string, iterations: int)

  datatype EncryptedData = EncryptedData(data: string, metadata: EncryptionMetadata)

  /** `EncryptionOptions`; `None` is a property left undefined. */
  datatype EncryptionOptions = EncryptionOptions(
    iterations: Option<int>, memorySize: Option<int>, parallelism: Option<int>)

  const NoOptions: EncryptionOptions := EncryptionOptions(None, None, None)

  /** The `{t, m, p, dkLen}` argument of `argon2id`. */
  datatype KdfParams = KdfParams(t: int, m: int, p: int, dkLen: int)

  /** The foreign computations. Failures carry the thrown error's message. */
  datatype Primitives = Primitives(
    utf8Encode: string -> seq<byte>,
    utf8Decode: seq<byte> -> string,
    argon2id: (seq<byte>, seq<byte>, KdfParams) -> Result<seq<byte>, string>,
    aesGcmEncrypt: (seq<byte>, seq<byte>, seq<byte>) -> Result<seq<byte>, string>,
    aesGcmDecrypt: (seq<byte>, seq<byte>, seq<byte>) -> Result<seq<byte>, string>)

  /** The AEAD correctness assumption (key, IV, plaintext): what AES-GCM sealed,
      it opens again under the same key and IV. */
  ghost predicate AeadCorrect(p: Primitives) {
    forall k, iv, m :: p.aesGcmEncrypt(k, iv, m).Success? ==>
      p.aesGcmDecrypt(k, iv, p.aesGcmEncrypt(k, iv, m).value) == Success(m)
  }

  /** The random source behind `crypto.getRandomValues`: the salt takes the first
      32 bytes it yields and the IV the next 12. */
  type Entropy = nat -> byte

  function GenerateSalt(entropy: Entropy): (salt: seq<byte>)
    ensures |salt| == SaltLength
    ensures forall i :: 0 <= i < SaltLength ==> salt[i] == entropy(i)
  {
    seq(SaltLength, i requires 0 <= i < SaltLength => entropy(i))
  }

  function GenerateIV(entropy: Entropy): (iv: seq<byte>)
    ensures |iv| == IvLength
    ensures forall i :: 0 <= i < IvLength ==> iv[i] == entropy(SaltLength + i)
  {
    seq(IvLength, i requires 0 <= i < IvLength => entropy(SaltLength + i))
  }

  /** The parameters `deriveKey` passes on: a property is defaulted only when undefined. */
  function KdfParamsOf(options: EncryptionOptions): (params: KdfParams)
    ensures params.t == (if options.iterations.Some? then options.iterations.value else DefaultIterations)
    ensures params.m == (if options.memorySize.Some? then options.memorySize.value else DefaultMemorySize)
    ensures params.p == (if options.parallelism.Some? then options.parallelism.value else DefaultParallelism)
    ensures params.dkLen == KeyLength
  {
    KdfParams(options.iterations.GetOr(DefaultIterations), options.memorySize.GetOr(DefaultMemorySize),
              options.parallelism.GetOr(DefaultParallelism), KeyLength)
  }

  /** `options.iterations || 3`: an undefined or zero iteration count records the default. */
  function RecordedIterations(options: EncryptionOptions): (n: int)
    ensures n == DefaultIterations <==> options.iterations.None? || options.iterations.value in {0, DefaultIterations}
    ensures n != DefaultIterations ==> n == options.iterations.value
  {
    match options.iterations
    case Some(n) => if n != 0 then n else DefaultIterations
    case None => DefaultIterations
  }

  function DeriveKey(p: Primitives, password: string, salt: seq<byte>, options: EncryptionOptions): Result<seq<byte>, string> {
    match p.argon2id(p.utf8Encode(password), salt, KdfParamsOf(options))
    case Success(hash) => Success(hash)
    case Failure(e) => Failure(KeyDerivationPrefix + e)
  }

  function EncryptData(p: Primitives, data: string, key: seq<byte>, iv: seq<byte>): Result<seq<byte>, string> {
    match p.aesGcmEncrypt(key, iv, p.utf8Encode(data))
    case Success(c) => Success(c)
    case Failure(e) => Failure(SealPrefix + e)
  }

  function DecryptData(p: Primitives, encrypted: seq<byte>, key: seq<byte>, iv: seq<byte>): Result<string, string> {
    match p.aesGcmDecrypt(key, iv, encrypted)
    case Success(m) => Success(p.utf8Decode(m))
    case Failure(e) => Failure(OpenPrefix + e)
  }

  /** `encrypt`: a fresh salt and IV, a derived key, the sealed payload, and the
      envelope. Any failure becomes one error with the outer prefix, and no envelope. */
  function Encrypt(p: Primitives, data: string, secretKey: string, options: EncryptionOptions, entropy: Entropy)
    : (r: Result<EncryptedData, string>)
    ensures r.Success? ==> r.value.metadata.algorithm == AlgorithmTag && r.value.metadata.kdf == KdfTag
    ensures r.Success? ==> r.value.metadata.iterations == RecordedIterations(options)
    ensures r.Success? ==> Decode(r.value.metadata.salt) == Success(GenerateSalt(entropy))
    ensures r.Success? ==> Decode(r.value.metadata.iv) == Success(GenerateIV(entropy))
    ensures r.Success? <==>
      DeriveKey(p, secretKey, GenerateSalt(entropy), options).Success? &&
      EncryptData(p, data, DeriveKey(p, secretKey, GenerateSalt(entropy), options).value, GenerateIV(entropy)).Success?
    ensures r.Failure? ==> JsStrings.StartsWith(r.error, EncryptPrefix)
  {
    var salt := GenerateSalt(entropy);
    var iv := GenerateIV(entropy);
    DecodeEncode(salt);
    DecodeEncode(iv);
    match DeriveKey(p, secretKey, salt, options)
    case Failure(e) => Failure(EncryptPrefix + e)
    case Success(key) =>
      match EncryptData(p, data, key, iv)
      case Failure(e) => Failure(EncryptPrefix + e)
      case Success(encrypted) =>
        Success(EncryptedData(Encode(encrypted),
          EncryptionMetadata(AlgorithmTag, Encode(iv), Encode(salt), KdfTag, RecordedIterations(options))))
  }

  /** What `decrypt` derives with: the stored iteration count, memory and
      parallelism at their defaults. */
  function StoredOptions(metadata: EncryptionMetadata): EncryptionOptions {
    EncryptionOptions(Some(metadata.iterations), None, None)
  }

  /** `decrypt`: the metadata guards (algorithm first), the three base64 decodings
      (salt, IV, payload), key derivation with the stored parameters, and opening. */
  function Decrypt(p: Primitives, encryptedData: EncryptedData, secretKey: string): (r: Result<string, string>)
    ensures encryptedData.metadata.algorithm != AlgorithmTag ==>
      r == Failure(DecryptPrefix + UnsupportedAlgorithm + encryptedData.metadata.algorithm)
    ensures encryptedData.metadata.algorithm == AlgorithmTag && encryptedData.metadata.kdf != KdfTag ==>
      r == Failure(DecryptPrefix + UnsupportedKdf + encryptedData.metadata.kdf)
    ensures (Decode(encryptedData.metadata.salt).Failure? || Decode(encryptedData.metadata.iv).Failure?
             || Decode(encryptedData.data).Failure?) ==> r.Failure?
    ensures r.Failure? ==> JsStrings.StartsWith(r.error, DecryptPrefix)
  {
    var metadata := encryptedData.metadata;
    if metadata.algorithm != AlgorithmTag then
      Failure(DecryptPrefix + UnsupportedAlgorithm + metadata.algorithm)
    else if metadata.kdf != KdfTag then
      Failure(DecryptPrefix + UnsupportedKdf + metadata.kdf)
    else
      match Decode(metadata.salt)
      case Failure(e) => Failure(DecryptPrefix + e)
      case Success(salt) =>
        match Decode(metadata.iv)
        case Failure(e) => Failure(DecryptPrefix + e)
        case Success(iv) =>
          match Decode(encryptedData.data)
          case Failure(e) => Failure(DecryptPrefix + e)
          case Success(encrypted) =>
            match DeriveKey(p, secretKey, salt, StoredOptions(metadata))
            case Failure(e) => Failure(DecryptPrefix + e)
            case Success(key) =>
              match DecryptData(p, encrypted, key, iv)
              case Failure(e) => Failure(DecryptPrefix + e)
              case Success(plain) => Success(plain)
  }

  /** The options under which `decrypt` re-derives the very key `encrypt` used:
      the recorded iteration count is the one used only when it was not zero, and
      memory and parallelism are not recorded at all. */
  predicate RecoverableOptions(options: EncryptionOptions) {
    && options.iterations != Some(0)
    && (options.memorySize.None? || options.memorySize == Some(DefaultMemorySize))
    && (options.parallelism.None? || options.parallelism == Some(DefaultParallelism))
  }

  lemma StoredOptionsRederive(options: EncryptionOptions)
    requires RecoverableOptions(options)
    ensures KdfParamsOf(StoredOptions(EncryptionMetadata(AlgorithmTag, "", "", KdfTag, RecordedIterations(options))))
         == KdfParamsOf(options)
  {
  }

  /** Round trip: under the AEAD assumption and a UTF-8 codec that reads back the
      payload, decrypting an envelope `encrypt` produced gives the payload back. */
  lemma DecryptEncrypt(p: Primitives, data: string, secretKey: string, options: EncryptionOptions, entropy: Entropy)
    requires AeadCorrect(p)
    requires p.utf8Decode(p.utf8Encode(data)) == data
    requires RecoverableOptions(options)
    requires Encrypt(p, data, secretKey, options, entropy).Success?
    ensures Decrypt(p, Encrypt(p, data, secretKey, options, entropy).value, secretKey) == Success(data)
  {
    var env := Encrypt(p, data, secretKey, options, entropy).value;
    var salt := GenerateSalt(entropy);
    var iv := GenerateIV(entropy);
    var key := DeriveKey(p, secretKey, salt, options).value;
    var sealed := EncryptData(p, data, key, iv).value;
    DecodeEncode(sealed);
    StoredOptionsRederive(options);
    assert KdfParamsOf(StoredOptions(env.metadata)) == KdfParamsOf(options);
    assert DeriveKey(p, secretKey, salt, StoredOptions(env.metadata)) == Success(key);
    assert p.aesGcmDecrypt(key, iv, sealed) == Success(p.utf8Encode(data));
  }

  /** With an iteration count of zero the envelope records 3 while the key was
      derived with 0, so `decrypt` derives with other parameters than `encrypt` did. */
  lemma ZeroIterationsRecordsDefault(options: EncryptionOptions)
    requires options.iterations == Some(0)
    ensures KdfParamsOf(options).t == 0
    ensures RecordedIterations(options) == DefaultIterations
  {
  }

  /** `decrypt` consults Argon2id only at the envelope's stored parameters: two sets
      of primitives that agree there (and on everything else) decrypt alike. */
  lemma DecryptUsesStoredParameters(p: Primitives, q: Primitives, encryptedData: EncryptedData, secretKey: string)
    requires forall s :: p.utf8Encode(s) == q.utf8Encode(s)
    requires forall b :: p.utf8Decode(b) == q.utf8Decode(b)
    requires forall k, iv, c :: p.aesGcmDecrypt(k, iv, c) == q.aesGcmDecrypt(k, iv, c)
    requires forall pw, salt :: p.argon2id(pw, salt, KdfParamsOf(StoredOptions(encryptedData.metadata)))
                             == q.argon2id(pw, salt, KdfParamsOf(StoredOptions(encryptedData.metadata)))
    ensures Decrypt(p, encryptedData, secretKey) == Decrypt(q, encryptedData, secretKey)
  {
  }

  // ---------------------------------------------------------------------------
  // Password strength

  const TooShort: string := "비밀번호는 최소 8자 이상이어야 합니다"
  const NoUppercase: string := "대문자를 포함해야 합니다"
  const NoLowercase: string := "소문자를 포함해야 합니다"
  const NoDigit: string := "숫자를 포함해야 합니다"
  const NoSpecial: string := "특수문자를 포함해야 합니다"

  /** The five messages in the order the rules are checked. */
  const Rules: seq<string> := [TooShort, NoUppercase, NoLowercase, NoDigit, NoSpecial]

  predicate IsSpecial(c: char) {
    c in "!@#$%^&*(),.?\":{}|<>"
  }

  predicate HasUpper(s: string) { exists k | 0 <= k < |s| :: 'A' <= s[k] <= 'Z' }
  predicate HasLower(s: string) { exists k | 0 <= k < |s| :: 'a' <= s[k] <= 'z' }
  predicate HasDigit(s: string) { exists k | 0 <= k < |s| :: '0' <= s[k] <= '9' }
  predicate HasSpecial(s: string) { exists k | 0 <= k < |s| :: IsSpecial(s[k]) }

  /** Whether rule `i` (an index into `Rules`) rejects the password. */
  predicate Violates(password: string, i: int)
    requires 0 <= i < |Rules|
  {
    if i == 0 then |password| < 8
    else if i == 1 then !HasUpper(password)
    else if i == 2 then !HasLower(password)
    else if i == 3 then !HasDigit(password)
    else !HasSpecial(password)
  }

  /** The messages of the rules before index `n` that the password breaks, in rule
      order: what `errors` holds once the first `n` checks have run. */
  function PasswordErrors(password: string, n: nat): seq<string>
    requires n <= |Rules|
  {
    if n == 0 then []
    else PasswordErrors(password, n - 1) + (if Violates(password, n - 1) then [Rules[n - 1]] else [])
  }

  /** Position of a message in `Rules`, -1 for any other string. */
  function RuleIndex(m: string): (i: int)
    ensures -1 <= i < |Rules|
  {
    if m == TooShort then 0
    else if m == NoUppercase then 1
    else if m == NoLowercase then 2
    else if m == NoDigit then 3
    else if m == NoSpecial then 4
    else -1
  }

  lemma RuleIndexOfRule(i: int)
    requires 0 <= i < |Rules|
    ensures RuleIndex(Rules[i]) == i
  {
    assert TooShort[0] != NoUppercase[0] && TooShort[0] != NoLowercase[0];
    assert TooShort[0] != NoDigit[0] && TooShort[0] != NoSpecial[0];
    assert NoUppercase[0] != NoLowercase[0] && NoUppercase[0] != NoDigit[0] && NoUppercase[0] != NoSpecial[0];
    assert NoLowercase[0] != NoDigit[0] && NoLowercase[0] != NoSpecial[0];
    assert NoDigit[0] != NoSpecial[0];
  }

  /** The error list holds the message of each broken rule before `n`, exactly
      once, in rule order, and nothing else. */
  lemma PasswordErrorsFacts(password: string, n: nat)
    requires n <= |Rules|
    ensures |PasswordErrors(password, n)| <= n
    ensures forall k :: 0 <= k < |PasswordErrors(password, n)| ==>
      RuleIndex(PasswordErrors(password, n)[k]) < n &&
      0 <= RuleIndex(PasswordErrors(password, n)[k]) &&
      Violates(password, RuleIndex(PasswordErrors(password, n)[k]))
    ensures forall k, l :: 0 <= k < l < |PasswordErrors(password, n)| ==>
      RuleIndex(PasswordErrors(password, n)[k]) < RuleIndex(PasswordErrors(password, n)[l])
    ensures forall i :: 0 <= i < n ==> (Rules[i] in PasswordErrors(password, n) <==> Violates(password, i))
  {
    PasswordErrorsBroken(password, n);
    PasswordErrorsOrdered(password, n);
    PasswordErrorsComplete(password, n);
  }

  /** Every message in the list is that of a broken rule before `n`. */
  lemma {:induction false} PasswordErrorsBroken(password: string, n: nat)
    requires n <= |Rules|
    ensures |PasswordErrors(password, n)| <= n
    ensures forall k :: 0 <= k < |PasswordErrors(password, n)| ==>
      0 <= RuleIndex(PasswordErrors(password, n)[k]) < n &&
      Violates(password, RuleIndex(PasswordErrors(password, n)[k]))
  {
    if n > 0 {
      PasswordErrorsBroken(password, n - 1);
      RuleIndexOfRule(n - 1);
      var before := PasswordErrors(password, n - 1);
      var errors := PasswordErrors(password, n);
      forall k | 0 <= k < |errors|
        ensures 0 <= RuleIndex(errors[k]) < n && Violates(password, RuleIndex(errors[k]))
      {
        if k < |before| {
          assert errors[k] == before[k];
        } else {
          assert errors[k] == Rules[n - 1];
        }
      }
    }
  }

  /** The messages appear in rule order, each at most once. */
  lemma {:induction false} PasswordErrorsOrdered(password: string, n: nat)
    requires n <= |Rules|
    ensures forall k, l :: 0 <= k < l < |PasswordErrors(password, n)| ==>
      RuleIndex(PasswordErrors(password, n)[k]) < RuleIndex(PasswordErrors(password, n)[l])
  {
    if n > 0 {
      PasswordErrorsOrdered(password, n - 1);
      PasswordErrorsBroken(password, n - 1);
      RuleIndexOfRule(n - 1);
      var before := PasswordErrors(password, n - 1);
      var errors := PasswordErrors(password, n);
      forall k, l | 0 <= k < l < |errors|
        ensures RuleIndex(errors[k]) < RuleIndex(errors[l])
      {
        assert errors[k] == before[k];
        if l < |before| {
          assert errors[l] == before[l];
        } else {
          assert errors[l] == Rules[n - 1];
        }
      }
    }
  }

  /** Every broken rule before `n` has its message in the list. */
  lemma {:induction false} PasswordErrorsComplete(password: string, n: nat)
    requires n <= |Rules|
    ensures forall i :: 0 <= i < n ==> (Rules[i] in PasswordErrors(password, n) <==> Violates(password, i))
  {
    if n > 0 {
      PasswordErrorsComplete(password, n - 1);
      PasswordErrorsBroken(password, n - 1);
      var before := PasswordErrors(password, n - 1);
      var errors := PasswordErrors(password, n);
      assert errors == before + (if Violates(password, n - 1) then [Rules[n - 1]] else []);
      forall i | 0 <= i < n
        ensures Rules[i] in errors <==> Violates(password, i)
      {
        RuleIndexOfRule(i);
        RuleIndexOfRule(n - 1);
        if i < n - 1 {
          assert Rules[i] != Rules[n - 1];
          if Rules[i] in before {
            var k :| 0 <= k < |before| && before[k] == Rules[i];
            assert RuleIndex(before[k]) == i;
          }
        }
      }
    }
  }

  datatype PasswordValidation = PasswordValidation(isValid: bool, errors: seq<string>)

  /** `validatePassword`: each rule the password breaks pushes its message, and the
      password is valid exactly when none was pushed. */
  method ValidatePassword(password: string) returns (r: PasswordValidation)
    ensures r.errors == PasswordErrors(password, |Rules|)
    ensures r.isValid <==> r.errors == []
  {
    var errors: seq<string> := [];
    if |password| < 8 {
      errors := errors + [TooShort];
    }
    assert errors == PasswordErrors(password, 1);
    if !HasUpper(password) {
      errors := errors + [NoUppercase];
    }
    assert errors == PasswordErrors(password, 2);
    if !HasLower(password) {
      errors := errors + [NoLowercase];
    }
    assert errors == PasswordErrors(password, 3);
    if !HasDigit(password) {
      errors := errors + [NoDigit];
    }
    assert errors == PasswordErrors(password, 4);
    if !HasSpecial(password) {
      errors := errors + [NoSpecial];
    }
    r := PasswordValidation(|errors| == 0, errors);
  }

  /** A password is valid exactly when it breaks none of the five rules. */
  lemma ValidExactlyWhenNoRuleBroken(password: string)
    ensures PasswordErrors(password, |Rules|) == [] <==> forall i :: 0 <= i < |Rules| ==> !Violates(password, i)
  {
    var errors := PasswordErrors(password, |Rules|);
    PasswordErrorsFacts(password, |Rules|);
    if errors != [] {
      assert Violates(password, RuleIndex(errors[0]));
    }
  }
}
