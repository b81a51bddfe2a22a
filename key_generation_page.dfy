/** The key-generation page: one click generates and saves a key for the signed-in
    user, builds its QR payload, offers a PDF backup when the user has an e-mail, and
    moves to the success step (`Done`). Key generation, the QR payload and the PDF backup are
    not part of this model: what they return is a parameter, and every backup
    attempt is recorded in `backups`. */
module KeyGenerationPage {
  import opened Wrappers

  const GenerationFailedMessage: string := "키 생성 중 오류가 발생했습니다."

  datatype Step = Generate | Done

  /** One call of `downloadPDFBackup(userId, email, key)`. */
  datatype BackupRequest = BackupRequest(userId: string, email: string, secretKey: string)

  class KeyGenerationPage {
    var loading: bool
    var step: Step
    var secretKey: string
    var qrData: string
    var error: Option<string>
    var navigations: seq<string>
    var backups: seq<BackupRequest>
    /** The cached user's id and e-mail read at render time. */
    const userId: Option<string>
    const email: Option<string>

    constructor (userId: Option<string>, email: Option<string>)
      ensures this.userId == userId && this.email == email
      ensures !loading && step == Generate && secretKey == "" && qrData == "" && error == None
      ensures navigations == [] && backups == []
    {
      this.userId := userId;
      this.email := email;
      loading := false;
      step := Generate;
      secretKey := "";
      qrData := "";
      error := None;
      navigations := [];
      backups := [];
    }

    /** `handleGenerateNewKey`. `generated` is what `generateAndSaveUserSecretKey`
        returns (`None` when it throws) and `qrFor` what `generateQRData` returns.
        A failing backup is swallowed, so it cannot stop the success step. */
    method GenerateNewKey(generated: Option<string>, qrFor: (string, string) -> Option<string>)
      modifies this
      ensures userId.None? || userId.value == "" ==>
        loading == old(loading) && step == old(step) && secretKey == old(secretKey) && qrData == old(qrData) &&
        error == old(error) && backups == old(backups)
      ensures userId.Some? && userId.value != "" ==> !loading
      ensures userId.Some? && userId.value != "" && generated.None? ==>
        error == Some(GenerationFailedMessage) && step == old(step) &&
        secretKey == old(secretKey) && qrData == old(qrData) && backups == old(backups)
      ensures userId.Some? && userId.value != "" && generated.Some? && qrFor(userId.value, generated.value).None? ==>
        error == Some(GenerationFailedMessage) && step == old(step) &&
        secretKey == generated.value && qrData == old(qrData) && backups == old(backups)
      ensures userId.Some? && userId.value != "" && generated.Some? && qrFor(userId.value, generated.value).Some? ==>
        step == Done && error == None && secretKey == generated.value &&
        qrData == qrFor(userId.value, generated.value).value &&
        backups == old(backups) + (if email.Some? && email.value != "" then [BackupRequest(userId.value, email.value, generated.value)] else [])
      ensures navigations == old(navigations)
    {
      if userId.None? || userId.value == "" {
        return;
      }
      loading := true;
      error := None;
      if generated.None? {
        error := Some(GenerationFailedMessage);
      } else {
        var newKey := generated.value;
        secretKey := newKey;
        var qrCodeData := qrFor(userId.value, newKey);
        if qrCodeData.None? {
          error := Some(GenerationFailedMessage);
        } else {
          qrData := qrCodeData.value;
          if email.Some? && email.value != "" {
            DownloadBackup(userId.value, email.value, newKey);
          }
          step := Done;
        }
      }
      loading := false;
    }

    /** `handleDownloadBackup`: the attempt is made and its failure ignored. */
    method DownloadBackup(userId: string, email: string, key: string)
      modifies this
      ensures backups == old(backups) + [BackupRequest(userId, email, key)]
      ensures loading == old(loading) && step == old(step) && secretKey == old(secretKey)
      ensures qrData == old(qrData) && error == old(error) && navigations == old(navigations)
    {
      backups := backups + [BackupRequest(userId, email, key)];
    }

    /** `handleContinue`. */
    method Continue()
      modifies this
      ensures navigations == old(navigations) + ["/"]
      ensures step == old(step) && secretKey == old(secretKey) && qrData == old(qrData)
      ensures error == old(error) && loading == old(loading) && backups == old(backups)
    {
      navigations := navigations + ["/"];
    }

    /** `handleBack`. */
    method Back()
      modifies this
      ensures navigations == old(navigations) + ["/key-setup"]
      ensures step == old(step) && secretKey == old(secretKey) && qrData == old(qrData)
      ensures error == old(error) && loading == old(loading) && backups == old(backups)
    {
      navigations := navigations + ["/key-setup"];
    }
  }

  /** Reaching the success step means the page shows the key just generated and the
      QR payload built from that same key and user id. */
  method SuccessShowsGeneratedKey(page: KeyGenerationPage, generated: Option<string>, qrFor: (string, string) -> Option<string>)
    requires page.step == Generate
    modifies page
    ensures page.step == Done ==>
      generated.Some? && page.userId.Some? && page.secretKey == generated.value &&
      Some(page.qrData) == qrFor(page.userId.value, page.secretKey) && page.error == None
  {
    page.GenerateNewKey(generated, qrFor);
  }
}
