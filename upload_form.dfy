/**
 * The upload form of client/src/components/upload.tsx: the ordered checks of
 * onSubmit, the base URL it posts to, the state it sets around the request,
 * and the alert it shows for the outcome. The component's state variables
 * are the fields of the class Uploader.
 */
module UploadForm {
  import opened Wrappers
  import opened JsValues
  import opened JsStrings
  import opened HttpReplies
  import opened ReleaseLabel

  /** A file chosen in the form. */
  datatype SelectedFile = SelectedFile(name: string, fileType: string)

  const NoVersionError: string := "Please select a version"
  const BadFileError: string := "Invalid selection for release file. Please select a proper zip file"
  const MismatchError: string := "Selected version number and release zip does not match"
  const UploadFailedMessage: string := "Error while uploading release"

  predicate IsZipType(fileType: string)
  {
    fileType == ZipMime || fileType == ZipCompressedMime
  }

  /**
   * The checks of onSubmit in their order; the first that fails gives the
   * error shown, and only when none fails is a request sent.
   */
  function SubmitCheck(versionName: Option<string>, release: Option<SelectedFile>): (err: Option<string>)
    ensures err.None? <==>
      && Present(versionName)
      && release.Some? && IsZipType(release.value.fileType)
      && LabelMatches(versionName.value, release.value.name)
    ensures !Present(versionName) ==> err == Some(NoVersionError)
    ensures Present(versionName) && (release.None? || !IsZipType(release.value.fileType)) ==> err == Some(BadFileError)
    ensures (Present(versionName) && release.Some? && IsZipType(release.value.fileType)
             && !LabelMatches(versionName.value, release.value.name)) ==> err == Some(MismatchError)
  {
    if !Present(versionName) then Some(NoVersionError)
    else if release.None? || !IsZipType(release.value.fileType) then Some(BadFileError)
    else if !LabelMatches(versionName.value, release.value.name) then Some(MismatchError)
    else None
  }

  /** `href.split('/')`, `pop()`, `join('/')` */
  function BaseUrl(href: string): string
  {
    var parts := Split(href, '/');
    Join(parts[..|parts| - 1], '/')
  }

  /** The base URL is the page address with its last '/'-segment (and that '/') removed. */
  lemma BaseUrlDropsLastSegment(href: string)
    ensures '/' !in href ==> BaseUrl(href) == ""
    ensures '/' in href ==>
      href == BaseUrl(href) + ['/'] + LastPiece(href, '/') && '/' !in LastPiece(href, '/')
  {
    var parts := Split(href, '/');
    JoinSplit(href, '/');
    if |parts| >= 2 {
      JoinLast(parts, '/');
      assert href[|BaseUrl(href)|] == '/';
    } else {
      assert href == parts[0];
    }
  }

  /** The request onSubmit sends. */
  datatype SentRequest = SentRequest(
    baseURL: string,
    url: string,
    authorization: string,
    versionName: string,
    release: SelectedFile)

  /** `Basic ${authToken}`: a missing stored token prints as "null". */
  function Authorization(storedToken: Option<string>): string
  {
    "Basic " + (if storedToken.Some? then storedToken.value else "null")
  }

  /** The server's answer: the `message` and `error` fields of its JSON body. */
  datatype ResponseData = ResponseData(message: Option<string>, error: Option<string>)

  /** How the request ended: a status with its body, or no answer (network failure). */
  datatype UploadOutcome = Responded(status: int, data: ResponseData) | NoAnswer

  datatype Alert = Alert(isSuccessful: bool, message: Option<string>)

  /** The alert for a response that reached the component: success iff the status is within 200..303. */
  function ResponseAlert(status: int, data: ResponseData): (a: Alert)
    ensures a.isSuccessful <==> 200 <= status <= 303
    ensures a.message == (if a.isSuccessful then data.message else data.error)
  {
    var isSuccessful := status >= 200 && status <= 303;
    Alert(isSuccessful, if isSuccessful then data.message else data.error)
  }

  /**
   * The request is sent without a validateStatus, so axios's default applies:
   * it rejects every status outside 200..299, and the catch shows the generic
   * failure.
   */
  predicate AxiosDefaultAccepts(status: int)
  {
    200 <= status < 300
  }

  function FinalAlert(outcome: UploadOutcome): Alert
  {
    if outcome.Responded? && AxiosDefaultAccepts(outcome.status) then ResponseAlert(outcome.status, outcome.data)
    else Alert(false, Some(UploadFailedMessage))
  }

  /**
   * A failed upload always shows the generic message: a response outside
   * 200..299 never reaches the component, so the server's `error` text is
   * never displayed and every alert built from a response is a success.
   */
  lemma FailedUploadShowsGenericMessage(outcome: UploadOutcome)
    ensures !FinalAlert(outcome).isSuccessful ==> FinalAlert(outcome).message == Some(UploadFailedMessage)
    ensures outcome.Responded? && AxiosDefaultAccepts(outcome.status) ==>
      FinalAlert(outcome) == Alert(true, outcome.data.message)
  {
  }

  class Uploader {
    var error: string
    var isUploading: bool
    var uploadProgress: int
    var showAlert: bool
    var alert: Alert

    /** The initial `useState` values. */
    constructor ()
      ensures error == "" && !isUploading && uploadProgress == 0
      ensures !showAlert && alert == Alert(false, Some(""))
    {
      error := "";
      isUploading := false;
      uploadProgress := 0;
      showAlert := false;
      alert := Alert(false, Some(""));
    }

    /** Before sending: clear the error, set the uploading flag, reset the progress. */
    method BeginUpload()
      modifies this
      ensures error == "" && isUploading && uploadProgress == 0
      ensures showAlert == old(showAlert) && alert == old(alert)
    {
      error := "";
      isUploading := true;
      uploadProgress := 0;
    }

    /** After the request: show the alert for the outcome; uploading ends on both paths. */
    method FinishUpload(outcome: UploadOutcome)
      modifies this
      ensures showAlert && alert == FinalAlert(outcome) && !isUploading
      ensures error == old(error) && uploadProgress == old(uploadProgress)
    {
      if outcome.Responded? && AxiosDefaultAccepts(outcome.status) {
        var status, data := outcome.status, outcome.data;
        var isSuccessful := status >= 200 && status <= 303;
        showAlert := true;
        alert := Alert(isSuccessful, if isSuccessful then data.message else data.error);
        isUploading := false;
      } else {
        showAlert := true;
        alert := Alert(false, Some(UploadFailedMessage));
        isUploading := false;
      }
    }

    /**
     * onSubmit: a failed check only sets its error, and nothing is sent;
     * otherwise the request goes to `BaseUrl(href) + "/createRelease"` with the
     * stored token, and the outcome is shown.
     */
    method OnSubmit(versionName: Option<string>, release: Option<SelectedFile>, href: string,
                    storedToken: Option<string>, outcome: UploadOutcome)
      returns (sent: Option<SentRequest>)
      modifies this
      ensures sent.None? <==> SubmitCheck(versionName, release).Some?
      ensures sent.None? ==>
        && error == SubmitCheck(versionName, release).value
        && isUploading == old(isUploading) && uploadProgress == old(uploadProgress)
        && showAlert == old(showAlert) && alert == old(alert)
      ensures sent.Some? ==>
        && sent.value == SentRequest(BaseUrl(href), "/createRelease", Authorization(storedToken),
                                     versionName.value, release.value)
        && error == "" && uploadProgress == 0
        && !isUploading && showAlert && alert == FinalAlert(outcome)
    {
      var check := SubmitCheck(versionName, release);
      if check.Some? {
        error := check.value;
        return None;
      }
      var baseUrl := BaseUrl(href);
      var authToken := Authorization(storedToken);
      BeginUpload();
      sent := Some(SentRequest(baseUrl, "/createRelease", authToken, versionName.value, release.value));
      FinishUpload(outcome);
    }
  }
}
