/**
 * The release-uploader router of src/http/routes/release-uploader.js: its
 * file filter, the index page rule, the allow-list check of `_verifyUser`
 * and the gating of POST /createRelease. The project-version filter of this
 * file is ProjectVersions.FetchProjectMeta.
 *
 * As written, `allowedUsers` is imported from ../utils, which does not
 * export it, so `allowedUsers.includes` throws for every verified user; the
 * model takes the allow-list as a parameter.
 */
module ReleaseUploader {
  import opened Wrappers
  import opened JsValues
  import opened JsStrings
  import opened HttpReplies
  import opened ReleaseLabel
  import opened ServerApp

  const VersionNameUnavailable: string := "Version name unavailable"

  /**
   * The multer fileFilter: both zip MIME types pass the type check, a falsy
   * versionName is refused before any name comparison, then the label rule
   * decides. No step here can throw, so its catch is never reached.
   */
  function UploaderFileFilter(file: UploadedFile, versionName: Option<string>): (d: FilterDecision)
    ensures d == Accept <==>
      && (file.mimetype == ZipMime || file.mimetype == ZipCompressedMime)
      && Present(versionName)
      && LabelMatches(versionName.value, file.originalName)
    ensures file.mimetype != ZipMime && file.mimetype != ZipCompressedMime ==> d == Reject(InvalidFileType)
    ensures (file.mimetype == ZipMime || file.mimetype == ZipCompressedMime) && !Present(versionName) ==>
      d == Reject(VersionNameUnavailable)
    ensures ((file.mimetype == ZipMime || file.mimetype == ZipCompressedMime) && Present(versionName)
             && !LabelMatches(versionName.value, file.originalName)) ==> d == Reject(InvalidFileName)
    ensures d.Reject? ==> d.message != CannotAccept
  {
    if file.mimetype != ZipMime && file.mimetype != ZipCompressedMime then Reject(InvalidFileType)
    else if !Present(versionName) then Reject(VersionNameUnavailable)
    else if !LabelMatches(versionName.value, file.originalName) then Reject(InvalidFileName)
    else Accept
  }

  // ---------------------------------------------------------------------------
  // The index page

  /** What the file system holds at the client's index.html. */
  datatype IndexFile = Missing | Unreadable | Contents(text: string)

  const BasePathPlaceholder: string := "/[BASE_PATH]"

  /**
   * GET / of the router: only URLs ending in "index.html" or
   * "/release-uploader/" are served, with every "/[BASE_PATH]" replaced by
   * the configured base path; anything else falls through to `next()`.
   * A missing file sets status 404 and a failed read 501, and neither sends
   * anything.
   */
  function IndexPage(originalUrl: string, basePath: string, index: IndexFile): (r: Reply)
    ensures r == Next <==> !EndsWith(originalUrl, "index.html") && !EndsWith(originalUrl, "/release-uploader/")
    ensures r.Send? <==> r != Next && index.Contents?
    ensures r.Send? ==> r == Send(200, Text(ReplaceAll(index.text, BasePathPlaceholder, basePath)))
    ensures r != Next && index.Missing? ==> r == StatusOnly(404)
    ensures r != Next && index.Unreadable? ==> r == StatusOnly(501)
  {
    if EndsWith(originalUrl, "index.html") || EndsWith(originalUrl, "/release-uploader/") then
      match index
      case Missing => StatusOnly(404)
      case Unreadable => StatusOnly(501)
      case Contents(text) => Send(200, Text(ReplaceAll(text, BasePathPlaceholder, basePath)))
    else
      Next
  }

  /** A page without the placeholder is sent exactly as stored. */
  lemma PageWithoutPlaceholderUnchanged(originalUrl: string, basePath: string, text: string)
    requires EndsWith(originalUrl, "index.html")
    requires forall i :: 0 <= i <= |text| ==> !OccursAt(text, BasePathPlaceholder, i)
    ensures IndexPage(originalUrl, basePath, Contents(text)) == Send(200, Text(text))
  {
    ReplaceAllWithoutOccurrence(text, BasePathPlaceholder, basePath);
  }

  // ---------------------------------------------------------------------------
  // The allow-list

  /** The `/myself` answer of the tracker. */
  datatype Myself = Myself(emailAddress: string, displayName: string, avatarUrl: string)

  /** How the `/myself` request ended: an HTTP status with its data, or no answer at all. */
  datatype MyselfReply = MyselfAnswer(status: int, data: Myself) | MyselfUnreachable

  datatype VerifiedUser = VerifiedUser(username: string, displayName: string, avatarUrl: string)

  /**
   * `_verifyUser`: the request rejects (throws) unless a status in 200..303
   * comes back; an answer whose emailAddress is not in the allow-list yields
   * `undefined`; an allowed user comes back with username = emailAddress.
   */
  function VerifyUser(reply: MyselfReply, allowedUsers: seq<string>): (r: Result<Option<VerifiedUser>, string>)
    ensures r.Success? <==> reply.MyselfAnswer? && AcceptedStatus(reply.status)
    ensures r.Success? ==> (r.value.Some? <==> reply.data.emailAddress in allowedUsers)
    ensures r.Success? && r.value.Some? ==>
      r.value.value == VerifiedUser(reply.data.emailAddress, reply.data.displayName, reply.data.avatarUrl)
  {
    match reply
    case MyselfUnreachable => Failure("request failed")
    case MyselfAnswer(status, data) =>
      if !AcceptedStatus(status) then Failure("request failed")
      else if data.emailAddress !in allowedUsers then Success(None)
      else Success(Some(VerifiedUser(data.emailAddress, data.displayName, data.avatarUrl)))
  }

  // ---------------------------------------------------------------------------
  // POST /createRelease

  /**
   * The handler: no Authorization header, or a user not on the allow-list,
   * answers 401 without running the upload; a failed verification request
   * answers 500; an upload-filter error answers 400 "Bad Request"; then the
   * presence checks; deployNewRelease runs last. Its rejection happens inside
   * the multer callback, outside the handler's try, so nothing is sent then.
   */
  function CreateRelease(authorization: Option<string>, myself: MyselfReply, allowedUsers: seq<string>,
                         form: UploadForm, deploy: DeployOutcome): (h: Handled)
    ensures !Present(authorization) ==> h == Handled(Send(401, ErrorMessage("Unauthorized")), false)
    ensures Present(authorization) && VerifyUser(myself, allowedUsers).Failure? ==>
      h == Handled(Send(500, ErrorMessage("Error while deploying version")), false)
    ensures Present(authorization) && VerifyUser(myself, allowedUsers) == Success(None) ==>
      h == Handled(Send(401, ErrorMessage("Unauthorized")), false)
    ensures h.deployCalled <==>
      && Present(authorization)
      && VerifyUser(myself, allowedUsers).Success? && VerifyUser(myself, allowedUsers).value.Some?
      && form.file.Some? && UploaderFileFilter(form.file.value, form.versionName) == Accept
    ensures h.reply == Send(400, ErrorMessage("Bad Request")) <==>
      && Present(authorization)
      && VerifyUser(myself, allowedUsers).Success? && VerifyUser(myself, allowedUsers).value.Some?
      && form.file.Some? && UploaderFileFilter(form.file.value, form.versionName).Reject?
    ensures (Present(authorization) && VerifyUser(myself, allowedUsers).Success?
             && VerifyUser(myself, allowedUsers).value.Some? && form.file.None?)
            ==> h == Handled(Send(500, ErrorMessage("File not available")), false)
    ensures h.deployCalled ==>
      h.reply == (if deploy == Deployed
                  then Send(200, Message("Successfully deployed version " + form.versionName.value))
                  else NoReply)
  {
    if !Present(authorization) then
      Handled(Send(401, ErrorMessage("Unauthorized")), false)
    else
      match VerifyUser(myself, allowedUsers)
      case Failure(_) => Handled(Send(500, ErrorMessage("Error while deploying version")), false)
      case Success(None) => Handled(Send(401, ErrorMessage("Unauthorized")), false)
      case Success(Some(_)) =>
        if form.file.Some? && UploaderFileFilter(form.file.value, form.versionName).Reject? then
          Handled(Send(400, ErrorMessage("Bad Request")), false)
        else if form.file.None? then
          Handled(Send(500, ErrorMessage("File not available")), false)
        else if !Present(form.versionName) then
          Handled(Send(500, ErrorMessage("Version name not available")), false)
        else if deploy == Deployed then
          Handled(Send(200, Message("Successfully deployed version " + form.versionName.value)), true)
        else
          Handled(NoReply, true)
  }

  /** An accepted file always arrives with a truthy versionName, so the route's own check never fires after it. */
  lemma AcceptedUploadHasVersionName(file: UploadedFile, versionName: Option<string>)
    requires UploaderFileFilter(file, versionName) == Accept
    ensures Present(versionName)
  {
  }
}
