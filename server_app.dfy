/**
 * The request handling of src/http/index.js that does not talk to the issue
 * tracker: the upload file filter, /latestVersion, /prevReleases and the
 * presence checks of /createRelease. The project-version filter of this file
 * is ProjectVersions.FetchProjectMeta.
 */
module ServerApp {
  import opened Wrappers
  import opened JsValues
  import opened HttpReplies
  import opened ReleaseLabel
  import MetadataStore

  /** A file part of a multipart request, as multer describes it. */
  datatype UploadedFile = UploadedFile(originalName: string, mimetype: string)

  /** The multipart request: its file part and its `versionName` field, if any. */
  datatype UploadForm = UploadForm(file: Option<UploadedFile>, versionName: Option<string>)

  datatype FilterDecision = Accept | Reject(message: string)

  const InvalidFileType: string := "Invalid file type"
  const InvalidFileName: string := "Invalid file name"
  const CannotAccept: string := "Cannot accept this file"

  /**
   * The multer fileFilter: only "application/zip" passes the type check; an
   * absent versionName makes `versionName.split` throw, which the catch turns
   * into "Cannot accept this file"; then the label rule decides.
   */
  function FileFilter(file: UploadedFile, versionName: Option<string>): (d: FilterDecision)
    ensures d == Accept <==>
      file.mimetype == ZipMime && versionName.Some? && LabelMatches(versionName.value, file.originalName)
    ensures file.mimetype != ZipMime ==> d == Reject(InvalidFileType)
    ensures file.mimetype == ZipMime && versionName.None? ==> d == Reject(CannotAccept)
    ensures file.mimetype == ZipMime && versionName.Some? && !LabelMatches(versionName.value, file.originalName) ==>
      d == Reject(InvalidFileName)
  {
    if file.mimetype != ZipMime then Reject(InvalidFileType)
    else if versionName.None? then Reject(CannotAccept)
    else if !LabelMatches(versionName.value, file.originalName) then Reject(InvalidFileName)
    else Accept
  }

  /** GET /latestVersion: the pointer when both app and installer are truthy, otherwise 404. */
  function LatestVersion(versionInfo: Document): (r: Reply)
    ensures r.Send?
    ensures r.status == 200 <==> Truthy(Field(versionInfo, "app")) && Truthy(Field(versionInfo, "installer"))
    ensures r.status == 200 ==> r.body == JsonDoc(versionInfo)
    ensures r.status != 200 ==> r == Send(404, Text("Build not found"))
  {
    if Truthy(JObj(versionInfo)) && Truthy(Field(versionInfo, "app")) && Truthy(Field(versionInfo, "installer")) then
      Send(200, JsonDoc(versionInfo))
    else
      Send(404, Text("Build not found"))
  }

  /** An unreadable pointer reads as `{}`, so /latestVersion answers 404. */
  lemma UnreadablePointerIsNotFound(store: MetadataStore.ReleaseStore)
    requires !(store.versionInfoFile in store.files && store.files[store.versionInfoFile].Parsed?)
    ensures LatestVersion(store.GetVersionInfo()) == Send(404, Text("Build not found"))
  {
  }

  /** After the pointer is updated with a truthy app and installer, /latestVersion serves it. */
  lemma UpdatedPointerIsServed(current: Document, app: Json, installer: Json)
    requires Truthy(app) && Truthy(installer)
    ensures var merged := MetadataStore.MergeVersionInfo(current, app, installer);
      LatestVersion(merged) == Send(200, JsonDoc(merged))
  {
  }

  /** GET /prevReleases: the ledger read fails open to an object, which is always truthy, so it is always served. */
  function PrevReleases(prevReleasesInfo: Document): (r: Reply)
    ensures r == Send(200, JsonDoc(prevReleasesInfo))
  {
    if Truthy(JObj(prevReleasesInfo)) then Send(200, JsonDoc(prevReleasesInfo))
    else Send(404, Text("Previous release notes not found"))
  }

  /**
   * POST /createRelease with the multer middleware in front of it. A file the
   * filter rejects is handed to the framework's error handler; otherwise a
   * missing file is reported before a missing versionName, and
   * deployNewRelease runs only when both are present.
   */
  function CreateRelease(form: UploadForm, deploy: DeployOutcome): (h: Handled)
    ensures h.deployCalled <==>
      form.file.Some? && FileFilter(form.file.value, form.versionName) == Accept && Present(form.versionName)
    ensures form.file.Some? && FileFilter(form.file.value, form.versionName).Reject? ==>
      h.reply == ToErrorHandler(FileFilter(form.file.value, form.versionName).message)
    ensures form.file.None? ==> h.reply == Send(500, ErrorMessage("File not available"))
    ensures form.file.Some? && FileFilter(form.file.value, form.versionName) == Accept && !Present(form.versionName) ==>
      h.reply == Send(500, ErrorMessage("Version name not available"))
    ensures h.deployCalled ==>
      h.reply == (if deploy == Deployed
                  then Send(200, Message("Successfully deployed version " + form.versionName.value))
                  else Send(500, ErrorMessage("Error while deploying version")))
  {
    if form.file.Some? && FileFilter(form.file.value, form.versionName).Reject? then
      Handled(ToErrorHandler(FileFilter(form.file.value, form.versionName).message), false)
    else if form.file.None? then
      Handled(Send(500, ErrorMessage("File not available")), false)
    else if !Present(form.versionName) then
      Handled(Send(500, ErrorMessage("Version name not available")), false)
    else if deploy == Deployed then
      Handled(Send(200, Message("Successfully deployed version " + form.versionName.value)), true)
    else
      Handled(Send(500, ErrorMessage("Error while deploying version")), true)
  }

  /**
   * An empty versionName passes this filter (its version number is empty, so
   * any 10-character label matches) and is caught only by the route's own
   * presence check.
   */
  lemma EmptyVersionNameReachesRoute(file: UploadedFile)
    requires file.mimetype == ZipMime && |ReleaseFileName(file.originalName)| == LabelLength
    ensures FileFilter(file, Some("")) == Accept
    ensures CreateRelease(UploadForm(Some(file), Some("")), Deployed) ==
      Handled(Send(500, ErrorMessage("Version name not available")), false)
  {
    var empty: string := "";
    JsStrings.LastPieceIsSuffix(empty, '_');
    JsStrings.FirstPieceIsPrefix(JsStrings.LastPiece(empty, '_'), '-');
    assert VersionNumber(empty) == "";
  }
}
