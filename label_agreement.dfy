/**
 * The release label rule is enforced at three sites: the browser form
 * (client/src/components/upload.tsx), the standalone server's file filter
 * (src/http/index.js) and the uploader route's file filter
 * (src/http/routes/release-uploader.js). They share the label rule but not
 * the accepted MIME types nor the handling of an empty version name.
 */
module LabelAgreement {
  import opened Wrappers
  import opened HttpReplies
  import opened ReleaseLabel
  import ServerApp
  import ReleaseUploader
  import UploadForm

  /**
   * For a non-empty version name and a file of a given name and type: a
   * "application/zip" file passes all three sites exactly when the label
   * rule holds; an "application/x-zip-compressed" file passes the form and
   * the uploader on the same condition but is always refused by the
   * standalone server; any other type is refused everywhere.
   */
  lemma ThreeSitesAgree(versionName: string, fileName: string, mimetype: string)
    requires versionName != ""
    ensures var server := ServerApp.FileFilter(ServerApp.UploadedFile(fileName, mimetype), Some(versionName));
      var uploader := ReleaseUploader.UploaderFileFilter(ServerApp.UploadedFile(fileName, mimetype), Some(versionName));
      var form := UploadForm.SubmitCheck(Some(versionName), Some(UploadForm.SelectedFile(fileName, mimetype)));
      && (mimetype == ZipMime ==>
            && (server.Accept? <==> LabelMatches(versionName, fileName))
            && (uploader.Accept? <==> LabelMatches(versionName, fileName))
            && (form.None? <==> LabelMatches(versionName, fileName)))
      && (mimetype == ZipCompressedMime ==>
            && server == ServerApp.Reject(ServerApp.InvalidFileType)
            && (uploader.Accept? <==> LabelMatches(versionName, fileName))
            && (form.None? <==> LabelMatches(versionName, fileName)))
      && (mimetype != ZipMime && mimetype != ZipCompressedMime ==>
            && server.Reject? && uploader.Reject? && form.Some?)
  {
  }

  /**
   * An empty version name: the form and the uploader refuse it, while the
   * standalone server's filter lets any ten-character zip through.
   */
  lemma EmptyVersionNameDisagreement(fileName: string)
    requires |ReleaseFileName(fileName)| == LabelLength
    ensures ServerApp.FileFilter(ServerApp.UploadedFile(fileName, ZipMime), Some("")).Accept?
    ensures ReleaseUploader.UploaderFileFilter(ServerApp.UploadedFile(fileName, ZipMime), Some("")).Reject?
    ensures UploadForm.SubmitCheck(Some(""), Some(UploadForm.SelectedFile(fileName, ZipMime))) == Some(UploadForm.NoVersionError)
  {
    EmptyVersionNumberAcceptsAnyLabel("", fileName);
  }
}
