# Push-update server: a Dafny model of its release logic

The push-update server keeps two JSON documents about an application's
releases: a version pointer (`versionInfo.json`, with the current `app` and
`installer`) and a ledger of previous releases (`prevReleases.json`, release
notes keyed by version). It serves them to clients. It also accepts new
release bundles over a multipart upload, guarded by a check that ties the
zip's file name to the version name picked from the issue tracker. A small
React client signs in against the tracker and posts the upload. A `fetch`
wrapper builds the server's outgoing requests.

This project models that logic and proves what it promises:

- **JsValues, JsStrings** (`js_values.dfy`, `js_strings.dfy`): the JavaScript semantics the core relies on, with one Dafny `char` standing for one UTF-16 code unit (see "## Left out").
  - JSON values and their truthiness.
  - `split`, which always yields at least one piece, `join`, `startsWith`, `endsWith` and literal `replaceAll`.
  - `split` and `join` are proved to be inverses.
  - What `shift()` and `pop()` return after `split`.
- **ReleaseLabel** (`release_label.dfy`): the upload label rule, modelled once.
  - The version number is the last `_`-piece of the version name, cut at its first `-`, with every `.` removed.
  - The label is the file name up to its first `.`, then up to its first `_`.
  - A file matches when its label has exactly ten characters and starts with the version number.
- **LabelAgreement** (`label_agreement.dfy`): the three copies of the label rule agree.
  - Only their MIME-type sets differ, and so does their handling of an empty version name.
- **MetadataStore** (`metadata_store.dfy`, `src/http/utils.js`): the class `ReleaseStore` over a map from path to stored file.
  - Its getters fail open to fixed defaults.
  - `UpdateVersionInfo` is a read-merge-write in which only truthy values overwrite.
  - `UpdatePrevReleases` validates the record, then inserts it at the top level of the ledger.
- **ProjectVersions** (`project_versions.dfy`): the project-version filter of both servers.
  - It collects the unreleased, prefix-matching versions in a loop, then reverses them in place in an array.
- **ServerApp** (`server_app.dfy`, `src/http/index.js`):
  - the multer file filter;
  - `/latestVersion` and `/prevReleases`;
  - the presence checks of `/createRelease`.
- **ReleaseUploader** (`release_uploader.dfy`, `src/http/routes/release-uploader.js`):
  - the router's file filter;
  - the index-page rule;
  - the allow-list check;
  - the 401/400/500 gating of `/createRelease`.
- **UploadForm** (`upload_form.dfy`, `client/src/components/upload.tsx`):
  - the ordered form checks and the base URL;
  - the class `Uploader`, whose fields are the component's state, and the state changes around the request.
- **AuthContext** (`auth_context.dfy`, `client/src/contexts/auth-context.tsx`):
  - the reducer;
  - the provider's `initialize`, `signIn` and `signOut` over a session-storage map.
- **FetchRequest** (`fetch_request.dfy`, `src/http/fetch-request.js`): imperative methods, each proved against a specification function. They cover:
  - URL assembly;
  - option preparation;
  - header parsing;
  - stream reading with progress;
  - the status rule;
  - the `request`, `get` and `post` wrappers.

Things the program reads from outside are inputs to the model:
- the file system and the clock;
- the HTTP answers of the tracker and of the server;
- the outcome of the deployment;
- the allow-list.

Some consequences of the code as written:
- **Version number.** The version number of "10.2.1_2024-06-01-01" is "2024": the last `_`-piece is the date, which is cut at its first `-`. So `ReleaseLabel.DateSuffixedVersionName` shows that "1021000001_build.zip" is refused for that name and "2024000001_build.zip" accepted.
- **Ledger insert.** A new ledger record is stored at `prevReleases[version]`, at the top level of the ledger object, beside its `releases` and `msgType` members.
- **Client status rule.** The client's success rule (200..303) applies only to responses that axios lets through. The request sets no `validateStatus`, so every non-2xx response is thrown, and the alert shows the generic failure message, never the server's `error` text.
- **Deployment failure in the uploader route.** When `deployNewRelease` rejects inside the uploader route's multer callback, the rejection escapes the handler's `try`, and no response is sent.

The source also has these defects as written:
- `updatePrevReleases` uses the undeclared names `format` (src/http/utils.js:110) and `prevReleasesPath` (src/http/utils.js:122).
- `allowedUsers` is imported from a module that does not export it (src/http/routes/release-uploader.js:9).
- `deployNewRelease` is imported but defined nowhere (src/http/index.js:10).

The model gives the evidently intended behaviour for each of them:
- the date stamp is a parameter;
- the ledger is written to the file it is read from;
- the allow-list is a parameter;
- the deployment outcome is a parameter.

## Model

| member | source | states |
|---|---|---|
| JsStrings.Split | src/http/index.js:43-44 | `split` yields at least one piece, and no piece contains the separator |
| JsStrings.JoinSplit | client/src/components/upload.tsx:47-49 | joining the pieces of a split with the same separator gives back the string |
| JsStrings.SplitJoin | client/src/components/upload.tsx:47-49 | splitting a join of separator-free pieces gives back the pieces |
| JsStrings.FirstPieceIsPrefix | src/http/index.js:43-44 | `split(sep).shift()` is the longest separator-free prefix |
| JsStrings.LastPieceIsSuffix | src/http/index.js:43 | `split(sep).pop()` is the longest separator-free suffix |
| JsStrings.FirstPieceOf | src/http/index.js:44 | text after the first separator does not affect `shift()` |
| JsStrings.LastPieceOf | src/http/index.js:43 | text before the last separator does not affect `pop()` |
| JsStrings.RemoveCharMembership | src/http/index.js:43 | `replaceAll('.', '')` removes exactly the dots and keeps every other character |
| JsStrings.RemoveAbsentChar | src/http/index.js:43 | removing a character that does not occur changes nothing |
| JsStrings.ReplaceAllWithoutOccurrence | src/http/routes/release-uploader.js:52 | a text without the pattern is left unchanged by `replaceAll` |
| ReleaseLabel.VersionNumber | src/http/index.js:43 | defines the version number: the last `_`-piece of the version name, cut at its first `-`, with every `.` removed (its properties are the lemmas below) |
| ReleaseLabel.ReleaseFileName | src/http/index.js:44 | defines the label: the file name up to its first `.`, then up to its first `_` |
| ReleaseLabel.LabelMatches | src/http/index.js:46 | defines the match: the label has exactly 10 characters and starts with the version number |
| ReleaseLabel.VersionNumberCharacters | src/http/index.js:43 | the version number contains no `_`, `-` or `.` |
| ReleaseLabel.ReleaseFileNameCharacters | src/http/index.js:44 | the label contains no `.` or `_` and is a prefix of the file name |
| ReleaseLabel.MatchBoundsVersionNumber | src/http/index.js:46-51 | an accepted version number has at most 10 characters and begins the file name |
| ReleaseLabel.EmptyVersionNumberAcceptsAnyLabel | src/http/index.js:46-51 | an empty version number accepts exactly the 10-character labels |
| ReleaseLabel.DateSuffixedVersionNumber | src/http/index.js:43 | "10.2.1_2024-06-01-01" yields the version number "2024" |
| ReleaseLabel.DateSuffixedVersionName | src/http/index.js:43-46 | for that name "1021000001_build.zip" is refused and "2024000001_build.zip" accepted |
| ReleaseLabel.SampleLabels | src/http/index.js:44 | the labels of the two sample file names are their ten leading digits |
| ReleaseLabel.LabelOf | src/http/index.js:44 | the label of "<stem>_build.zip" is the stem, for any stem without `.` or `_` |
| LabelAgreement.ThreeSitesAgree | src/http/routes/release-uploader.js:18-38 | for a non-empty version name, all three sites accept an application/zip file exactly when the label rule holds; application/x-zip-compressed passes the form and the uploader on that condition and is always refused by index.js; other types are refused everywhere |
| LabelAgreement.EmptyVersionNameDisagreement | client/src/components/upload.tsx:24-37 | an empty version name is refused by the form and the uploader, while index.js's filter accepts any 10-character zip label with it |
| MetadataStore.MergeVersionInfo | src/http/utils.js:81-94 | `app` and `installer` are set only from truthy values and otherwise keep their stored value or stay absent; every other key is preserved |
| MetadataStore.MergeFalsyKeepsPointer | src/http/utils.js:81-94 | with both arguments falsy the written document is the one read |
| MetadataStore.MergeIdempotent | src/http/utils.js:83-89 | merging the same values twice is merging them once |
| MetadataStore.NewReleaseInfo | src/http/utils.js:107-111 | the record is the note with version, versionName and createdDate set to the supplied values, which win over same-named note keys |
| MetadataStore.ValidateVersionInfo | src/http/utils.js:135-147 | defines validity: the note has "EN" and "AR" or "FR", and version, versionName and createdDate of the new record are truthy (characterised by ValidationMeansWellFormed) |
| MetadataStore.ValidationMeansWellFormed | src/http/utils.js:135-147 | validation holds iff the note has "EN" and "AR" or "FR" and the three supplied strings are non-empty, which is exactly the ledger-record invariant |
| MetadataStore.MissingEnglishRejected | src/http/utils.js:136-139 | a note without "EN" is never valid |
| MetadataStore.InsertRelease | src/http/utils.js:119 | the record is stored under `version` at the top level, replacing any entry there; every other key is unchanged |
| MetadataStore.InsertKeepsRecordsWellFormed | src/http/utils.js:118-119 | inserting a well-formed record keeps all earlier records well formed |
| MetadataStore.ReleaseStore.constructor | src/http/utils.js:5-9 | the store over the two distinct file paths and the given files |
| MetadataStore.ReleaseStore.GetVersionInfo | src/http/utils.js:12-20 | a missing or unparseable pointer reads as `{}`, otherwise as the stored document |
| MetadataStore.ReleaseStore.GetPrevReleasesInfo | src/http/utils.js:22-30 | a missing or unparseable ledger reads as `{ releases: {}, msgType: 2 }` |
| MetadataStore.ReleaseStore.UpdateVersionInfo | src/http/utils.js:78-100 | the pointer file becomes the merge of what was read; a read after the write returns it; the ledger is unchanged |
| MetadataStore.ReleaseStore.UpdatePrevReleases | src/http/utils.js:102-133 | succeeds iff the record is valid, and then writes the ledger with the record inserted; an invalid record fails with "Invalid release version" and writes nothing |
| ProjectVersions.UnreleasedMembership | src/http/index.js:210-216 | an entry is listed iff it is the `{id, name}` of an unreleased version whose name starts with the prefix (the uploader's copy at src/http/routes/release-uploader.js:198-204 is the same) |
| ProjectVersions.ReversedAt | src/http/index.js:218 | position k of the reversal holds the input's position n-1-k |
| ProjectVersions.ReversedLength | src/http/index.js:218 | reversal keeps the length |
| ProjectVersions.ReverseInPlace | src/http/index.js:218 | `reverse()` leaves the array holding the reversal of its old contents |
| ProjectVersions.FetchProjectMeta | src/http/index.js:194-219 | the versions are the filtered list in reverse order, and contain exactly the offered versions' `{id, name}` (likewise `_fetchProjectMeta` at src/http/routes/release-uploader.js:180-207) |
| ServerApp.FileFilter | src/http/index.js:35-55 | accepted iff the type is application/zip, versionName is given and the label rule holds; a wrong type gives "Invalid file type", an absent versionName "Cannot accept this file", a mismatch "Invalid file name" |
| ServerApp.LatestVersion | src/http/index.js:62-73 | the pointer is served iff both app and installer are truthy; otherwise 404 "Build not found" |
| ServerApp.UnreadablePointerIsNotFound | src/http/index.js:62-72 | an unreadable pointer file makes /latestVersion answer 404 |
| ServerApp.UpdatedPointerIsServed | src/http/index.js:66-67 | after an update with a truthy app and installer, /latestVersion serves the merged pointer |
| ServerApp.PrevReleases | src/http/index.js:75-85 | the ledger read always yields an object, so /prevReleases always answers 200 with it |
| ServerApp.CreateRelease | src/http/index.js:87-109 | a filter rejection goes to the error handler; a missing file is reported before a missing versionName (both 500); deployNewRelease runs iff both are present, and its outcome gives 200 or 500 |
| ServerApp.EmptyVersionNameReachesRoute | src/http/index.js:43-100 | an empty versionName passes the filter and is stopped by the route's 500 "Version name not available" |
| ReleaseUploader.UploaderFileFilter | src/http/routes/release-uploader.js:16-43 | accepted iff the type is one of the two zip types, versionName is truthy and the label rule holds; each rejection carries its own message: a non-zip type gives "Invalid file type", a zip without versionName gives the versionName error, a zip whose label does not match gives "Invalid file name"; the catch's message is never produced |
| ReleaseUploader.AcceptedUploadHasVersionName | src/http/routes/release-uploader.js:25-28 | an accepted file always comes with a truthy versionName |
| ReleaseUploader.IndexPage | src/http/routes/release-uploader.js:45-65 | only URLs ending in "index.html" or "/release-uploader/" are served, with every "/[BASE_PATH]" replaced; others go to `next()`; a missing file gives 404, a failed read 501 |
| ReleaseUploader.PageWithoutPlaceholderUnchanged | src/http/routes/release-uploader.js:51-54 | a page without the placeholder is sent as stored |
| ReleaseUploader.VerifyUser | src/http/routes/release-uploader.js:150-178 | the call fails unless a status in 200..303 comes back; a user is returned iff their emailAddress is allowed, with username = emailAddress |
| ReleaseUploader.CreateRelease | src/http/routes/release-uploader.js:67-110 | no Authorization or a user not allowed gives 401 and no upload; a failed verification gives 500; an allowed user with no file gets 500 "File not available" and no deployment; a filter error gives 400 "Bad Request" and no deployment; deployment runs iff an allowed user uploads an accepted file; a failed deployment sends nothing |
| UploadForm.SubmitCheck | client/src/components/upload.tsx:24-40 | the checks run in order (version, file type, label), each with its message, and pass iff all three hold |
| UploadForm.BaseUrl | client/src/components/upload.tsx:47-49 | defines the base URL: the page address split on '/', its last piece popped, joined with '/' (characterised by BaseUrlDropsLastSegment) |
| UploadForm.BaseUrlDropsLastSegment | client/src/components/upload.tsx:47-49 | the base URL is the page address minus its last '/' and the segment after it |
| UploadForm.ResponseAlert | client/src/components/upload.tsx:71-77 | success iff the status is within 200..303; the message is data.message on success and data.error otherwise |
| UploadForm.FinalAlert | client/src/components/upload.tsx:56-88 | defines the alert shown after the request: the response's alert when axios's 2xx default lets the response through, otherwise the generic failure (characterised by FailedUploadShowsGenericMessage) |
| UploadForm.FailedUploadShowsGenericMessage | client/src/components/upload.tsx:56-88 | with axios's default 2xx rule, a failure alert always carries "Error while uploading release" and a response that arrives always gives success |
| UploadForm.Uploader.constructor | client/src/components/upload.tsx:11-15 | the component's initial state |
| UploadForm.Uploader.BeginUpload | client/src/components/upload.tsx:52-54 | the error is cleared, uploading is set and progress reset to 0; the alert is untouched |
| UploadForm.Uploader.FinishUpload | client/src/components/upload.tsx:71-88 | the alert is shown for the outcome and uploading ends false on both paths |
| UploadForm.Uploader.OnSubmit | client/src/components/upload.tsx:18-89 | a failed check only sets its error and sends nothing; otherwise the request goes to the base URL with the stored token and the outcome's alert is shown |
| AuthContext.InitialState | client/src/contexts/auth-context.tsx:43-47 | defines the initial state: not initialized, not authenticated, user null |
| AuthContext.Reduce | client/src/contexts/auth-context.tsx:49-77 | INITIALIZE sets initialized and copies the payload; SIGN_IN authenticates with the user and keeps isInitialized; SIGN_OUT clears both and keeps isInitialized; an unknown type changes nothing |
| AuthContext.SignOutIdempotent | client/src/contexts/auth-context.tsx:69-73 | signing out twice is signing out once |
| AuthContext.InitializedStaysInitialized | client/src/contexts/auth-context.tsx:49-77 | no action un-initializes the state |
| AuthContext.Initialize | client/src/contexts/auth-context.tsx:101-149 | the state always ends initialized; it is authenticated iff a token is stored and /me answers with a truthy user, which becomes the user; otherwise the user is null |
| AuthContext.SignIn | client/src/contexts/auth-context.tsx:159-189 | the token is stored and SIGN_IN dispatched iff the /auth call succeeds; otherwise nothing changes |
| AuthContext.SignOut | client/src/contexts/auth-context.tsx:191-194 | the token is removed, every other entry kept, and the state signed out |
| AuthContext.SignOutUndoesSignIn | client/src/contexts/auth-context.tsx:159-194 | after sign-in then sign-out no token is stored, and a later initialize comes up unauthenticated |
| FetchRequest.TrimmedBase | src/http/fetch-request.js:94-96 | one trailing '/' is removed from the base, and only then |
| FetchRequest.RelativeUrlJoinedByOneSlash | src/http/fetch-request.js:100-102 | a relative url is joined with exactly one '/' to a non-empty base that does not end in "//" (a base ending in "//" keeps one of its slashes: `http://h//` and `a` give `http://h//a`) |
| FetchRequest.AbsolutePathIgnoresTrailingSlash | src/http/fetch-request.js:94-99 | a url starting with '/' gives the same URL whether or not the base ends in '/' |
| FetchRequest.BuildRequestUrl | src/http/fetch-request.js:92-107 | the step-by-step assembly yields the request URL: trimmed base, the url verbatim or '/'-joined, and "?" plus the query when params are given |
| FetchRequest.OptionsHeaders | src/http/fetch-request.js:113-126 | caller headers override the default Content-Type; a FormData body removes Content-Type even if the caller set it; other headers pass through |
| FetchRequest.PrepareOptions | src/http/fetch-request.js:113-126 | the mutated options are those headers, with a FormData body, the JSON text of truthy data, or no body |
| FetchRequest.HeaderObjectContents | src/http/fetch-request.js:12-20 | the header object has exactly the entries' names, each with its last value |
| FetchRequest.ParseHeaders | src/http/fetch-request.js:12-20 | the loop builds that header object |
| FetchRequest.ProgressCounts | src/http/fetch-request.js:46-52 | one report per chunk, each the running byte count, rising |
| FetchRequest.ReadStreamWithProgress | src/http/fetch-request.js:30-61 | the data is the chunks read before the end or a read error, in order; reports are made only with a callback and a truthy total |
| FetchRequest.StatusValidity | src/http/fetch-request.js:155 | without a validator a status is accepted iff it is 2xx; with one, the validator alone decides |
| FetchRequest.Request | src/http/fetch-request.js:78-179 | a missing url or an unparseable URL fails before sending; otherwise the assembled URL and options are sent; an abort reads as a timeout; a valid status returns body, status and headers, and an invalid one fails with status, statusText and body |
| FetchRequest.GetConfig | src/http/fetch-request.js:187-189 | `get` sets method GET and the url unless the config names its own; data, baseURL, headers, params, validateStatus, responseType and onDownloadProgress pass through from the config |
| FetchRequest.PostConfig | src/http/fetch-request.js:198-200 | `post` sets method POST, the url and the data unless the config names its own; baseURL, headers, params, validateStatus, responseType and onDownloadProgress pass through from the config |
| FetchRequest.PostMethodAndOverride | src/http/fetch-request.js:198-200 | a post without a configured method sends POST; a configured method wins |

## Left out

- Deployment orchestration is not part of this model: bundle inspection, extraction and rollback. `deployNewRelease` is imported but not defined in the source, so its outcome is a parameter.
- `backupReleaseData` (src/http/utils.js:32-76): its directory handling and parallel file copies are file-system work. As written, lines 41-45 delete an existing backup directory without recreating it, so the copies that follow have no target directory.
- The `/auth` and `/me` routes and `loginUser`/`verifyUser` of src/http/index.js, and the `/auth` and `/me` routes of the uploader router, are left out. They only forward tracker answers; the allow-list check and the version filter they use are modelled.
- `GET /` of src/http/index.js ("File server is working") and Express, multer, cookie-parser and static-file routing are left out. Multer's limits (one file, one field, 60 MiB) are not modelled, and neither is the order in which it reads fields and file: the filter sees the `versionName` field as an input.
- Network calls, timeouts and the `AbortController` are inputs: each call's outcome is a parameter. `URL.canParse` is a parameter predicate. `URLSearchParams` encoding is left out: the encoded query string is an input.
- `btoa` Base64 (section 4 of RFC 4648) for Basic credentials (section 2 of RFC 7617) is left out; the token is an opaque string.
- React rendering, hooks and presentational components are left out. sessionStorage is a map from key to string.
- UploadForm.Uploader.OnSubmit: the upload progress callback (`Math.round(100 * loaded / total)`, floating point) is not modelled, so `uploadProgress` stays at the 0 it is reset to.
- JSON parsing and serialisation are left out: documents are maps, a stored file either parses to an object or does not, and a JSON body is the value it stringifies. A file that parses to a non-object is not modelled.
- Write failures of `fs.promises.writeFile` are not modelled: the updaters always write.
- Concurrency is not modelled: there are read-modify-write races between concurrent requests on the two documents.
- ServerApp.FileFilter: `versionName` is a string when present; a non-string form field is not modelled.
- AuthContext.Reduce: an action type naming an inherited property of `handlers` (such as "toString") is treated like any unknown type.
- `replaceAll` is modelled for a literal replacement; the special `$` patterns of a replacement string are not modelled.
- ReleaseLabel.LabelMatches: a Dafny `char` is a Unicode scalar value, while JavaScript's `.length` counts UTF-16 code units. The model reads each `char` as one code unit, so names with characters outside the Basic Multilingual Plane are not modelled: the source counts two units for each such character (five emoji make a 10-unit label), the model counts one.
- JsValues.Json: JSON numbers are integers; fractional numbers and their truthiness (`NaN`) are not modelled.
- FetchRequest.GetConfig and FetchRequest.PostConfig: a config field is either absent (`None`) or set; a field present but `undefined` (`{ method: undefined }`), which the spread copies over the default so that `request` falls back to its own default (GET), is not modelled.
- FetchRequest.ReadStreamWithProgress: the progress callback is assumed to return normally. In the source it is called inside the loop's `try` (src/http/fetch-request.js:38-57), so a callback that throws would end the read early like a read error; no caller in the repository passes a callback.
- FetchRequest.Request: a JSON body that fails to parse is stated only as some rethrown error, not with the parser's message.
- src/http/routes/release-info.js, the logger, src/http/directories.js, packaging/index.js and deploy.js are not part of this model.
