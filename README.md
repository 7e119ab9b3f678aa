# CloudProject ingest core, modelled in Dafny

CloudProject gets images into a Firebase project in two ways:

- `scheduler_upload.py` is a sync pass, repeated by a scheduler, that moves every file of one
  Google Drive folder into Cloud Storage at `IMAGES/OG/<name>`. It writes a Firestore document
  `METADATA/<name>` describing the file and then deletes the file from Drive. A file is skipped
  when its blob **or** its document already exists. Each file's failures are caught on their own.
- `fetchNasaImage.py` fetches NASA's Astronomy Picture of the Day records. It keeps the items
  that are images and uploads each one under its sanitised title plus `.jpg`. It then writes a
  record to the Realtime Database at `images/<uuid>`. There is no existence check. One `try`
  encloses the whole loop, so the first exception ends the batch.

The external services are modelled as state:

- the bucket is a `map<string, Blob>`;
- the Firestore collection and the Realtime Database are `map`s of records;
- the Drive folder is a `seq<DriveFile>`.

Every service call gets an answer supplied in advance, success or failure. These answers are
the `Attempt` record for each listed file and the `ItemAttempt` record for each APOD item. The
supplied answers include the downloaded bytes, the formatted `datetime.now()`, the `uuid4()`
and the public URL.

Modules:

- `Wrappers`: Option and Result.
- `Storage`: bytes and blobs.
- `DriveKeys`: object key, content type and Firestore record of the sync pass. These are pure
  functions.
- `DriveSync`: the pass as functions `Step` and `Run` over a `Cloud` value, with its
  properties.
- `DriveSyncPass`: class `SyncService`, which holds the three stores as fields. Its loop
  method is proved to end in the state `Run` gives.
- `ApodItems`: JSON values, `parse_json`, the image test and title sanitisation. These are
  pure functions.
- `ApodBatch`: the APOD loop as functions `ProcessItem`, `Batch` and `Ingest`, with their
  properties.
- `ApodIngest`: classes `FirebaseUploader` and `FirebaseDatabaseHandler`, plus the loop of `main`
  (`IngestApod`), proved against `Ingest`.

The two loops fail differently, and both policies are proved:

- In the sync pass, a failing file does not stop a later, new file from being uploaded
  (`RunUploadsFreshFile`).
- In the APOD loop, once an item raises, nothing after it is looked at (`BatchAbortIgnoresRest`,
  `BatchStopsAtFirstError`, `MissingTitleAbortsLaterImages`).

The Drive file name goes into the object key verbatim (`BlobPath`), so a name containing `/`
or `..` produces a nested key; the code does no sanitising on this side.

The sync pass uploads to the bucket `cloudproject-bda5e.firebasestorage.app`
(scheduler_upload.py:16). The Firestore record's PATH_OG and PATH_THUMB, however, point to
object paths in `gs://cloudproject-bda5e.appspot.com/`, a bucket this pass never writes
(scheduler_upload.py:109-110). The model keeps the two names apart as `UploadBucket` and
`RecordedBucketUrl` (`RecordedBucketIsNotUploadBucket`).

On these points the code behaves in ways a reader may not expect; the model follows the code:

- The APOD object name is always the sanitised title plus `.jpg`, even when the title already
  ends in an extension.
- A failing Drive listing call is not caught by `upload_files_to_firebase`; it propagates out
  of the function. `SyncOnce` models it as `ListFailed`, with no store changed.
- The Drive variant keeps no count of uploaded files. Only the local-folder script, which is
  not part of this model, counts them.
- In `main`, `item.get("title", f"image_{i}")` at fetchNasaImage.py:142 never uses its default.
  A missing title has already raised `KeyError` at line 138, so the model has no default.
- `"url" in item` keeps Python's meaning for non-dict items:
  - It is list membership on a list and substring search on a string.
  - When that test is true, `item["media_type"]` raises `TypeError`.
  - On a number, boolean or null, the `in` test itself raises `TypeError`.
  - On a dict with `"url"` but no `"media_type"`, the lookup raises `KeyError`.

## Model

| member | source | states |
|---|---|---|
| `DriveKeys.BlobPath` | scheduler_upload.py:67 | the key is `IMAGES/OG/` followed by the file name unchanged, with no extension added |
| `DriveKeys.BlobPathInjective` | scheduler_upload.py:67-68 | two names share an object key exactly when they are equal |
| `DriveKeys.MetadataDocFor` | scheduler_upload.py:107-113 | IMAGE_ID is the name; PATH_OG is `gs://cloudproject-bda5e.appspot.com/` followed by the blob's own key, an object path in a bucket the pass never writes; PATH_THUMB is the THUMBNAILS path ending in `_thumbnail.jpg`; TAGS is empty; UPLOAD_DATE is the supplied date |
| `DriveKeys.RecordedBucketIsNotUploadBucket` | scheduler_upload.py:16 | the bucket the record names differs from the bucket the blobs are uploaded to |
| `DriveKeys.LowerChar` | scheduler_upload.py:95 | no result is an upper-case ASCII letter; an upper-case ASCII letter becomes a lower-case one; every other character is kept |
| `DriveKeys.Lower` | scheduler_upload.py:95 | lower-casing keeps the length and maps each character on its own |
| `DriveKeys.LastDot` | scheduler_upload.py:94-95 | finds no position exactly when the name has no '.'; otherwise the position of a '.' with none after it |
| `DriveKeys.Extension` | scheduler_upload.py:94-95 | with a '.', the extension has no '.' and the name is some stem, '.', then the extension; without one, there is no extension |
| `DriveKeys.MimeFor` | scheduler_upload.py:96-101 | the extension maps to one of image/jpeg, image/png, image/gif or application/octet-stream; which one for which extension is `MimeForCases` |
| `DriveKeys.ContentTypeOf` | scheduler_upload.py:93-101 | the content type is one of the four values; any type but octet-stream comes from the lower-cased extension of a name that has one; `ContentTypeOfSplit` and `ContentTypeWithoutDot` give the full case split |
| `DriveKeys.LastDotOfSplit` | scheduler_upload.py:95 | in stem + "." + ext with no '.' in ext, the split point is right after the stem |
| `DriveKeys.ContentTypeOfSplit` | scheduler_upload.py:93-101 | the content type of stem.ext is decided only by the lower-cased text after the last '.' |
| `DriveKeys.ContentTypeWithoutDot` | scheduler_upload.py:93-94 | a name without '.' gives application/octet-stream |
| `DriveKeys.MimeForCases` | scheduler_upload.py:96-101 | image/jpeg exactly for jpg and jpeg, image/png exactly for png, image/gif exactly for gif, octet-stream for everything else |
| `DriveKeys.ContentTypeUpperCaseJpg` | scheduler_upload.py:95-97 | `nebula.JPG` is uploaded as image/jpeg |
| `DriveKeys.ContentTypeLastExtensionOnly` | scheduler_upload.py:95 | `a.png.zip` is octet-stream: only the last extension counts |
| `DriveKeys.ContentTypeDotFile` | scheduler_upload.py:94-101 | `.gif` is image/gif |
| `DriveSync.RemoveById` | scheduler_upload.py:119 | a Drive file remains after the delete exactly when it was there and its id differs |
| `DriveSync.Step` | scheduler_upload.py:63-123 | a file whose name is known to a store is skipped and changes nothing; an outcome is a skip or a write past the upload exactly when the name is known afterwards; an upload removes the file from Drive, any other outcome leaves Drive as it was; each outcome's branch is proved in the `Step...` lemmas |
| `DriveSync.Run` | scheduler_upload.py:63-123 | the pass gives exactly one outcome per listed file: no file failure ends the loop |
| `DriveSync.StepSkipsExistingBlob` | scheduler_upload.py:70-72 | a blob at `IMAGES/OG/<name>` skips the file; the blobs, documents and Drive folder are all unchanged |
| `DriveSync.StepSkipsExistingDoc` | scheduler_upload.py:74-77 | a document `<name>` skips the file even when the blob is absent; nothing changes |
| `DriveSync.StepUploadsNewFile` | scheduler_upload.py:79-120 | for a new file whose stages all succeed: the blob is added at the key with the inferred type; the document holds the five literal fields; the file leaves Drive; nothing else changes |
| `DriveSync.StepTransferFailureChangesNothing` | scheduler_upload.py:79-104 | a failed download or upload writes no document, changes no store and keeps the file in Drive |
| `DriveSync.StepSetFailureOrphansBlob` | scheduler_upload.py:104-115 | a failed document write leaves the blob with no record, and the file stays in Drive |
| `DriveSync.StepDeleteFailureKeepsFile` | scheduler_upload.py:115-123 | a failed Drive delete leaves the blob and the record, and the file stays in Drive |
| `DriveSync.StepFrame` | scheduler_upload.py:63-123 | one file touches only its key, its document and Drive entries with its id; it never overwrites; each outcome corresponds to the stores it wrote |
| `DriveSync.RunExtends` | scheduler_upload.py:63-123 | a pass never removes or overwrites a blob or document, and never adds a Drive file |
| `DriveSync.RunPrefix` | scheduler_upload.py:63 | the outcomes of the first j files are the first j outcomes of the pass |
| `DriveSync.RunOutcomeAt` | scheduler_upload.py:63-123 | file j's outcome is its step from the state the earlier files left |
| `DriveSync.RunEmpty` | scheduler_upload.py:57-61 | an empty listing changes no store |
| `DriveSync.RunUploadsNameOnce` | scheduler_upload.py:67-72 | within one listing, a later file with a name already uploaded is skipped |
| `DriveSync.RunFrame` | scheduler_upload.py:63-123 | blobs and documents of unlisted names, keys outside `IMAGES/OG/`, and unlisted Drive files are left as they were |
| `DriveSync.RunUploadsFreshFile` | scheduler_upload.py:79-123 | a new name with all stages succeeding is uploaded, recorded and removed from Drive, whatever the other files did |
| `DriveSync.RunSettledNamesKnown` | scheduler_upload.py:70-77 | after the pass, the name of every file that got past download and upload is known to a store |
| `DriveSync.RunOverKnownNames` | scheduler_upload.py:70-77 | a listing of known names is all skips and changes nothing |
| `DriveSync.RerunChangesNothing` | scheduler_upload.py:70-77 | after a pass where every file got past upload, re-running over the same listing changes nothing, whatever the services answer |
| `DriveSync.RunRecordsHaveBlobs` | scheduler_upload.py:104-115 | every document the pass writes has its blob stored |
| `DriveSync.RunDeletesOnlyRecorded` | scheduler_upload.py:104-120 | a file leaves Drive only after the blob and record of its name are both stored |
| `DriveSyncPass.SyncOnce` | scheduler_upload.py:48-61 | a failed listing ends the pass as `ListFailed` with no store changed; with a successful listing, an empty folder gives `NoFiles` and changes nothing, and a non-empty one gives one outcome per file in the folder; a processed pass only extends the stores |
| `DriveSyncPass.SecondPassChangesNothing` | scheduler_upload.py:125-129 | after a pass where every file got past upload, the next scheduled pass changes no store |
| `DriveSyncPass.SyncService.constructor` | scheduler_upload.py:14-17 | the service starts from the given bucket, METADATA collection and Drive folder |
| `DriveSyncPass.SyncService.BlobExists` | scheduler_upload.py:68-70 | true exactly when the key is in the bucket |
| `DriveSyncPass.SyncService.DocExists` | scheduler_upload.py:74-75 | true exactly when the METADATA document exists |
| `DriveSyncPass.SyncService.UploadFromFile` | scheduler_upload.py:104 | on success, the blob is stored with the content type; nothing else changes |
| `DriveSyncPass.SyncService.SetDoc` | scheduler_upload.py:115 | on success, the document is overwritten unconditionally; nothing else changes |
| `DriveSyncPass.SyncService.DeleteFile` | scheduler_upload.py:119 | on success, the id's files leave Drive; nothing else changes |
| `DriveSyncPass.SyncService.ProcessFile` | scheduler_upload.py:63-123 | one loop iteration ends in the state and outcome `Step` gives |
| `DriveSyncPass.SyncService.UploadFilesToFirebase` | scheduler_upload.py:48-123 | the pass ends in the state and result `SyncOnce` gives |
| `ApodItems.ParseJson` | fetchNasaImage.py:59-66 | a list is returned unchanged; a dict becomes a one-element list; any other shape raises ValueError |
| `ApodItems.ParseJsonIdempotent` | fetchNasaImage.py:59-66 | the list that parse_json returns parses to itself |
| `ApodItems.HasSubstring` | fetchNasaImage.py:135 | `p in s` holds exactly when p occurs at some position of s |
| `ApodItems.IsImageItem` | fetchNasaImage.py:135 | true exactly for dicts with "url" and media_type "image"; a dict without "url" is false; "url" with no media_type is KeyError; scalars are TypeError |
| `ApodItems.ReplaceChar` | fetchNasaImage.py:142 | replacing one character keeps the length and substitutes it at every position |
| `ApodItems.SanitizeTitle` | fetchNasaImage.py:142 | the length is kept and every character other than ' ' and '/' is kept; `SanitizeTitleByChar` says what ' ' and '/' become |
| `ApodItems.SanitizeTitleByChar` | fetchNasaImage.py:142 | the two replaces turn every ' ' into '_' and every '/' into '-', keep other characters, and keep the length |
| `ApodItems.SanitizedHasNoSpaceOrSlash` | fetchNasaImage.py:142 | a sanitised title has no ' ' and no '/' |
| `ApodItems.SanitizeIdempotent` | fetchNasaImage.py:142 | sanitising twice is sanitising once |
| `ApodItems.SanitizeCollides` | fetchNasaImage.py:142-144 | distinct titles can sanitise to the same object name |
| `ApodBatch.BlobKeyOf` | fetchNasaImage.py:142-144 | an object name exists only for an image dict with a title; it ends in ".jpg" and the part before has no ' ' and no '/' |
| `ApodBatch.ImageBlob` | fetchNasaImage.py:21-25 | the blob holds the downloaded bytes, type image/jpeg, and exactly one metadata entry, `id`, set to the item's uid |
| `ApodBatch.ProcessItem` | fetchNasaImage.py:134-146 | an item that changes a store is an image with an object name, and that name is in the bucket afterwards; an image that raises nothing has its record at `images/<uid>`; an item raises nothing only when its image test did not raise; its branches are proved in the `ProcessItem...` lemmas |
| `ApodBatch.Ingest` | fetchNasaImage.py:132-151 | a response that is neither a list nor a dict raises ValueError from `parse_json` and changes nothing; otherwise the final state is the batch's over the parsed items, and an exception is raised exactly when the batch raised one, and it is that exception |
| `ApodBatch.Batch` | fetchNasaImage.py:132-151 | a raised exception names the index of an item of the batch |
| `ApodBatch.ProcessItemOnlyImagesWrite` | fetchNasaImage.py:135 | an item that fails the image test changes no store; it passes silently or raises what the test raised |
| `ApodBatch.ProcessItemWithoutMediaType` | fetchNasaImage.py:135 | a dict with "url" and no "media_type" raises KeyError and writes nothing |
| `ApodBatch.ProcessItemMissingField` | fetchNasaImage.py:137-141 | a missing title, explanation or date raises KeyError for the first one missing, before any download |
| `ApodBatch.ProcessItemStoresImage` | fetchNasaImage.py:19-29 | on success, the object name is the sanitised title plus ".jpg", stored as image/jpeg with `{'id': uid}` and overwriting what was there; the record goes at `images/<uid>` |
| `ApodBatch.ProcessItemTransferFailure` | fetchNasaImage.py:143-144 | a failed download or upload raises and changes neither store |
| `ApodBatch.ProcessItemWriteFailure` | fetchNasaImage.py:144-146 | a failed `ref.set` raises after the upload; the blob stays, with no record |
| `ApodBatch.ProcessItemFrame` | fetchNasaImage.py:135-146 | an item writes at most its own object name and its own database path, and removes nothing |
| `ApodBatch.SameTitleSharesObjectNotPath` | fetchNasaImage.py:136-146 | equal sanitised titles share the object name, and the later upload wins; distinct ids keep both records |
| `ApodBatch.BatchAbortIgnoresRest` | fetchNasaImage.py:132-151 | once an item has raised, items after it change nothing |
| `ApodBatch.BatchPrefix` | fetchNasaImage.py:134 | a batch with no exception up to item i had none before it, and item i raised nothing |
| `ApodBatch.BatchStopsAtFirstError` | fetchNasaImage.py:132-151 | the raising item is reached error-free from the earlier items' state; its partial effect is the final state |
| `ApodBatch.MissingTitleAbortsLaterImages` | fetchNasaImage.py:138 | an image without a title aborts the batch before a later complete image is written |
| `ApodBatch.BatchKeepsKeys` | fetchNasaImage.py:132-151 | a batch removes nothing from the bucket or the database |
| `ApodBatch.PathInjective` | fetchNasaImage.py:74 | distinct ids give distinct database paths |
| `ApodBatch.BatchRecordsEveryImage` | fetchNasaImage.py:136-146 | in a batch without exceptions and with distinct ids, each image has its own record at `images/<uid>`: title, description, date and the returned URL |
| `ApodIngest.FirebaseUploader.constructor` | fetchNasaImage.py:15-17 | the uploader starts from the given bucket contents |
| `ApodIngest.FirebaseUploader.UploadImage` | fetchNasaImage.py:19-29 | stores the JPEG blob with id metadata and returns the URL, or raises and changes nothing |
| `ApodIngest.FirebaseDatabaseHandler.constructor` | fetchNasaImage.py:70-71 | the handler keeps the given path and starts from the given database contents |
| `ApodIngest.FirebaseDatabaseHandler.WriteMetadata` | fetchNasaImage.py:73-77 | overwrites path + id with the record, or raises and changes nothing |
| `ApodIngest.HandleItem` | fetchNasaImage.py:135-146 | one loop iteration ends in the state and exception `ProcessItem` gives |
| `ApodIngest.IngestApod` | fetchNasaImage.py:132-151 | `main` from the response on: parsing plus the loop end in the state and exception `Ingest` gives |

## Left out

- Credentials, OAuth and SDK client set-up (scheduler_upload.py:14-45, fetchNasaImage.py:115-121) are configuration and file I/O.
- The Drive listing query returns, in the model, the whole folder: the folder is the `drive` sequence, and a failed listing call is the `listOk` flag. The real call returns only one result page, and the model does not capture page-size limits.
- Failures of the two existence checks are not modelled. `blob.exists()` and the document `get` (scheduler_upload.py:70, 75) run outside the `try`, so a failure there would end the whole pass. The model treats both checks as answering.
- The chunked download loop and its progress output (scheduler_upload.py:84-87) are library behaviour with floating-point progress. A download is modelled as bytes or a failure.
- All `print` output and the log-file append loop are not modelled; the outcome values stand in for the log lines.
- The scheduler (scheduler_upload.py:125-138) is timing. Repetition is modelled only as pass after pass in `SecondPassChangesNothing`. The script dying on an uncaught listing error is not modelled.
- `datetime.now()` and its `strftime("%d.%m.%Y")` formatting are not modelled; the formatted date string is supplied per file.
- `uuid.uuid4()` is not modelled: the id is supplied per item, and its uniqueness is a hypothesis (`DistinctIds`).
- `Lower`: only ASCII letters are lower-cased. Among non-ASCII characters, only the Kelvin sign lowers to an ASCII letter (`k`), so the comparison with jpg, jpeg, png and gif comes out the same.
- The HTTP client, the async `fetch_data` and `get_random_date` (fetchNasaImage.py:36-57, 100-106) are not modelled. The parsed API response is an input, and HTTP errors end the batch like any other exception.
- Failed downloads and uploads in the APOD script are modelled as raised exceptions. The source gets there through a `None` download and through an unbound `public_url` (fetchNasaImage.py:31-32, 97-98).
- `blob.public_url` is not derived from the bucket and key; the URL comes with the upload's supplied answer.
- JSON numbers are integers in the model. Floats are not distinguished, because no decision looks at a number.
- The local-folder variant (`scheduler_upload local python.py`), functions/index.js and nasapp/lib/test_thumbnail.py are not part of this model. They are another ingest script, a URL-signing HTTP handler and a one-off test script.
- Races between concurrent scheduler instances are not modelled: the code is single-threaded, and each store call is one atomic step.
