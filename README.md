# Image storage service: a Dafny model of the storage contract

This project models the core of an image-storage REST service that runs over
one of two interchangeable backends: a directory on the local filesystem or a
bucket of a cloud object store. It covers:

- the validation every upload runs: an empty file first, then a missing or
  non-`image/` content type;
- the naming of stored files: a random token followed by the original name's
  extension;
- the seven operations of each backend: `upload`, `listAll`, `load` and
  `delete`, and the batch forms `uploadMultiple`, `loadMultiple` and
  `deleteMultiple`;
- the controller's own bookkeeping: dropping null and empty multipart parts,
  the counts in the batch summaries, and which exception becomes which HTTP
  status.

Both backends work against an abstract store. It is a `map<string, seq<bv8>>`
from a stored name to the file's bytes, and each backend class holds it in its
field `files`.

Files:

- `storage.dfy` (module `Storage`): the shared types (`Part` for a multipart
  file, `Exception`, `Result`, `Option` for Java's null), the validation
  `Rejection`, and the name derivation `LastIndexOf`, `Extension` and
  `SavedFilename` with their lemmas.
- `batch.dfy` (module `Batch`): what the three batch loops compute, as the
  functions `UploadAll`, `LoadAll` and `DeleteAll`. Each is defined by
  recursion on the prefix of inputs already processed. The lemmas about them
  give the per-position and per-key facts.
- `file_storage.dfy` and `cloud_storage.dfy`: the classes
  `FileStorageService` and `CloudStorageService`. Their methods mirror the
  Java ones. The batch methods loop over their inputs, update `files` as they
  go, and are proved equal to the `Batch` functions.
- `controller.dfy` (module `Controller`): `Backend`, which is either backend
  and stands for the controller's `StorageService` reference. It also holds
  the part filtering, the summaries, and the seven endpoint methods.

Inputs the code takes from its environment are parameters of the model:

- The UUID token is a parameter. A single upload takes one token. A batch
  upload takes `tokens[i]` for item `i`. Tokens are not assumed distinct, and
  the code does not check for collisions either. A stored name that repeats
  gets the last write, as `REPLACE_EXISTING` and the blob `create` call do.
- An IOException while storing an upload is a parameter: `ioError` for a
  single upload, and `ioErrors[i]` (the exception's message) for batch item
  `i`.
- An exception caught inside the `loadMultiple` and `deleteMultiple` loops is
  `faults[i]`. That item then maps to null or `false`, and the model assumes it
  changes nothing in the store.

Behaviour that is modelled as written:

- The cloud `delete` of a missing name logs, then dereferences the null blob.
  It therefore fails with a NullPointerException, not with the
  IllegalArgumentException "File not found: …" that the local backend throws.
  `CloudStorage.CloudStorageService.Delete` states this, and so does
  `Controller.Delete`: the cloud case is not mapped to 404.
- In the four batch endpoints, the `BAD_REQUEST` for an empty input is thrown
  inside the `try`. The catch-all `catch (Exception e)` catches it and replaces
  it with a 500.
- `deleteMultiple` keeps the last `put` for each name. A stored name that is
  listed twice therefore ends up `false`, because the second attempt finds it
  gone (`Batch.DeleteAllWithoutFaults`).
- The batch info endpoint's `totalFiles` counts the input list with its
  duplicates. It can exceed the number of entries it returns
  (`Controller.DistinctAtMost`).

`CloudStorageService` is annotated `@Primary`. In the application as
configured, the controller's `StorageService` is therefore always the cloud
backend. The `Local` case of `Controller.Backend` is never used by the running
application, and neither is the 404 branch of `Controller.Delete` for a missing
name. The model keeps both cases, since the controller is written against the
interface.

## Model

| member | source | states |
|---|---|---|
| `Storage.LastIndexOf` | src/main/java/lk/ijse/eca/cloud_storage/service/impl/FileStorageService.java:36 | The result is absent iff the character does not occur. Otherwise it is an index holding the character, with no occurrence after it. |
| `Storage.Rejection` | src/main/java/lk/ijse/eca/cloud_storage/service/impl/FileStorageService.java:24-31 | A file is accepted iff it is non-empty and its content type is present and starts with "image/". An empty file is always rejected with "File is empty", whatever its type. Any other rejection is "Only image files are allowed". |
| `Storage.Extension` | src/main/java/lk/ijse/eca/cloud_storage/service/impl/FileStorageService.java:33-37 | The extension is "" iff the name is null or has no '.'. Otherwise it is a suffix of the name that starts with '.' and has no other '.', i.e. the suffix from the last '.'. |
| `Storage.SavedFilename` | src/main/java/lk/ijse/eca/cloud_storage/service/impl/FileStorageService.java:39 | The saved name starts with the token and ends with the extension, and is exactly as long as the two together. |
| `Storage.SavedFilenameKeepsExtension` | src/main/java/lk/ijse/eca/cloud_storage/service/impl/FileStorageService.java:33-39 | The saved name starts with the token and ends with the original's extension. When the token has no '.', the saved name's own extension equals the original's. |
| `Batch.UploadAll` | src/main/java/lk/ijse/eca/cloud_storage/service/impl/FileStorageService.java:91-138 | A batch upload yields exactly one result per input file. |
| `Batch.ItemResult` | src/main/java/lk/ijse/eca/cloud_storage/service/impl/FileStorageService.java:97-134 | An item keeps its original name. It succeeds iff it passes validation and storing raises no IOException, and then carries `SavedFilename`. A rejection carries the validation message, and an IOException carries "Failed to store file: <msg>". |
| `Batch.UploadAllResults` | src/main/java/lk/ijse/eca/cloud_storage/service/impl/FileStorageService.java:94-136 | Result i depends only on file i: "File is empty", then "Only image files are allowed", then "Failed to store file: <msg>", else success with the saved name. The store and earlier failures do not affect it. |
| `Batch.UploadAllUntouched` | src/main/java/lk/ijse/eca/cloud_storage/service/impl/FileStorageService.java:97-112 | A key that no item writes keeps its presence and its content. Rejected items, and items whose IOException is modelled as writing nothing, leave the store unchanged. |
| `Batch.UploadAllLastWrite` | src/main/java/lk/ijse/eca/cloud_storage/service/impl/FileStorageService.java:120-128 | A key that item i writes, and no later item, ends up holding file i's bytes (the last write replaces earlier ones). |
| `Batch.LoadAll` | src/main/java/lk/ijse/eca/cloud_storage/service/impl/FileStorageService.java:142-159 | The result's keys are exactly the input names. |
| `Batch.LoadAllAt` | src/main/java/lk/ijse/eca/cloud_storage/service/impl/FileStorageService.java:145-157 | A name's value is decided by its last occurrence: null if that lookup throws, else its content, or null when the name is not stored. |
| `Batch.LoadAllWithoutFaults` | src/main/java/lk/ijse/eca/cloud_storage/service/impl/FileStorageService.java:147-153 | When no lookup throws, each name's value is non-null iff the name is stored, and is then its content. |
| `Batch.DeleteAll` | src/main/java/lk/ijse/eca/cloud_storage/service/impl/FileStorageService.java:163-181 | The result's keys are exactly the input names. |
| `Batch.DeleteAllStore` | src/main/java/lk/ijse/eca/cloud_storage/service/impl/FileStorageService.java:166-179 | The new store is the old one minus every name whose deletion did not throw. Nothing else changes. |
| `Batch.DeleteAllAt` | src/main/java/lk/ijse/eca/cloud_storage/service/impl/FileStorageService.java:166-179 | A name's flag comes from its last occurrence. It is true iff that attempt did not throw, the name was stored, and no earlier occurrence had already deleted it. |
| `Batch.DeleteAllWithoutFaults` | src/main/java/lk/ijse/eca/cloud_storage/service/impl/FileStorageService.java:168-174 | When nothing throws, no listed name remains. A flag is true iff the name was stored and is listed exactly once, so an existing duplicated name ends up false. |
| `FileStorage.FileStorageService.Upload` | src/main/java/lk/ijse/eca/cloud_storage/service/impl/FileStorageService.java:22-49 | An empty file is rejected with "File is empty" before the content type is looked at. A null or non-image type is rejected with "Only image files are allowed". Both rejections leave the store unchanged. An IOException gives a RuntimeException and is modelled as writing nothing. On success, exactly the key token+extension is set to the bytes and that key is returned. |
| `FileStorage.FileStorageService.ListAll` | src/main/java/lk/ijse/eca/cloud_storage/service/impl/FileStorageService.java:51-61 | Returns every stored name exactly once (no duplicates, length = number of files), with no order promised. |
| `FileStorage.FileStorageService.Load` | src/main/java/lk/ijse/eca/cloud_storage/service/impl/FileStorageService.java:63-75 | Returns the stored content, or fails with IllegalArgument("File not found: <name>"). It changes nothing. |
| `FileStorage.FileStorageService.Delete` | src/main/java/lk/ijse/eca/cloud_storage/service/impl/FileStorageService.java:77-88 | Removes exactly that key, or fails with IllegalArgument("File not found: <name>") and leaves the store unchanged. |
| `FileStorage.FileStorageService.UploadMultiple` | src/main/java/lk/ijse/eca/cloud_storage/service/impl/FileStorageService.java:90-139 | The new store and the results are `UploadAll` of the old store. There is one result per file, in order, and result i is `ItemResult` of file i. |
| `FileStorage.FileStorageService.LoadMultiple` | src/main/java/lk/ijse/eca/cloud_storage/service/impl/FileStorageService.java:141-160 | The result equals `LoadAll` of the store, its keys are the input names, and the store is not modified. |
| `FileStorage.FileStorageService.DeleteMultiple` | src/main/java/lk/ijse/eca/cloud_storage/service/impl/FileStorageService.java:162-181 | The new store and the flags are `DeleteAll` of the old store. The store loses exactly the names attempted, and the keys are the input names. |
| `CloudStorage.CloudStorageService.Upload` | src/main/java/lk/ijse/eca/cloud_storage/service/impl/CloudStorageService.java:34-62 | Same validation order and messages as the local backend, with the store unchanged on rejection or IOException. On success the blob token+extension holds the bytes and nothing else changes. |
| `CloudStorage.CloudStorageService.ListAll` | src/main/java/lk/ijse/eca/cloud_storage/service/impl/CloudStorageService.java:64-71 | Returns every blob name exactly once, with no order promised. |
| `CloudStorage.CloudStorageService.Load` | src/main/java/lk/ijse/eca/cloud_storage/service/impl/CloudStorageService.java:73-81 | Returns the stored bytes, or fails with IllegalArgument("File not found: <name>") when the content is absent. |
| `CloudStorage.CloudStorageService.Delete` | src/main/java/lk/ijse/eca/cloud_storage/service/impl/CloudStorageService.java:83-92 | An existing name is removed. A missing name fails with a NullPointerException, not a "not found" IllegalArgumentException, and the bucket is unchanged. |
| `CloudStorage.CloudStorageService.UploadMultiple` | src/main/java/lk/ijse/eca/cloud_storage/service/impl/CloudStorageService.java:94-144 | Same as the local batch upload: `UploadAll` of the old bucket, with one result per input in order and the same three failure messages. |
| `CloudStorage.CloudStorageService.LoadMultiple` | src/main/java/lk/ijse/eca/cloud_storage/service/impl/CloudStorageService.java:146-164 | Equals `LoadAll`: every input name maps to its bytes, or to null when it is missing or the read throws. The bucket is never modified. |
| `CloudStorage.CloudStorageService.DeleteMultiple` | src/main/java/lk/ijse/eca/cloud_storage/service/impl/CloudStorageService.java:166-185 | Equals `DeleteAll`, checking existence before deleting. A throw yields false and deletes nothing. |
| `Controller.NonEmpty` | src/main/java/lk/ijse/eca/cloud_storage/controller/ImageController.java:51 | A part is kept iff it is present in the list and non-empty (both directions), and never more parts come out than went in. |
| `Controller.NonEmptyCounts` | src/main/java/lk/ijse/eca/cloud_storage/controller/ImageController.java:51 | Every present, non-empty part is kept exactly as often as the list holds it, and no other part is kept: nothing is deduplicated or invented. |
| `Controller.NonEmptyParts` | src/main/java/lk/ijse/eca/cloud_storage/controller/ImageController.java:49-52 | A part is kept iff some value list of the multi-file map holds it and it is non-empty. |
| `Controller.KeepNonEmpty` | src/main/java/lk/ijse/eca/cloud_storage/controller/ImageController.java:51 | The loop over one value list yields `NonEmpty` of that list. |
| `Controller.CollectFiles` | src/main/java/lk/ijse/eca/cloud_storage/controller/ImageController.java:47-53 | The nested filtering loop yields `RequestParts`, which is empty for a null request or map. No kept part is empty. |
| `Controller.NoEmptyFileFailures` | src/main/java/lk/ijse/eca/cloud_storage/controller/ImageController.java:104-116 | Since the endpoint drops empty parts, no batch result it receives can be the "File is empty" failure. |
| `Controller.SuccessCount` | src/main/java/lk/ijse/eca/cloud_storage/controller/ImageController.java:118 | The number of "success" results is at most the number of results. |
| `Controller.CountsPartition` | src/main/java/lk/ijse/eca/cloud_storage/controller/ImageController.java:118-119 | The success count and the failed count add up to the number of results. |
| `Controller.SavedNames` | src/main/java/lk/ijse/eca/cloud_storage/controller/ImageController.java:60-65 | There are as many saved names as success results. A name is listed iff some success result saved it. |
| `Controller.CollectSaved` | src/main/java/lk/ijse/eca/cloud_storage/controller/ImageController.java:60-65 | The collecting loop yields `SavedNames` of the results, in result order. |
| `Controller.AllFailedSavesNothing` | src/main/java/lk/ijse/eca/cloud_storage/controller/ImageController.java:55-67 | When every item failed, the 201 reply carries an empty list of names. |
| `Controller.Summarize` | src/main/java/lk/ijse/eca/cloud_storage/controller/ImageController.java:116-125 | totalFiles is the number of results. successCount is the number of saved names. The failedCount, computed as the difference, equals the number of "failed" results. |
| `Controller.SummarizeDeletes` | src/main/java/lk/ijse/eca/cloud_storage/controller/ImageController.java:179-188 | totalFiles is the map's size, successCount the number of true flags, and failedCount (the difference) the number of false flags. |
| `Controller.DeleteTotalIsDistinctNames` | src/main/java/lk/ijse/eca/cloud_storage/controller/ImageController.java:179-185 | The batch delete's totalFiles is the number of distinct input names. |
| `Controller.DescribeAll` | src/main/java/lk/ijse/eca/cloud_storage/controller/ImageController.java:207-223 | One entry per loaded name, each name once. "exists" is true iff the value is non-null, and the size is the content's length. |
| `Controller.Describe` | src/main/java/lk/ijse/eca/cloud_storage/controller/ImageController.java:210-221 | An entry carries its name. "exists" is true iff the value loaded, and a size is present iff it exists, equal to the content length. |
| `Controller.DistinctAtMost` | src/main/java/lk/ijse/eca/cloud_storage/controller/ImageController.java:206-226 | A list has at most as many distinct names as entries, and strictly fewer iff some name repeats. So the info endpoint's totalFiles exceeds its entry count exactly on duplicates. |
| `Controller.Upload` | src/main/java/lk/ijse/eca/cloud_storage/controller/ImageController.java:44-71 | No non-empty part gives 400 "No files provided" and the store is unchanged. Otherwise 201 with the saved names of the success results, and the store is `UploadAll` of the old one. |
| `Controller.GetImage` | src/main/java/lk/ijse/eca/cloud_storage/controller/ImageController.java:78-89 | A stored name gives 200 with its bytes. A missing name's IllegalArgumentException gives 404 with "File not found: <name>". |
| `Controller.Delete` | src/main/java/lk/ijse/eca/cloud_storage/controller/ImageController.java:91-99 | A stored name gives 204 and is removed. A missing name gives 404 on the local backend, but an unhandled NullPointerException (not 404) on the cloud backend. |
| `Controller.UploadMultiple` | src/main/java/lk/ijse/eca/cloud_storage/controller/ImageController.java:101-132 | No non-empty part gives 500 wrapping the 400 "No files provided", since the 400 is caught by the catch-all. Otherwise 201 with the summary of `UploadAll`'s results. |
| `Controller.GetMultipleImages` | src/main/java/lk/ijse/eca/cloud_storage/controller/ImageController.java:134-169 | A null or empty list gives 500 wrapping the 400. Otherwise 200 with the archive entries: the names whose loaded value is non-null. |
| `Controller.ArchiveEntries` | src/main/java/lk/ijse/eca/cloud_storage/controller/ImageController.java:148-155 | A name enters the archive iff it is in the loaded map with a non-null value, and it then carries that value. |
| `Controller.ArchiveHoldsStoredNames` | src/main/java/lk/ijse/eca/cloud_storage/controller/ImageController.java:148-155 | When no read throws, the archive holds exactly the listed names that are stored, with their content. |
| `Controller.DeleteMultiple` | src/main/java/lk/ijse/eca/cloud_storage/controller/ImageController.java:171-195 | A null or empty list gives 500 wrapping the 400, with the store unchanged. Otherwise 200 with the summary of `DeleteAll`'s flags, and the store is `DeleteAll`'s. |
| `Controller.GetMultipleImagesInfo` | src/main/java/lk/ijse/eca/cloud_storage/controller/ImageController.java:198-234 | A null or empty list gives 500 wrapping the 400. Otherwise 200, where totalFiles is the list's length and there is one entry per distinct name, describing its loaded value. |

## Left out

- Filesystem and cloud-client I/O: path resolution and normalisation,
  `Files.copy`, the storage client, and UUID generation. Names are flat keys,
  and tokens and failures are parameters. No protection against path
  traversal is claimed, because the code performs none.
- `FileStorage.FileStorageService.ListAll`: the IOException when the
  directory is missing ("Failed to list files") is not modelled. The model's
  store always exists, since the directory is created at startup. Every entry
  is treated as a regular file.
- `FileStorage.FileStorageService.Load`: the "Failed to load file"
  RuntimeException is not modelled. It arises only from a malformed file URL,
  which flat names cannot produce.
- `FileStorage.FileStorageService.Delete`: the "Failed to delete file"
  RuntimeException from a failing `Files.delete` is not modelled.
- `FileStorage.FileStorageService.DeleteMultiple` and
  `CloudStorage.CloudStorageService.DeleteMultiple`: a deletion that throws
  midway is modelled as deleting nothing.
- `FileStorage.FileStorageService.Upload` and
  `FileStorage.FileStorageService.UploadMultiple`: a failed copy is modelled
  as writing nothing. `Files.copy` with `REPLACE_EXISTING` first removes an
  existing target and then streams into a new file. An IOException midway can
  therefore leave a partial file under the saved name, or remove an older file
  of the same name. The model does not capture either. In
  `CloudStorage.CloudStorageService.Upload` the IOException can only come from
  `getInputStream`, before the client is called, so there the model is exact.
- `CloudStorage.CloudStorageService.UploadMultiple`: an IOException raised by
  `createFrom` while it streams the bytes is modelled as writing nothing.
  Whether the client leaves a partial blob behind is not captured.
- `FileStorage.FileStorageService.Upload`,
  `FileStorage.FileStorageService.UploadMultiple`,
  `CloudStorage.CloudStorageService.Upload` and
  `CloudStorage.CloudStorageService.UploadMultiple`: only an IOException is
  modelled as a storage failure. Unchecked exceptions are not modelled: a
  path's `InvalidPathException` or the cloud client's `StorageException`. In
  the source they escape. A single upload then fails with that exception
  instead of "Failed to store file". POST /images answers 400 for the
  `InvalidPathException`, because it is an IllegalArgumentException. In a
  batch, such an exception aborts the loop and keeps the earlier writes, and
  `/batch` answers 500.
- `CloudStorage.CloudStorageService.Delete`: the log line printed for a
  missing blob is output only and is not modelled.
- `CloudStorage.CloudStorageService.Load`: the model follows the code's null
  check for absent content. What the real client does for a missing object is
  not part of this model.
- Content-type guessing (`URLConnection`) in `getImage` and in the info
  endpoint is a foreign library call. The info entries carry no content type,
  and their "Failed to read file info" branch is not modelled.
- ZIP packaging in the retrieve endpoint is not modelled. Its reply is the map
  of entries the archive would contain.
- `Controller.UploadMultiple`, `Controller.GetMultipleImages`,
  `Controller.DeleteMultiple` and `Controller.GetMultipleImagesInfo`: the 500's
  reason assumes Spring's `ResponseStatusException` message format
  (`400 BAD_REQUEST "<reason>"`). Spring is not part of this model.
- The `listAll` endpoint is a plain pass-through to the service.
- HTTP routing, multipart parsing, CORS and Spring bootstrapping are not
  modelled. Neither is the translation of an escaped exception into a 500
  response by the framework.
- The `StorageService` interface declares only four of the seven operations.
  The model dispatches all seven through `Backend`.
- Java's `int` and `long` counts are unbounded integers here, since no count
  can reach their limits.
