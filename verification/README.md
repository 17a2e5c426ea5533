# SmartSort AI, modelled in Dafny

SmartSort AI is a browser application that tidies a folder on the user's own
disk. The user picks a directory through the File System Access API. The
application walks it into a flat list of file records and sends the file
names to a remote language model, which suggests a category, a target folder
and a sensitivity flag for each. After a confirmation and a write-permission
prompt, it moves every classified file into its suggested folder and walks
the directory again.

This project models the logic of that application and proves what it
guarantees:

- `types.dfy`: the data model. It holds the storage tree behind the handles,
  the file record, the classification result, and the organised file with
  its six-valued status.
- `text.dfy`: ASCII versions of `trim`, `toLowerCase`, `includes`,
  `String(n)` and `padStart`, and the UTF-16 `length` the key check uses.
- `paths.dfy`: the `/`-joined relative paths and `split('/')`.
- `storage.dfy`: the directory tree and the handle primitives
  (`getDirectoryHandle`, `getFileHandle`, `getFile`, the write stream,
  `move`, `removeEntry`). Each primitive is a pure step function with failure
  injection. A `Volume` class holds the live tree and the log of the calls
  that `moveFile` makes on it. The walker's `values()` and `getFile()` calls
  are not logged.
- `filesystem.dfy`: the file-system service. It covers the permission gate,
  the recursive walker (a method proved against a depth-first flattening)
  and `moveFile` (methods proved layer by layer against pure functions of
  the tree).
- `relocation.dfy`: what a relocation guarantees. This includes `mkdir -p`
  resolution, the atomic move, the copy-and-delete fallback, no rollback,
  and the loss of a file moved into its own folder.
- `fileicon.dfy`, `apikeymodal.dfy`, `statspanel.dfy`: the decision logic
  of the three small components. These are the icon classifier, the API-key
  form and the category histogram.
- `gemini.dfy`: the visible behaviour of the wrapper around the remote
  classifier. The classifier itself is a function parameter.
- `apikeystore.dfy`: the daily expiry of the saved key, over a key/value
  store with the current day as a parameter.
- `records.dfy`: the list operations the dashboard is built from. These are
  the pending names, the merge by name, the status updates of the execute
  pass, the rescan, the search filter and the grouping.
- `dashboard.dfy`: the dashboard component as a class. Its handlers select a
  folder, classify, execute and rescan.

The browser's answers are parameters: the picked folder, the confirmation
dialog, the permission answers, the remote model and the current day.

Three behaviours of the code are modelled as written:

- A target segment made only of spaces becomes a directory name. Only empty
  segments are dropped.
- `handleAnalyze` calls the classifier wrapper even when no file is pending.
  The wrapper then returns no results without a request.
- A rescan that throws after an execute pass leaves `isScanning` set. It
  also leaves the statuses of the pass in place, because nothing catches
  that failure.

## Model

| member | source | states |
|---|---|---|
| Types.Kind | types.ts:2-8 | A handle is a file handle exactly when its node is a file, and a directory handle exactly when it is a directory. |
| Text.TrimStart | components/ApiKeyModal.tsx:15 | The result is a suffix of the input that does not start with whitespace, and everything dropped is whitespace. |
| Text.TrimEnd | components/ApiKeyModal.tsx:26 | The result is a prefix of the input that does not end with whitespace, and everything dropped is whitespace. |
| Text.TrimEmptyIffBlank | components/ApiKeyModal.tsx:15 | A string trims to the empty string exactly when it is all whitespace. |
| Text.TrimUntouched | components/ApiKeyModal.tsx:26 | A string that neither starts nor ends with whitespace is its own trim. |
| Text.Utf16Length | components/ApiKeyModal.tsx:20 | `length` counts UTF-16 code units: between one and two per character, exactly one per character when all lie in the Basic Multilingual Plane, and exactly two when none does. |
| Text.Utf16LengthConcat | components/ApiKeyModal.tsx:20 | The length of a concatenation is the sum of the lengths. |
| Text.Lower | components/Dashboard.tsx:165 | Lower-casing keeps the length and maps each character on its own. |
| Text.DecimalInjective | components/Dashboard.tsx:16 | Different numbers have different decimal strings. |
| Text.PadStart2Decimal | components/Dashboard.tsx:16 | Zero-padding a number below 100 gives two characters and keeps numbers apart. |
| Paths.Split | services/fileSystem.ts:90 | `split('/')` never returns an empty list. |
| Paths.GlueSplit | services/fileSystem.ts:90 | Joining the pieces of `split('/')` with `/` gives the string back, and no piece contains a slash. |
| Paths.SplitAtSlash | services/fileSystem.ts:90 | Splitting `a + "/" + b` is splitting `a` followed by splitting `b`. |
| Paths.JoinPathEmpty | services/fileSystem.ts:21 | The walker's relative path is empty exactly at the root. |
| Paths.SplitJoinPath | services/fileSystem.ts:21 | Splitting the relative path the walker builds for a location gives that location back. |
| Paths.SegmentsShape | services/fileSystem.ts:53 | No target segment is empty, and none holds a slash. |
| Paths.DropEmptyConcat | services/fileSystem.ts:53 | Dropping the empty pieces distributes over concatenation, so every non-empty piece is kept, in order. |
| Paths.SegmentsAtSlash | services/fileSystem.ts:53 | The segments of `a + "/" + b` are the segments of `a` followed by those of `b`. |
| Paths.SegmentsNoSlash | services/fileSystem.ts:53 | A slash-free target gives no segment when empty and itself as the one segment otherwise. With SegmentsAtSlash this fixes the segments of every target, such as `Docs//2024/`. |
| Paths.SegmentsOfEmpty | services/fileSystem.ts:53 | An empty target, or one of slashes only, resolves to the root. |
| Paths.SegmentsKeepSpaces | services/fileSystem.ts:53 | A target made of spaces is kept as a directory name. |
| Paths.SegmentsKeepInnerSpaces | services/fileSystem.ts:53 | A space-only segment between others is kept too. |
| Paths.SegmentsOfJoinPath | services/fileSystem.ts:53 | The segments of a relative path built from valid names are exactly those names. |
| Storage.Find | types.ts:20-21 | The index returned is the first entry with the name, or the length when there is none. |
| Storage.GetAppend | types.ts:20 | Following `p + q` is following `p`, then `q` from where `p` leads. |
| Storage.PutAt | types.ts:20-22 | After a node is replaced, paths through it lead into the new node. |
| Storage.PutDivergent | types.ts:20-22 | Replacing a node leaves every path that neither contains nor is contained in its path. |
| Storage.PutWellFormed | types.ts:20-22 | Replacing a node by a well-formed one keeps names unique in every directory. |
| Storage.DirectoryStepSpec | types.ts:20 | `getDirectoryHandle` makes one call and hands back the child's path, which is a directory afterwards. The tree changes only on a successful create. No file changes, no directory is lost, and the tree stays well formed. |
| Storage.FileHandleStepSpec | types.ts:21 | `getFileHandle` hands back the child's path, which holds a file afterwards. An existing file is left as it is, no other file changes, and a failure or a lookup without create changes nothing. |
| Storage.ReadStepSpec | types.ts:12 | `getFile` changes nothing and returns what is stored at the path. |
| Storage.WriteStepSpec | types.ts:13 | Writing succeeds exactly when the file exists and the write is not failed. It then replaces exactly that file's contents and type and stamps the clock. A failed write changes nothing. |
| Storage.MoveStepSpec | types.ts:14-15 | A successful `move` leaves the file's data unchanged under its name in the destination. A failed move changes nothing. |
| Storage.MoveStepFrame | types.ts:14-15 | A successful `move` into another directory leaves no file at the old path. Either way no file changes except at the old path and the new one, and no directory is lost. |
| Storage.RemoveStepSpec | types.ts:22 | After `removeEntry` the name no longer resolves in that directory, no file outside it changes, and a failure changes nothing. |
| Storage.RemoveFileFrame | types.ts:22 | Removing a file changes no other file and keeps every directory. |
| Storage.DetachFile | types.ts:22 | Dropping a file from its directory empties its path, changes no other file, keeps exactly the same directories and keeps the tree well formed. |
| Storage.SetFileFrame | types.ts:21 | Setting a file in a directory, where no directory of that name lies, changes no other file and keeps every directory. |
| Storage.MoveStepWellFormed | types.ts:14-15 | A move keeps the tree well formed and the root a directory. |
| Storage.Volume.GetDirectoryHandle | types.ts:20 | The live call agrees with the step function in result, tree and log. |
| Storage.Volume.GetFileHandle | types.ts:21 | The live call agrees with the step function in result, tree and log. |
| Storage.Volume.GetFile | types.ts:12 | The live call agrees with the step function in result, tree and log. |
| Storage.Volume.Write | types.ts:13 | The live call agrees with the step function in result, tree and log. |
| Storage.Volume.Move | types.ts:14-15 | The live call agrees with the step function in result, tree and log. |
| Storage.Volume.RemoveEntry | types.ts:22 | The live call agrees with the step function in result, tree and log. |
| FileSystem.PermissionMode | services/fileSystem.ts:4 | The mode is read-write exactly when read-write is asked for. |
| FileSystem.VerifyPermissionSpec | services/fileSystem.ts:3-12 | The gate asks for read-write exactly when asked to and prompts at most once. It prompts exactly when the query is not granted, and grants exactly when the query or the prompt grants. |
| FileSystem.ScanDirectory | services/fileSystem.ts:14-43 | The walk succeeds exactly when no enumeration or read below the directory throws. On success it returns the depth-first flattening of the file leaves. |
| FileSystem.ScanEntry | services/fileSystem.ts:20-40 | One loop iteration yields the flattening of that entry, or an injected error exactly when something under it throws. |
| FileSystem.FlattenCount | services/fileSystem.ts:20-42 | There is one record per file leaf, and directories yield none of their own. |
| FileSystem.FlattenIds | services/fileSystem.ts:27 | Ids are handed out consecutively, so one scan never repeats an id. |
| FileSystem.FlattenPaths | services/fileSystem.ts:21 | Every record's relative path is the walker's `/`-joined path of a location below the scanned directory, and the record's name is that location's last step. |
| FileSystem.FlattenSound | services/fileSystem.ts:26-34 | Every record points at a file that exists and copies its size and time. The type is `unknown` when the file's type is empty. |
| FileSystem.FlattenComplete | services/fileSystem.ts:20-42 | Every file below the scanned entries gets a record at its location. |
| FileSystem.ScanComplete | services/fileSystem.ts:14-43 | Every file of the picked directory has a record. |
| FileSystem.ScanSound | services/fileSystem.ts:26-34 | Every record of a scan of the root points at a file that is there and describes it. |
| FileSystem.ScanPathSplits | services/fileSystem.ts:21 | Splitting a record's path gives its location back, and its name is the last step. |
| FileSystem.FlattenRenumber | services/fileSystem.ts:20-42 | Scanning the same tree again yields the same records in the same order, apart from the ids. |
| FileSystem.WalkShape | services/fileSystem.ts:55-57 | A walk makes one `getDirectoryHandle` call per segment, in order. On success it ends at the directory reached by all of them. |
| FileSystem.WalkFrame | services/fileSystem.ts:55-57 | A walk never changes a file and never loses a directory. Without `create` it changes nothing. |
| FileSystem.WalkReaches | services/fileSystem.ts:55-57 | On success the reached path is a directory. On failure every directory reached before the failure is still there. |
| FileSystem.WalkSpec | services/fileSystem.ts:53-57 | The walk is `mkdir -p` with `create` and a plain lookup without it. There is no rollback on failure. |
| FileSystem.ResolveDirectories | services/fileSystem.ts:54-57 | The loop over the segments agrees with the walk function in result, tree and log. |
| FileSystem.MoveFile | services/fileSystem.ts:46-104 | The method agrees with `Relocate` in result, tree and log. Its properties are the Relocation lemmas. |
| FileSystem.PlaceFile | services/fileSystem.ts:59-77 | Trying the optional atomic move, then falling back, agrees with `Place`. |
| FileSystem.CopyAndDelete | services/fileSystem.ts:73-96 | The read, create, write and remove sequence agrees with `Fallback`. |
| FileSystem.CreateAndWrite | services/fileSystem.ts:74-96 | Creating the same-named file, writing and removing agrees with `CopyTo`. |
| FileSystem.DeleteOriginal | services/fileSystem.ts:90-96 | Walking the original's path without create and removing the entry agrees with `RemoveOriginal`. |
| Relocation.ParentOfScanned | services/fileSystem.ts:90-91 | For a scanned record, the path minus its last piece is the file's parent directory. |
| Relocation.WalkNeitherCopiesNorRemoves | services/fileSystem.ts:55-57 | Resolving directories neither writes nor removes anything. |
| Relocation.RemoveOriginalSpec | services/fileSystem.ts:90-96 | On success the original's location is empty and a removal was made. On failure nothing changed. No file outside the original's location changes either way. When the original is there, no other file changes and no directory is lost. |
| Relocation.WriteThenRemoveSpec | services/fileSystem.ts:75-96 | After a write then a removal, the written file holds the source's data unless it lies at the original's location, and the original is gone. A failure after the write keeps the copy, and no failure loses a directory. When the original exists, no file other than it and the written one changes, and no directory is lost. |
| Relocation.CopyToSpec | services/fileSystem.ts:74-96 | After creating or opening the same-named file in the target, writing and removing: on success the original is gone and the target file holds the source's data, overwriting whatever was there, unless it lies at the original's location. A failure after the write keeps both files, and no failure loses a directory. When the original exists, no file other than it and the target file changes, and no directory is lost. |
| Relocation.FallbackSpec | services/fileSystem.ts:73-103 | On success the source existed, a copy and a removal were made, and the original location is empty. The target holds the source's data, whatever it held before, unless the target is the source's own folder. A failure after the write leaves both files. Success or failure, no file other than the original and the target file changes, and no directory is lost. |
| Relocation.NotOwnFile | services/fileSystem.ts:74 | Outside the file's own folder, the copy's location does not lie below the original's. |
| Relocation.TargetWalkSpec | services/fileSystem.ts:53-57 | On success the target is the list of non-empty segments, a directory afterwards. It is reached with one call per segment, touches no file and neither writes nor removes. |
| Relocation.PlaceAtomic | services/fileSystem.ts:60-66 | When the atomic move succeeds, the result is true with no write and no removal, and the file's data sits under its name in the target. Outside its own folder the file is gone from its old place. No other file changes and no directory is lost. |
| Relocation.RelocateAtomic | services/fileSystem.ts:46-70 | If the handle offers `move` and it succeeds, `moveFile` reports success, copies nothing, removes nothing, and the data is in the target under its name. Unless the target is the file's own folder, the old place is empty. No other file changes and no directory is lost. |
| Relocation.RelocateFallback | services/fileSystem.ts:67-103 | Otherwise a successful `moveFile` wrote a copy and removed the original. The target holds the source's data unless it is the source's own folder. No file other than the original and the target file changes, and no directory is lost. |
| Relocation.RelocateNoRollback | services/fileSystem.ts:100-103 | When `moveFile` fails after resolving the target, the directories it created stay. |
| Relocation.RelocateIntoOwnParent | services/fileSystem.ts:74-96 | Moving a file into its own folder by the fallback reports success yet leaves no file at its name. |
| Relocation.OwnParentExample | services/fileSystem.ts:72-98 | The loss happens: with no fault and no `move`, relocating a top-level file to an empty target reports success, and no file is left at its name. |
| FileIcon.AfterLastDot | components/FileIcon.tsx:14 | The last piece after splitting on `.` is the longest dot-free suffix. |
| FileIcon.ExtensionAfterDot | components/FileIcon.tsx:14 | The extension of `base.ext` is `ext` lower-cased. |
| FileIcon.ExtensionWithoutDot | components/FileIcon.tsx:14 | A name without a dot is its own extension, lower-cased. |
| FileIcon.IconForFollowsRules | components/FileIcon.tsx:11-36 | The chain of tests is the sensitivity check followed by the rule table tried in order: image, video, audio, archive, code, document. |
| FileIcon.FirstMatchingIsFirst | components/FileIcon.tsx:16-35 | In a table of distinct icons, the chosen icon is rule `k`'s exactly when rule `k` matches and no earlier rule does. The result is generic exactly when no rule matches. |
| FileIcon.FirstMatchingNotShield | components/FileIcon.tsx:16-35 | The rule table never yields the sensitive icon. |
| FileIcon.IconForIsFirstRule | components/FileIcon.tsx:11-36 | The icon is the sensitive one exactly when the flag is set. Otherwise it is rule `k`'s exactly when rule `k` is the first match, with MIME prefix tests only for image, video and audio. It is generic exactly when nothing matches. |
| ApiKeyModal.ErrorFor | components/ApiKeyModal.tsx:15-25 | The error line is empty exactly when the key is accepted. |
| ApiKeyModal.ValidateSpec | components/ApiKeyModal.tsx:12-27 | Blank input is refused whatever its length. Non-blank input shorter than 20 UTF-16 code units is refused as invalid. Anything else is accepted as its trimmed form, which is non-empty and has no surrounding whitespace. |
| ApiKeyModal.AcceptedKeyMayBeShort | components/ApiKeyModal.tsx:20-26 | Some accepted key is shorter than 20 code units, because the length is checked before trimming. |
| ApiKeyModal.AstralKeyAccepted | components/ApiKeyModal.tsx:20 | The length is JavaScript's: ten characters outside the Basic Multilingual Plane make 20 code units and are accepted. |
| ApiKeyModal.PaddedKeyAccepted | components/ApiKeyModal.tsx:20-26 | A key padded with one space on each side is accepted as the bare key once the padded text is long enough. |
| ApiKeyModal.Form.OnChange | components/ApiKeyModal.tsx:51-54 | Typing replaces the text and clears the error. |
| ApiKeyModal.Form.HandleSubmit | components/ApiKeyModal.tsx:12-27 | Submitting sets the error line for the verdict. It calls `onSave` exactly once with the trimmed key when accepted, and never otherwise. |
| StatsPanel.Find | components/StatsPanel.tsx:16 | The dictionary lookup finds the first slice with the name, or none. |
| StatsPanel.CategoryData | components/StatsPanel.tsx:12-19 | The chart data has each category once, covers exactly the categories met, counts each file once in its category (`Uncategorized` when missing or empty), and sums to the number of files. Every count is at least 1. |
| StatsPanel.TallyStep | components/StatsPanel.tsx:14-17 | One round of the loop keeps the histogram of the files counted so far. |
| StatsPanel.CountAppend | components/StatsPanel.tsx:15-16 | Adding a file adds one to its own category's count and nothing to the others. |
| StatsPanel.SensitiveCountSpec | components/StatsPanel.tsx:21 | The sensitive count is the number of files whose analysis flags them. Files without analysis do not count. |
| StatsPanel.Render | components/StatsPanel.tsx:11-23 | The panel renders nothing exactly for an empty list. Otherwise it shows the histogram and the sensitive count. |
| Gemini.Batch | services/geminiService.ts:16 | The batch is the first names of the list, at most 500 of them. |
| Gemini.AnalyzeFilesSpec | services/geminiService.ts:4-68 | Only an empty key is an error. An empty list gives no results. A failing or silent model gives no results. Any results are the model's answer to the first batch of a non-empty list. |
| Gemini.OnlyFirstBatchMatters | services/geminiService.ts:16 | Lists that agree on their first 500 names get the same answer. |
| ApiKeyStore.DateStringShape | components/Dashboard.tsx:14-17 | The date string is the year, a dash, the two-digit 1-based month, a dash and the two-digit day. |
| ApiKeyStore.DateStringInjective | components/Dashboard.tsx:14-17 | Different days have different date strings. |
| ApiKeyStore.ValidKeySpec | components/Dashboard.tsx:20-35 | A key is returned exactly when both entries are stored and the date is today's. A check either leaves the storage alone or removes exactly the two entries. |
| ApiKeyStore.SavedKeyValidSameDay | components/Dashboard.tsx:27-41 | A key saved today is returned today and kept. |
| ApiKeyStore.SavedKeyExpires | components/Dashboard.tsx:27-41 | A key saved on another day is refused, and both entries are removed. |
| ApiKeyStore.CheckIdempotent | components/Dashboard.tsx:27-35 | Checking twice on the same day is checking once. |
| ApiKeyStore.KeyStore.GetValidApiKey | components/Dashboard.tsx:27-35 | The method returns the valid key and leaves the storage as the check prescribes. |
| ApiKeyStore.KeyStore.SaveApiKey | components/Dashboard.tsx:38-41 | The storage holds the key and today's date afterwards. |
| Records.Filter | components/Dashboard.tsx:99 | A filter keeps at most the files it is given. |
| Records.FilterSpec | components/Dashboard.tsx:99 | The files kept are exactly those that pass the test. |
| Records.FilterConcat | components/Dashboard.tsx:99 | Filtering keeps the order, since it distributes over concatenation. |
| Records.PendingNamesSpec | components/Dashboard.tsx:99-100 | The names sent are those of the files without analysis, one per file, in collection order. |
| Records.FirstResult | components/Dashboard.tsx:106 | The position found is a result with the name, or the end. |
| Records.FirstResultIsFirst | components/Dashboard.tsx:106 | No earlier result carries the name. |
| Records.MergeSpec | components/Dashboard.tsx:105-108 | The merge keeps every record. A file with no result of its name is unchanged. A file whose first matching result is `k` gets result `k` and becomes ready. |
| Records.MergeSameName | components/Dashboard.tsx:105-108 | Files with the same name, in any folder, receive the same result. |
| Records.MergeReadyAnalysed | components/Dashboard.tsx:105-108 | The merge makes a record ready only together with its analysis, so every ready record keeps an analysis. |
| Records.ReadyFiles | components/Dashboard.tsx:131 | Every file selected for moving is ready and has an analysis. |
| Records.ReadyFilesSpec | components/Dashboard.tsx:131 | Exactly the ready files with an analysis are selected, in collection order. |
| Records.UpdatesShape | components/Dashboard.tsx:133-145 | Each ready file gets two updates in order, moving and then done or error. There is one such pair per file and no other update. |
| Records.ApplyLength | components/Dashboard.tsx:137-143 | Status updates keep every record and its analysis. |
| Records.ApplyUntouched | components/Dashboard.tsx:137-143 | A record whose id no ready file has keeps its status. |
| Records.ApplyTouched | components/Dashboard.tsx:137-143 | A record ends in the outcome of the last ready file with its id: done if the move succeeded, error if it threw. |
| Records.ApplyTwo | components/Dashboard.tsx:137-143 | One file's updates mark it moving and then give it its outcome. |
| Records.UpdatesNeverReady | components/Dashboard.tsx:137-143 | The execute pass never sets a record to ready. |
| Records.ApplyReadyAnalysed | components/Dashboard.tsx:137-143 | Updates that never set ready keep every ready record analysed. |
| Records.PriorAnalysisSpec | components/Dashboard.tsx:155-159 | The analysis re-attached to a name comes from the first earlier file with that name. A name not seen before gets none. |
| Records.RescannedSpec | components/Dashboard.tsx:154-161 | Every rescanned record is pending and keeps its scanned fields. Against an empty history it is the plain fresh list. |
| Records.ScannedReadyAnalysed | components/Dashboard.tsx:79 | A fresh or rescanned collection has no ready record without an analysis. |
| Records.LowerTwice | components/Dashboard.tsx:165 | Lower-casing twice is lower-casing once. |
| Records.FilteredFilesSpec | components/Dashboard.tsx:165 | A file is shown exactly when its lower-cased name contains the lower-cased filter. The filter's case does not matter, and an empty filter shows everything. |
| Records.GroupMembers | components/Dashboard.tsx:168-176 | A group holds exactly the files with its key. |
| Records.GroupedFiles | components/Dashboard.tsx:168-176 | There is one group per key met, `suggestedPath` or `Unsorted`. Each group is non-empty and holds its files in order. |
| Records.GroupsStep | components/Dashboard.tsx:170-174 | One more file keeps the grouping of the files met so far. |
| Dashboard.RelocateAll | components/Dashboard.tsx:133-145 | The pass records one outcome per ready file. Each move runs on the tree the previous one left. |
| Dashboard.RelocateAllFrom | components/Dashboard.tsx:133-145 | The pass from file `i` is file `i`'s move followed by the pass from `i + 1`. A failure does not stop later files. |
| Dashboard.ExecutePass | components/Dashboard.tsx:133-145 | The loop moves the ready files in order, once each, and agrees with `RelocateAll` in outcomes, tree and log. Its status updates are `Updates`, applied to the start collection. |
| Dashboard.Dashboard.Mount | components/Dashboard.tsx:54-63 | A non-empty key stored today is taken and the key form stays closed. Otherwise the key is cleared and the form opens. The storage is left as the expiry check prescribes. The collection, root, flags, filter and id counter stay, and every ready file keeps its analysis. |
| Dashboard.Dashboard.HandleApiKeySave | components/Dashboard.tsx:65-69 | The key is stored with today's date and used, and the form closes. The collection, root, flags, filter and id counter stay. |
| Dashboard.Dashboard.HandleSelectFolder | components/Dashboard.tsx:71-86 | A cancelled picker changes nothing but the scanning flag. Otherwise the folder becomes the root. If the walk succeeds, its records replace the collection, all pending, and the id counter moves past their ids; if it throws, the collection and the counter stay. Scanning ends clear. The key, its form, the other flags and the filter stay, and every ready file has an analysis. |
| Dashboard.Dashboard.HandleAnalyze | components/Dashboard.tsx:88-115 | An empty collection does nothing. Without a key only the key form opens and nothing is sent. Otherwise exactly the names of the un-analysed files are sent, in order, the answer is merged by name, and the analysing flag ends clear. On both early returns that flag stays. The root, key, other flags, filter and id counter stay, and every ready file has an analysis. |
| Dashboard.Dashboard.HandleExecute | components/Dashboard.tsx:117-163 | Without a root, confirmation or write permission, no record changes, nothing moves and no flag or counter changes. Otherwise the snapshot's ready files are moved in order, their statuses follow the outcomes, the rescan re-attaches analysis by name from the snapshot and the id counter moves past the new ids. The key, its form, the analysing flag and the filter stay either way. |
| Dashboard.Dashboard.RunPass | components/Dashboard.tsx:129-162 | The confirmed pass and rescan leave the state that `Executed` describes, including the id counter, and keep the key, its form, the analysing flag and the filter. |
| Dashboard.Dashboard.MoveReady | components/Dashboard.tsx:129-147 | The ready files of the snapshot move in order as `RelocateAll` says. The collection is the snapshot with the pass's updates applied, the moving flag ends clear, and every ready file keeps its analysis. |
| Dashboard.Dashboard.Rescan | components/Dashboard.tsx:150-162 | A successful walk replaces the collection with the rescanned records, moves the id counter past them and clears the scanning flag. A failed walk leaves the collection and the counter with the flag set. |

## Left out

- I/O is a parameter or a log entry. This covers the directory picker, `window.confirm`, `alert` and `console`. The picked folder is a `Volume` or null, the confirmation a boolean, and the permission answers a value.
- `crypto.randomUUID` is modelled as a counter. A scan numbers its records from `nextId`, so the ids of one scan are distinct.
- `async`/`await` and React state batching are not modelled. Handlers run to completion one at a time. The functional `setFiles` updates of the execute pass are applied in the order they are queued, so the transient `moving` status shows only in the list of updates.
- Rendering is not modelled: JSX, icons, colours, the pie chart and the sorted group display.
- `trim` and `toLowerCase` work on ASCII only. There is no Unicode whitespace and no Unicode case mapping.
- The remote model is a function parameter. The prompt, the request and the JSON parsing of its answer are left out, and an answer is taken as already-parsed results.
- `StatsPanel.CategoryData` and `Records.GroupedFiles` keep the dictionary's entries in insertion order. JavaScript objects list integer-like keys first, and inherited keys such as `constructor` are already present in a plain object; neither is modelled.
- The `if (!file.analysis) continue` guard of the execute loop is not modelled. The files it visits are already filtered to those with an analysis, so the guard never fires.
- File contents are abstract bytes. The swap file of `createWritable`, `seek` and `truncate` are left out, and a write through a writable is one step that replaces the contents.
- The `Date` object is not modelled. The current day is a parameter holding year, 0-based month and day.
- `localStorage` is a map from string to string, with no quota and no failures.
- Faults are fixed for the life of a `Volume`. The environment names a set of calls that throw, and the same call throws every time it is made. So in one execute pass, a `getDirectoryHandle` that throws for one file throws for every later file with the same target, and a failure that comes and goes between files is not modelled. Likewise a file the scan read cannot fail its fallback `getFile` by injection, and a directory that enumerated during the scan cannot fail during the rescan.
- The clock is one constant of the environment, so every write of a session stamps the same `lastModified`.
- `ScanDirectory` reads the volume without changing it, so its `values()` and `getFile()` calls do not enter the volume's log.
- The experimental `move` is offered or not per browser, as one flag of the environment. It is not decided per handle.
- App.tsx and the `SortMethod` type are not part of this model, because neither is used by the logic above.
