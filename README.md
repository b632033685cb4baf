# Kompakkt.Server uploads and log buffer, in Dafny

This project models two parts of the Kompakkt.Server backend.

**The upload handlers** (`Upload` in src/services/upload.ts):
- `UploadFinish` flattens a token's upload directory. It moves every file of the directory tree to the top of the directory under its own name, one `moveSync` at a time; a file already at the top is moved onto itself. A move that throws stops the handler, so nothing after it runs. This happens, for example, when two files share a name, because `moveSync` does not overwrite. When every move succeeds, the subdirectories are removed, shortest path first. The answer then lists the files of a second walk as `IFile` records sorted by size. For a model upload it lists only the `.ply`, `.obj` and `.babylon` files, and every file when there is none of them.
- `AddMetadata` and `UploadRequest` build the path a file is stored under.
- `AddMetadata` also builds the link it returns.

**The log buffer** (`Logger` in src/services/logger.ts):
- Every `info`, `log`, `warn` and `err` call formats one message and adds it to a set.
- The set is flushed once it holds `maxStackSize` (128) messages.

Files:
- `sequences.dfy` (module `Sequences`): the order-preserving `filter` of JavaScript arrays, and the stable `Array.prototype.sort` written as an insertion sort.
- `paths.dfy` (module `Paths`): Node's `path.basename`, `path.extname` and `path.join` for the paths a directory walk produces, and `String.prototype.replace` with a string pattern, which removes only the first occurrence.
- `upload.dfy` (module `Upload`): the handlers.
- `logger.dfy` (module `Logging`): the messages, and the buffer as a class with a `set<string>` field.

A directory walk (`klaw-sync`) is an input sequence of `Item(path, isDirectory, size)`. The file-system effects of a handler are returned as values, in the order the handler issues them: `Move(src, dest)` for each `moveSync`, a path for each `removeSync`. The response records and the metadata reply are returned as values too. The other inputs are parameters:
- whether the token directory exists;
- whether each `moveSync` of `UploadFinish` succeeds;
- whether the metadata move succeeded;
- the stored file's size;
- `Date.now()` and the slugified name;
- the log date;
- the text `util.inspect` renders for an object.

Strings are sequences of Unicode characters. JavaScript's `length` counts UTF-16 code units instead, so a character outside the Basic Multilingual Plane counts twice. The removal order sorts by that JavaScript length (`Paths.Utf16Length`).

`path.extname` follows Node's rule. It is the suffix of the basename from its last '.'. It is empty when the basename has no '.', when the basename's only '.' is its first character, and when the basename is "..".

The metadata link always starts with `models/`, whatever the upload directory is. Its default is `uploads` (src/services/configuration.ts:30). `Upload.MetadataLinkIsRelativeLink` proves that the link equals the stored file's path relative to the root exactly when the upload directory is `models`. How the server maps links to files is not part of this model, so this is recorded as a property, not as a defect.

## Model

| member | source | states |
|---|---|---|
| Sequences.Filter | src/services/upload.ts:96-98 | `filter` keeps exactly the elements that satisfy the predicate, and nothing longer than the input |
| Sequences.FilterCount | src/services/upload.ts:96-98 | every occurrence of a kept element survives, and no occurrence of a dropped one |
| Sequences.FilterAppend | src/services/upload.ts:76 | filtering distributes over concatenation |
| Sequences.FilterIsSubsequence | src/services/upload.ts:96-98 | the filtered list is an order-preserving subsequence of its input |
| Sequences.SortBy | src/services/upload.ts:118 | the sort's result is ordered by key and is a permutation of its input |
| Sequences.SortByMembers | src/services/upload.ts:118 | sorting keeps the length and exactly the elements of its input |
| Sequences.MapMembers | src/services/upload.ts:108-117 | `map` gives one result per element: each result is some element's image, and each element's image is present |
| Sequences.SortByStable | src/services/upload.ts:118 | the sort is stable: elements with one key keep their input order |
| Paths.BasenameIsLastSegment | src/services/upload.ts:79 | `basename` is the suffix after the last '/', holds no '/', and a '/' precedes it when it is not the whole path |
| Paths.Basename | src/services/upload.ts:79 | `path.basename`: the text after the last '/'; its properties are stated by `Paths.BasenameIsLastSegment` |
| Paths.NameExtension | src/services/upload.ts:110 | an extension is empty or starts with its only '.', and it is a proper suffix of the name; it is empty exactly when the name is ".." or has no '.' after its first character |
| Paths.NameExtensionOfSuffix | src/services/upload.ts:97 | a name ending in a suffix that starts with its only '.', such as `m.obj`, has that suffix as its extension |
| Paths.Extname | src/services/upload.ts:97 | `path.extname`: the extension of the basename; see `Paths.NameExtension` and `Paths.ExtnameOfBasename` |
| Paths.ExtnameOfPath | src/services/upload.ts:97 | the extension of a path is the suffix of its basename from the last '.', holds no other '.', and is empty exactly when the basename is ".." or has no '.' after its first character |
| Paths.Join | src/services/upload.ts:80 | `path.join` of a directory and a name: the two with one '/' between them; see `Paths.BasenameOfJoin` |
| Paths.Utf16Length | src/services/upload.ts:85 | `length` of a JavaScript string: one unit per character, two for a character above U+FFFF; see `Paths.Utf16LengthBounds` |
| Paths.Utf16LengthBounds | src/services/upload.ts:85 | the JavaScript `length` of a string lies between its number of characters and twice that number |
| Paths.Utf16LengthAppend | src/services/upload.ts:85 | the JavaScript length of a concatenation is the sum of the lengths |
| Paths.Utf16LengthOfProperPrefix | src/services/upload.ts:85 | a proper prefix has a smaller JavaScript length |
| Paths.BasenameOfJoin | src/services/upload.ts:79-80 | joining a plain name to a directory gives a path whose basename is that name |
| Paths.ExtnameOfBasename | src/services/upload.ts:110 | the extension of a path depends only on its basename |
| Paths.BasenameOfPlainName | src/services/upload.ts:79 | a name without '/' is its own basename |
| Paths.JoinKeepsNameAndExtension | src/services/upload.ts:79-80 | moving a file into a directory under its basename keeps its name and its extension |
| Paths.RemoveFirst | src/services/upload.ts:111 | `replace(root, '')`: the path without the first occurrence of the root; see `Paths.RemoveFirstRestores` |
| Paths.RelativeLink | src/services/upload.ts:111-112 | the root removed once, then at most one leading '/' dropped; see `Paths.RelativeLinkUnderRoot` |
| Paths.IndexOf | src/services/upload.ts:111 | the index of the first occurrence of the pattern, and -1 only when there is none |
| Paths.RemoveFirstRestores | src/services/upload.ts:111 | `replace(root, '')` deletes the first occurrence, and putting the pattern back gives the path again; without an occurrence the path is unchanged |
| Paths.RelativeLinkUnderRoot | src/services/upload.ts:111-112 | for a path that starts with the root, the link is the rest of the path without one leading '/' |
| Paths.RelativeLinkOfJoin | src/services/upload.ts:111-112 | joining a relative path to the root and then taking the link gives the relative path back |
| Paths.BasenameOfJoinedPath | src/services/upload.ts:115 | a directory joined in front of a path leaves its basename alone |
| Paths.RelativeLinkOutsideRoot | src/services/upload.ts:111-112 | a path that does not contain the root only loses one leading '/' |
| Upload.ExtensionFilter | src/services/upload.ts:90-94 | `.ply`, `.obj` and `.babylon` for type `model`, nothing otherwise; see `Upload.OnlyModelUploadsAreFiltered` |
| Upload.FilterByExtension | src/services/upload.ts:96-98 | an item survives exactly when its extension is in the filter, and the survivors keep the walk order |
| Upload.FilterByExtensionCount | src/services/upload.ts:96-98 | duplicates among the matching items all survive |
| Upload.ResponseSource | src/services/upload.ts:121-122 | the answer describes the filtered items when some match, and every found item when none does |
| Upload.OnlyModelUploadsAreFiltered | src/services/upload.ts:90-94 | the filter is non-empty only for type `model`; any other type describes every found item, and a model upload describes only model files when there are any |
| Upload.ToRecord | src/services/upload.ts:108-117 | the `IFile` record of one item; see `Upload.RecordDescribesItem` and `Upload.RecordLinkUnderRoot` |
| Upload.RecordDescribesItem | src/services/upload.ts:110-116 | a record's name is the path's basename, which is the longest suffix of the path without '/', preceded by a '/' unless it is the whole path. Its format is the path's extension: the suffix of the name from its last '.', holding no other '.', and empty exactly when the name is ".." or has no '.' after its first character. Its size is the item's size |
| Upload.RecordLinkUnderRoot | src/services/upload.ts:111-112 | the link of a file below the root is its path relative to the root |
| Upload.PrepareResponseFiles | src/services/upload.ts:107-119 | the records are sorted by `file_size` and are a permutation of the mapped items |
| Upload.ResponseRecordsMatchItems | src/services/upload.ts:107-118 | there is one record per item, every record is some item's record, and every item's record is present |
| Upload.ResponseKeepsWalkOrderForEqualSizes | src/services/upload.ts:118 | records of equal size stay in walk order |
| Upload.TokenDirectory | src/services/upload.ts:69 | the token directory `root/uploadDir/token` |
| Upload.FlattenMoves | src/services/upload.ts:76-82 | the moves of the flattening step when none throws; see `Upload.FlattenMovesInWalkOrder` |
| Upload.TopLevelFileMovesOntoItself | src/services/upload.ts:77-81 | a file directly under the token directory gets a move whose source and destination are the same path |
| Upload.FlattenMovesInWalkOrder | src/services/upload.ts:76-82 | one move per file, in walk order, from the file's path to `join(tokenDir, basename(path))` |
| Upload.FlattenMovesEveryFile | src/services/upload.ts:76-82 | every non-directory item is moved, and nothing else is |
| Upload.FlattenKeepsNamesAndFormats | src/services/upload.ts:79-81 | every move keeps the file's name and its extension |
| Upload.FirstFailure | src/services/upload.ts:77-82 | the index of the first move that throws, or the number of moves; every earlier move succeeds |
| Upload.IssuedMoves | src/services/upload.ts:77-82 | the moves issued are a prefix of the flattening moves: all of them, or those up to and including the first that throws; every move before the last one succeeds |
| Upload.SameNameStopsFlattening | src/services/upload.ts:79-81 | two files with one name get the same destination, so a `moveSync` that does not overwrite stops the loop at the second of them at the latest |
| Upload.RemovalOrder | src/services/upload.ts:84-86 | the removed directories are in non-decreasing order of JavaScript path length and are a permutation of the walk's directories |
| Upload.RemovalOrderRemovesEveryDirectory | src/services/upload.ts:84-86 | exactly the directories of the walk are removed |
| Upload.RemovalOrderRemovesParentsFirst | src/services/upload.ts:85-86 | a directory is removed before every directory whose path it is a proper prefix of |
| Upload.MoveFilesToTopLevel | src/services/upload.ts:76-82 | the loop issues the flattening moves up to the first that throws, and completes exactly when none throws |
| Upload.RemoveSubdirectories | src/services/upload.ts:84-86 | the loop removes exactly the directories, in removal order |
| Upload.UploadFinish | src/services/upload.ts:65-127 | a missing token directory gives no moves, no removals and an empty list. Otherwise the handler issues the flattening moves up to the first that throws. If one throws, it removes nothing and answers nothing. If none throws, it removes the subdirectories and answers with the prepared records of the filtered or the full second walk |
| Upload.MetadataFileName | src/services/upload.ts:21 | the stored name `prefix-originalname`; see `Upload.MetadataStoredUnderPrefixedName` |
| Upload.MetadataLink | src/services/upload.ts:29 | the link `models/token/key/name`; see `Upload.MetadataLinkIsRelativeLink` |
| Upload.AddMetadata | src/services/upload.ts:15-35 | stores at `root/uploadDir/token/key/prefix-originalname`, and answers with that name, the key, the `models/` link, the target's extension and the size; when the move fails it answers "File already exists" |
| Upload.MetadataTargetInSteps | src/services/upload.ts:17-22 | the path built piece by piece is the upload-relative metadata path joined to the root |
| Upload.MetadataLinkIsRelativeLink | src/services/upload.ts:17-29 | the returned link is the stored file's path relative to the root exactly when the upload directory is `models` |
| Upload.MetadataStoredUnderPrefixedName | src/services/upload.ts:21-29 | both the stored file and the link end in the prefixed file name |
| Upload.UploadRequest | src/services/upload.ts:39-51 | stores at `root/uploadDir/token/relpath/stamp_slug` |
| Upload.RequestFileFlattensIntoTokenDirectory | src/services/upload.ts:43-46 | after flattening, a requested upload lies directly in the token directory under its stored name |
| Logging.Tag | src/services/logger.ts:15-33 | each level has a non-empty tag without a bar character |
| Logging.LevelOfTag | src/services/logger.ts:15-33 | a level read from a tag writes that tag |
| Logging.LevelOfTagInverts | src/services/logger.ts:15-33 | every level's tag is read back as that level |
| Logging.PrepareContent | src/services/logger.ts:42-46 | non-object content is logged unchanged; an object's inspected text is logged after a newline |
| Logging.Message | src/services/logger.ts:15-33 | the formatted message: an opening bracket, the tag, a bar, the date, a closing bracket, a tab and the prepared content; see `Logging.ParseMessageInverts` |
| Logging.ParseMessageSound | src/services/logger.ts:15-33 | whatever is read from a message forms that message again |
| Logging.ParseMessageInverts | src/services/logger.ts:15-33 | a message whose date holds no ']' is read back as its level, its date and its prepared content |
| Logging.MessageDeterminesItsParts | src/services/logger.ts:12-33 | two calls give the same message only with the same level, date and prepared content |
| Logging.Buffered | src/services/logger.ts:8-51 | after one call the buffer holds fewer than 128 messages; it is empty exactly when adding the message reached 128, and otherwise it is the old buffer plus the message |
| Logging.DuplicateDoesNotGrow | src/services/logger.ts:12-16 | logging a message that is already buffered leaves the buffer unchanged |
| Logging.NewMessageAtLimitFlushes | src/services/logger.ts:47-51 | a new message that brings the buffer to 128 flushes it |
| Logging.BufferedAllStaysBelowLimit | src/services/logger.ts:8-51 | after any sequence of calls the buffer holds fewer than 128 messages |
| Logging.NoLossBelowLimit | src/services/logger.ts:12-51 | while fewer than 128 distinct messages are involved, the buffer keeps every message logged |
| Logging.Logger.constructor | src/services/logger.ts:12 | the buffer starts empty |
| Logging.Logger.Record | src/services/logger.ts:14-37 | adds the formatted message, then runs the flush check |
| Logging.Logger.LogInfo | src/services/logger.ts:14-19 | `info` buffers the message tagged INFO and keeps the buffer below 128 |
| Logging.Logger.LogLog | src/services/logger.ts:20-25 | `log` buffers the message tagged LOG and keeps the buffer below 128 |
| Logging.Logger.LogWarn | src/services/logger.ts:26-31 | `warn` buffers the message tagged WARN and keeps the buffer below 128 |
| Logging.Logger.LogErr | src/services/logger.ts:32-37 | `err` buffers the message tagged ERR and keeps the buffer below 128 |
| Logging.Logger.ShouldWrite | src/services/logger.ts:47-51 | clears the buffer when it holds at least 128 messages, and leaves it unchanged otherwise; afterwards it holds fewer than 128 |
| Logging.Logger.WriteToLog | src/services/logger.ts:52-54 | leaves the buffer empty |

## Left out

- File-system effects are not modelled: `moveSync`, `move`, `removeSync`, `ensureDirSync`, `statSync`, `pathExistsSync`. Directory walks are inputs, and effects are returned as sequences of moves and removed paths.
- Upload.UploadFinish: whether each `moveSync` succeeds is a parameter. `Upload.SameNameStopsFlattening` derives the failure for two files with one name. Any other cause of a throw is only captured through that parameter.
- Upload.UploadFinish: every `removeSync` is assumed to succeed.
- Upload.UploadFinish: a top-level file is moved onto itself (`Upload.TopLevelFileMovesOntoItself`). Whether `moveSync` accepts a move whose source and destination are equal is left to the `moveSucceeds` parameter, since some fs-extra releases throw on it.
- Upload.UploadFinish: the rejection of an aborted handler is not modelled. It reaches `Logger.warn` through the `unhandledRejection` hook.
- Upload.UploadFinish: the second walk (`foundFiles`) is an independent input. The model does not derive it from the first walk and the moves.
- Upload.UploadFinish: the texts passed to `response.end` ('Upload not finished', 'Done!') and the `Logger.info` calls are not modelled.
- Upload.AddMetadata: `metadata_size` is the stat size as a number. Its rendering as "N bytes" is not modelled.
- Upload.AddMetadata: the outcome of the asynchronous move is a parameter.
- Header values that are missing and render as "undefined" are not modelled. Every header is a string parameter.
- Upload.UploadRequest: `Date.now()` and `slugify` are parameters, and the move itself is not modelled.
- `UploadCancel` and `CancelMetadata` are not modelled. The first is one existence check and one removal; the second is an empty function.
- The `multer` configuration is not modelled.
- Paths.Basename and Paths.NameExtension: trailing '/' and Windows separators are not handled. Walk paths have neither.
- Paths.Join: joins with a single '/'. It does not normalise '.', '..' or repeated separators.
- `parseInt` on a file size is the identity on the natural-number sizes the model uses.
- Logging.PrepareContent: the string conversion of non-string primitives is not modelled. A primitive is given by its text. `typeof null === 'object'` puts `null` on the object path, whose inspected text is a parameter.
- Logging.Logger: the console output gated by the log level, `getDate`, the autosave timer and the `process` hooks are not modelled. `writeToLog` clears the buffer and writes nothing, as the source does; the log file path is never used.
- Logging.Logger: the set's insertion order is not modelled. Nothing reads the buffer's contents.
- The entity and whitelist logic in services/mongo.ts is not part of this model.
