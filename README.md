# GesuBridge core, modelled in Dafny

GesuBridge is a desktop bridge to Android devices. Its Rust back end drives
`adb` and `scrcpy` on behalf of the user interface. This project models the
back end's core and proves properties of the model:

- **Mirroring registries** (`scrcpy.dfy`): the screen-mirror and camera-mirror
  sessions. Each is a map from device serial to the scrcpy child process.
  The maps are separate objects whose start, stop and list methods change
  them in place. The argument vectors handed to scrcpy are proved to read
  back, under scrcpy's own left-to-right flag reading, as the requested
  options.
- **Transfer bookkeeping** (`transfer_service.dfy`, `transfer_commands.dfy`):
  the registry of active transfers and the newest-first history capped at 50
  entries. `push_file` takes the state's lock twice, so it is split into
  `BeginPush` and `FinishPush`, and a cancel can run between them. The
  `push_files` command loops over the paths it is given. The code keeps no
  queue, no per-device limit and no progress report, and these facts hold
  of it:
  - a cancel between the two halves of a push leaves two history entries
    under one id;
  - a cancel does not trim the history to 50;
  - no process is ever recorded for a transfer, so a cancel kills nothing.
- **Parsers of device output** (`adb.dfy`, `media_listing.dfy`,
  `media_store.dfy`): `adb devices -l`, `ls -la` folder and file listings, and
  `content query` rows. Each loop of the source is a method proved equal to
  a function over the lines, and properties are proved of those functions.
  A listed media file always has a date, because a line is only accepted
  when its sixth and seventh fields exist.
- **Text helpers of the media service** (`media_text.dfy`, `media_files.dfy`,
  `base64.dfy`):
  - shell quoting, proved against a reader of POSIX single quotes (section 2.2
    of the POSIX.1-2017 Shell Command Language);
  - SQL quoting;
  - file-name sanitising and device-path normalising;
  - the `data:` URL of a file (RFC 2397) with standard padded base64 (section 4
    of RFC 4648), proved to decode back to the file's bytes;
  - the pure first steps of a thumbnail request.
- **Domain records and errors** (`models.dfy`, `errors.dfy`):
  - `DeviceState::from`, the constructors and defaults;
  - the `Display` text of every `AppError`, proved to determine the error;
  - `user_guidance`.

Shared modules model the parts of Rust's standard library the core relies on:

- `text.dfy`: `str` operations (`lines`, `trim`, `split_whitespace`, `find`,
  `replace`, ASCII lower-casing);
- `paths.dfy`: `Path::file_name`, `Path::extension` and `join`, with Windows
  separators, since the media service imports `std::os::windows`;
- `numbers.dfy`: `u64` parsing;
- `sorting.dfy`: the stable `sort_by`;
- `exec.dfy`: the outcome of running an external process.

Processes are never run. A call to `adb`, `scrcpy` or the file system is an
input to the model:

- an `Output` value (exited with a status and streams, or failed to start);
- a function from argument lists to `Output`;
- a spawn, kill or `try_wait` outcome.

Ids, clocks and file sizes on the host are parameters too.

## Model

| member | source | states |
|---|---|---|
| Models.DeviceStateFrom | src-tauri/src/domain/models.rs:15-24 | a word maps to Ready, Unauthorized or Offline exactly when it equals "device", "unauthorized" or "offline" ignoring ASCII case |
| Models.DeviceStateWordRoundTrip | src-tauri/src/domain/models.rs:15-24 | every adb state word, in any case, is read back as the state it stands for |
| Models.DeviceStateUnknown | src-tauri/src/domain/models.rs:21 | anything that is none of the three words is Unknown |
| Models.NewDevice | src-tauri/src/domain/models.rs:37-45 | a new device keeps serial and state and has no model, manufacturer or Android version |
| Models.NewSettings | src-tauri/src/domain/models.rs:88-101 | fresh settings have no tool path, nothing available, and "Download/GesuBridge" as device folder |
| Models.DefaultMediaFilter | src-tauri/src/domain/models.rs:165-171 | the default filter is All |
| Errors.FromIoError | src-tauri/src/domain/errors.rs:51-55 | an I/O error becomes IoError carrying its text, displayed as "IO error: " and the text |
| Errors.Display | src-tauri/src/domain/errors.rs:33-46 | the text of every variant; it carries no contract of its own, and DisplayShape, DisplayRoundTrip and DisplayInjective state what the text determines |
| Errors.UserGuidance | src-tauri/src/domain/errors.rs:60-87 | one fixed hint per variant; it carries no contract of its own, and GuidanceIgnoresMessage states that the message never matters |
| Errors.DisplayShape | src-tauri/src/domain/errors.rs:33-46 | the text of an error is its variant's label, ": " and the message, which is its suffix verbatim |
| Errors.DisplayRoundTrip | src-tauri/src/domain/errors.rs:33-46 | the text of an error reads back as that error, variant and message |
| Errors.DisplayInjective | src-tauri/src/domain/errors.rs:35-44 | two errors with the same text are the same error |
| Errors.GuidanceIgnoresMessage | src-tauri/src/domain/errors.rs:60-87 | the guidance depends on the variant only, never on the message |
| Exec.RunAdbCommand | src-tauri/src/services/adb_service.rs:55-71 | success exactly when adb ran and exited successfully, then its stdout; otherwise AdbExecutionFailed with the launch error or stderr behind the fixed prefix |
| Adb.TagsKeepIdentity | src-tauri/src/services/adb_service.rs:38-46 | `key:value` tokens never change serial, state or Android version |
| Adb.ModelFromLastTag | src-tauri/src/services/adb_service.rs:39-41 | the last `model:` token decides the model, with underscores read as spaces |
| Adb.ModelWithoutTag | src-tauri/src/services/adb_service.rs:38-46 | without a `model:` token the model stays unset |
| Adb.ManufacturerFromLastTag | src-tauri/src/services/adb_service.rs:39-42 | the last `manufacturer:` token decides the manufacturer, verbatim |
| Adb.ManufacturerWithoutTag | src-tauri/src/services/adb_service.rs:38-46 | without a `manufacturer:` token the manufacturer stays unset |
| Adb.ModelHasNoUnderscore | src-tauri/src/services/adb_service.rs:41 | a model read from the listing never contains an underscore |
| Adb.DeviceFromLineSome | src-tauri/src/services/adb_service.rs:21-30 | a line gives a device exactly when, trimmed, it is non-empty, not the header, and has two fields |
| Adb.DeviceFromLineFields | src-tauri/src/services/adb_service.rs:32-35 | the device has the first field as serial and the state the second field names |
| Wrappers.FilterMapAppend | src-tauri/src/services/adb_service.rs:19-48 | the devices of two runs of lines are those of the first followed by those of the second |
| Adb.ApplyTag | src-tauri/src/services/adb_service.rs:39-45 | a token changes only the model or the manufacturer: a `model:` token sets the model to its value with underscores read as spaces, a `manufacturer:` token sets the manufacturer verbatim, any other leaves both as they were |
| Adb.DeviceFromLine | src-tauri/src/services/adb_service.rs:21-48 | a device read from a line has a non-empty serial free of whitespace and no Android version yet |
| Adb.DevicesOfLines | src-tauri/src/services/adb_service.rs:19-48 | every device read from a run of lines is such a listed device |
| Adb.ParseDevices | src-tauri/src/services/adb_service.rs:16-48 | there are fewer devices than output lines, since the first line never gives one, and every device is a listed device |
| Adb.FirstLineIgnored | src-tauri/src/services/adb_service.rs:19 | whatever the first line says, it yields no device |
| Adb.ParseDevicesOutput | src-tauri/src/services/adb_service.rs:16-52 | the loop returns exactly the devices of the lines after the first, in order |
| Adb.ApplyToken | src-tauri/src/services/adb_service.rs:39-45 | one token sets the model, the manufacturer, or nothing, as the tag rule says |
| Adb.ParseLine | src-tauri/src/services/adb_service.rs:20-48 | the loop body, with its early `continue`s, gives the device of the line |
| Adb.ApplyTokens | src-tauri/src/services/adb_service.rs:39-45 | the tokens after the state are applied one at a time, from the left, giving the device ApplyTags describes |
| Adb.DeviceLineParsed | src-tauri/src/services/adb_service.rs:27-48 | a line as adb prints it (serial, gap, state word, tokens) gives that serial, state and tokens' fields |
| Adb.ListingParsed | src-tauri/src/services/adb_service.rs:19-48 | after the header, each line of a listing gives its device, in order |
| Adb.SampleListing | src-tauri/src/services/adb_service.rs:131-150 | a header, a ready line with a model token, an unauthorized line and an offline line give those three devices |
| Adb.Enriched | src-tauri/src/services/adb_service.rs:79-121 | only ready devices are enriched; a model or manufacturer already parsed is kept; a missing one, and the Android version, come from getprop when adb succeeds |
| Adb.ListDevices | src-tauri/src/services/adb_service.rs:74-124 | a failed listing is returned as its error; otherwise one enriched device per parsed device, in order |
| Adb.EnrichDevices | src-tauri/src/services/adb_service.rs:79-121 | the loop enriches every device in place and nothing else |
| Adb.EnrichDevice | src-tauri/src/services/adb_service.rs:80-120 | the fields set one after another give the enriched device |
| Scrcpy.MirrorArgs | src-tauri/src/services/scrcpy_service.rs:53-58 | the arguments are "-s" and the serial, then "--turn-screen-off" exactly when asked for |
| Scrcpy.OrientationArgs | src-tauri/src/services/scrcpy_service.rs:171-177 | no rotation flag unless portrait; then 270 for the front camera and 90 for any other |
| Scrcpy.CameraArgs | src-tauri/src/services/scrcpy_service.rs:154-157 | the arguments always start with the serial, the camera source and the facing |
| Scrcpy.MirrorArgsRead | src-tauri/src/services/scrcpy_service.rs:53-58 | scrcpy reads back exactly the serial and the screen-off choice |
| Scrcpy.OrientationRead | src-tauri/src/services/scrcpy_service.rs:167-177 | the rotation flag reads back as the rotation the orientation and facing call for |
| Scrcpy.CameraArgsRead | src-tauri/src/services/scrcpy_service.rs:154-177 | scrcpy reads back the serial, camera source, facing, the size when given, the audio choice and the rotation |
| Scrcpy.Surviving | src-tauri/src/services/scrcpy_service.rs:106-117 | the sweep keeps exactly the entries whose process still runs, unchanged |
| Scrcpy.SurvivingIsRemoval | src-tauri/src/services/scrcpy_service.rs:107-117 | removing the collected exited serials leaves exactly the surviving entries |
| Scrcpy.DistinctSerialsCount | src-tauri/src/services/scrcpy_service.rs:119-126 | sessions with distinct serials cover as many serials as there are sessions |
| Scrcpy.SessionMap.constructor | src-tauri/src/services/scrcpy_service.rs:21-33 | a registry starts empty |
| Scrcpy.SessionMap.Start | src-tauri/src/services/scrcpy_service.rs:46-76 | a duplicate serial or a failed spawn is an error with the map unchanged; otherwise exactly one entry is added and its session returned |
| Scrcpy.SessionMap.Stop | src-tauri/src/services/scrcpy_service.rs:86-96 | an absent serial is an error with the map unchanged; a present one is removed even when the kill fails |
| Scrcpy.SessionMap.List | src-tauri/src/services/scrcpy_service.rs:106-126 | exited or unpollable entries are dropped, then one session per remaining entry with no start time |
| Scrcpy.SessionMap.RemoveAll | src-tauri/src/services/scrcpy_service.rs:115-117 | the loop removes exactly the given serials |
| Scrcpy.SessionMap.Exited | src-tauri/src/services/scrcpy_service.rs:107-113 | the serials collected are exactly those whose process has exited or cannot be polled |
| Scrcpy.SessionMap.Snapshot | src-tauri/src/services/scrcpy_service.rs:119-126 | one session per entry, distinct serials, each with the entry's pid and an empty start time |
| Scrcpy.ScrcpyService.constructor | src-tauri/src/services/scrcpy_service.rs:16-19 | the two registries are distinct objects and start empty |
| Scrcpy.ScrcpyService.StartMirror | src-tauri/src/services/scrcpy_service.rs:36-77 | the start rule on the screen registry, with the mirror arguments; the camera registry is untouched |
| Scrcpy.ScrcpyService.StopMirror | src-tauri/src/services/scrcpy_service.rs:80-97 | the stop rule on the screen registry; the camera registry is untouched |
| Scrcpy.ScrcpyService.GetActiveSessions | src-tauri/src/services/scrcpy_service.rs:100-127 | the list rule on the screen registry; the camera registry is untouched |
| Scrcpy.ScrcpyService.StartCameraMirror | src-tauri/src/services/scrcpy_service.rs:134-196 | the start rule on the camera registry, with the camera arguments; the screen registry is untouched |
| Scrcpy.ScrcpyService.StopCameraMirror | src-tauri/src/services/scrcpy_service.rs:199-216 | the stop rule on the camera registry; the screen registry is untouched |
| Scrcpy.ScrcpyService.GetCameraSessions | src-tauri/src/services/scrcpy_service.rs:219-246 | the list rule on the camera registry; the screen registry is untouched |
| Scrcpy.MirrorAndCameraScenario | src-tauri/src/services/scrcpy_service.rs:16-19 | a screen and a camera session coexist for one device; a second screen session is refused until the first is stopped |
| TransferService.PushFileName | src-tauri/src/services/transfer_service.rs:59-63 | the name is the path's last component, or "unknown" when it has none |
| TransferService.DestPath | src-tauri/src/services/transfer_service.rs:65 | the destination is under /sdcard/, in the folder, and ends with the file name |
| TransferService.NewItem | src-tauri/src/services/transfer_service.rs:71-81 | the registered item is transferring, with nothing sent and no error |
| TransferService.Finished | src-tauri/src/services/transfer_service.rs:106-121 | success means complete with every byte; a failed exit or launch means failed, with stderr or the launch error as reason |
| TransferService.Capped | src-tauri/src/services/transfer_service.rs:127-130 | the history keeps its newest entries, at most 50 |
| TransferService.FinishedConsistent | src-tauri/src/services/transfer_service.rs:106-121 | every item a push returns is terminal and consistent, and complete exactly when adb succeeded |
| TransferService.PushKeepsName | src-tauri/src/services/transfer_service.rs:59-65 | a file pushed from any folder keeps its name on the device |
| TransferService.TransferState.constructor | src-tauri/src/services/transfer_service.rs:25-33 | the registry starts with no active transfer and no history |
| TransferService.TransferState.BeginPush | src-tauri/src/services/transfer_service.rs:84-94 | the new item is filed under its id as active; the history is unchanged |
| TransferService.TransferState.FinishPush | src-tauri/src/services/transfer_service.rs:103-132 | always Ok with the finished item; the id leaves `active`; the item heads the history, which is capped at 50 |
| TransferService.TransferState.PushFile | src-tauri/src/services/transfer_service.rs:51-133 | a whole push returns Ok with the finished item and leaves the history capped |
| TransferService.TransferState.CancelTransfer | src-tauri/src/services/transfer_service.rs:160-180 | an unknown id is a TransferError with nothing changed; an active one leaves `active` and heads the history, cancelled, with no trimming |
| TransferService.TransferState.GetActiveTransfers | src-tauri/src/services/transfer_service.rs:136-145 | one item per active transfer, with distinct ids, each the registered item |
| TransferService.TransferState.GetTransferHistory | src-tauri/src/services/transfer_service.rs:148-157 | the history as it stands |
| TransferService.AppendUnlisted | src-tauri/src/services/transfer_service.rs:141 | collecting an item with a new id keeps the ids distinct |
| TransferService.DistinctIdsCount | src-tauri/src/services/transfer_service.rs:141 | items with distinct ids carry as many ids as there are items |
| TransferService.CancelDuringPush | src-tauri/src/services/transfer_service.rs:123-125 | a cancel between the two halves succeeds, and the history then holds the finished and the cancelled item under one id |
| TransferService.CancelTwice | src-tauri/src/services/transfer_service.rs:166-179 | a second cancel of the same transfer fails |
| TransferService.CancelOverflowsHistory | src-tauri/src/services/transfer_service.rs:172 | a cancel on a full history grows it past 50 |
| TransferCommands.DestDir | src-tauri/src/commands/transfer.rs:22 | the given folder if any, otherwise the settings' default |
| TransferCommands.ErrorItem | src-tauri/src/commands/transfer.rs:30-44 | an error item is failed with nothing sent, names the folder, and carries the error's text |
| TransferCommands.ErrorItemConsistent | src-tauri/src/commands/transfer.rs:30-44 | an error item is consistent like every finished push |
| TransferCommands.HistoryAfter | src-tauri/src/services/transfer_service.rs:123-130 | after a run of pushes the newest one heads a history of at most 50 |
| TransferCommands.HistoryNewestFirst | src-tauri/src/services/transfer_service.rs:125-130 | after a run of pushes the history lists them newest first, as far back as it keeps |
| TransferCommands.PushFiles | src-tauri/src/commands/transfer.rs:10-50 | unreadable settings or no adb is an error before any push; otherwise one item per path, in order, and the registry after all pushes |
| TransferCommands.PushAll | src-tauri/src/commands/transfer.rs:24-47 | every path is pushed in turn, a failure never stopping the later ones |
| TransferCommands.PushNext | src-tauri/src/commands/transfer.rs:26-45 | one turn of the loop pushes the next path, whose item is the one its outcome calls for, removes its id from the registry and puts the item at the head of the history |
| MediaText.QuoteRemotePath | src-tauri/src/services/media_service.rs:27-31 | the quoted path starts and ends with a single quote |
| MediaText.UnquoteEscaped | src-tauri/src/services/media_service.rs:30 | inside quotes, the escaped path and the closing quote read back as the path |
| MediaText.QuoteRemotePathRoundTrip | src-tauri/src/services/media_service.rs:27-31 | the device shell reads the quoted path back as exactly the path |
| MediaText.QuoteSqlValue | src-tauri/src/services/media_service.rs:490-492 | a value without single quotes is unchanged, and quoting never shortens a value |
| MediaText.QuoteSqlValueRoundTrip | src-tauri/src/services/media_service.rs:490-492 | between quotes, the quoted value is read by SQL as exactly the value |
| MediaText.SanitizeFilename | src-tauri/src/services/media_service.rs:658-668 | same length; safe characters kept, every other one becomes `_` |
| MediaText.SanitizeKeepsSafe | src-tauri/src/services/media_service.rs:658-668 | a name of safe characters is unchanged |
| MediaText.SanitizeIdempotent | src-tauri/src/services/media_service.rs:658-668 | sanitising twice is sanitising once |
| MediaText.SanitizeExamples | src-tauri/src/services/media_service.rs:675-679 | the unit test's three names |
| MediaText.NormalizePath | src-tauri/src/services/media_service.rs:571-579 | the result never starts with `/` |
| MediaText.NormalizeSdcard | src-tauri/src/services/media_service.rs:571-579 | a path under /sdcard/ normalises to its part below it, when that part does not start with `/` and names no storage root after a `/` |
| MediaText.NormalizeStorage | src-tauri/src/services/media_service.rs:571-579 | a path under /storage/emulated/0/ normalises to its part below it, under the same condition |
| MediaText.NormalizeEitherRoot | src-tauri/src/services/media_service.rs:571-579 | the two names of the storage root normalise alike, under the same condition |
| MediaText.NormalizeRootInside | src-tauri/src/services/media_service.rs:571-579 | the condition is needed: in /storage/emulated/0/sdcard/x both replacements apply, and the result is `x` |
| MediaText.NormalizeExamples | src-tauri/src/services/media_service.rs:682-687 | the unit test's first two paths |
| MediaText.NormalizeUnrootedExample | src-tauri/src/services/media_service.rs:688 | the unit test's third path, under neither root, only loses its leading `/` |
| MediaListing.ListArgs | src-tauri/src/services/media_service.rs:40-46 | `ls -la` of the path, which the device shell reads back as exactly that path |
| MediaListing.ChildPath | src-tauri/src/services/media_service.rs:84-88 | the entry's path starts with the listed path and ends with the entry's name |
| MediaListing.ChildPathParts | src-tauri/src/services/media_service.rs:84-88 | an entry's path starts with the listed path and has the entry's name as last component |
| MediaListing.HiddenNameSpec | src-tauri/src/services/media_service.rs:80 | a name is skipped exactly when it starts with a dot |
| MediaListing.IsMediaFolder | src-tauri/src/services/media_service.rs:91-93 | a media folder is one whose name is a media folder's ignoring ASCII case or whose path contains one; it carries no contract of its own, and MediaFolderIgnoresCase states its property |
| MediaListing.MediaFolderIgnoresCase | src-tauri/src/services/media_service.rs:91-93 | lower-casing a folder's name never changes whether it is a media folder |
| MediaListing.FolderFromLine | src-tauri/src/services/media_service.rs:50-100 | a folder read from a line is not hidden and has no item count |
| MediaListing.FolderFromLineSome | src-tauri/src/services/media_service.rs:50-82 | a line gives a folder exactly when it is not noise, has eight fields, a directory's permissions and a name not starting with a dot |
| MediaListing.FolderFromLineFields | src-tauri/src/services/media_service.rs:77-100 | the folder is the joined name under the base, with no item count and its media flag |
| MediaListing.FolderLe | src-tauri/src/services/media_service.rs:104-108 | a media folder comes before any other folder and never after one; two folders of one group whose names agree ignoring ASCII case are in order either way |
| MediaListing.FolderLeTotalPreorder | src-tauri/src/services/media_service.rs:104-108 | the folder comparator is a total preorder |
| MediaListing.MediaFoldersFirst | src-tauri/src/services/media_service.rs:104-106 | in the sorted list every media folder precedes every other folder |
| MediaListing.FoldersByName | src-tauri/src/services/media_service.rs:107 | within each group the list is in order of ASCII-lower-cased name |
| MediaListing.ListFolders | src-tauri/src/services/media_service.rs:34-111 | an adb failure is returned; otherwise the folders of the listing, sorted |
| MediaListing.CollectFolders | src-tauri/src/services/media_service.rs:50-101 | the loop collects exactly the folders of the lines, in order |
| MediaListing.ParseFolderLine | src-tauri/src/services/media_service.rs:51-100 | the loop body, with its early `continue`s, gives the folder of the line |
| MediaListing.PushFolderOfLine | src-tauri/src/services/media_service.rs:50-100 | one turn of the loop appends exactly the folder of the next line, if it has one |
| MediaListing.ExtensionOf | src-tauri/src/services/media_service.rs:174-178 | empty when the name has no extension; otherwise the extension ASCII-lower-cased: as long as it, with no capital letter |
| MediaListing.MediaTypeOfSpec | src-tauri/src/services/media_service.rs:21-24 | an extension is an image's or a video's exactly when it is in that list |
| MediaListing.MediaFromLineSpec | src-tauri/src/services/media_service.rs:129-212 | a line gives a file exactly when it has over seven fields, a file's permissions, and a media extension the filter accepts; size parsed or 0; date from fields six and seven |
| MediaListing.MediaFromLine | src-tauri/src/services/media_service.rs:129-212 | a file read from a line has the type its extension gives, which the filter accepts, a size below 2^64 and a date |
| MediaListing.MediaLe | src-tauri/src/services/media_service.rs:216 | files without a date come after every file with one; files with the same date are in order either way |
| MediaListing.MediaLeTotalPreorder | src-tauri/src/services/media_service.rs:216 | the date comparator is a total preorder |
| MediaListing.NewestFirst | src-tauri/src/services/media_service.rs:216 | in the sorted list no file precedes one with a later date |
| MediaListing.ListMediaFiles | src-tauri/src/services/media_service.rs:114-219 | an adb failure is returned; otherwise the wanted files of the listing, newest first |
| MediaListing.CollectMedia | src-tauri/src/services/media_service.rs:129-213 | the loop collects exactly the files of the lines, in order |
| MediaListing.ParseMediaLine | src-tauri/src/services/media_service.rs:130-212 | the loop body, with its early `continue`s, gives the file of the line |
| MediaListing.PushMediaOfLine | src-tauri/src/services/media_service.rs:129-212 | one turn of the loop appends exactly the file of the next line, if it has one |
| MediaStore.ExtractValueAt | src-tauri/src/services/media_service.rs:561-569 | the value of a key is the trimmed text after its first occurrence, up to a comma or the end |
| MediaStore.ExtractValueNone | src-tauri/src/services/media_service.rs:561-569 | a key has no value exactly when it does not occur |
| MediaStore.ExtractValue | src-tauri/src/services/media_service.rs:561-569 | a key has a value exactly when it occurs in the line, and the value holds no comma |
| MediaStore.MatchedId | src-tauri/src/services/media_service.rs:543-555 | a row gives an id exactly when it has an id and a path agreeing with the target |
| MediaStore.FirstMatchingIdSpec | src-tauri/src/services/media_service.rs:537-559 | there is an id exactly when some row matches, and then it is the first matching row's |
| MediaStore.FindIdMatchingPath | src-tauri/src/services/media_service.rs:537-559 | the loop returns the id of the first matching row |
| MediaStore.QueryRowId | src-tauri/src/services/media_service.rs:542-543 | the `_id=` value of a query row is its id |
| MediaStore.QueryRowData | src-tauri/src/services/media_service.rs:542-544 | the `_data=` value of a query row is its path |
| MediaStore.FindIdAcrossRoots | src-tauri/src/services/media_service.rs:537-559 | a row under /storage/emulated/0/ is found from the file's /sdcard/ name, for a relative path that names no storage root |
| MediaStore.FindIdOtherFile | src-tauri/src/services/media_service.rs:537-559 | a row is not found from a file whose relative path disagrees with its own |
| MediaStore.OneRowMismatch | src-tauri/src/services/media_service.rs:546-558 | a single row whose path disagrees with the target yields no id |
| MediaStore.FindIdExamples | src-tauri/src/services/media_service.rs:692-701 | the unit test: id 123 found from /sdcard/DCIM/Camera/IMG.jpg and not from /sdcard/Other/IMG.jpg |
| MediaStore.DataPathOf | src-tauri/src/services/media_service.rs:618-626 | a path taken from a line is non-empty and does not end with a comma |
| MediaStore.DataPathAt | src-tauri/src/services/media_service.rs:618-626 | the path of a line is the text after its first `_data=`, with the trailing commas dropped |
| MediaStore.FirstDataPathSpec | src-tauri/src/services/media_service.rs:616-630 | there is a path exactly when some line has one, and then it is the first such line's |
| MediaStore.ParseDataPath | src-tauri/src/services/media_service.rs:616-630 | the loop returns the first non-empty `_data=` path |
| MediaFiles.PullMediaFile | src-tauri/src/services/media_service.rs:222-242 | no file name is InvalidPath; otherwise the local path, with the same name inside the destination, exactly when adb succeeded |
| MediaFiles.GetFileSize | src-tauri/src/services/media_service.rs:289-295 | an adb failure is returned; otherwise the trimmed output as a u64, or a parse error naming the path |
| MediaFiles.FileSizeOfStat | src-tauri/src/services/media_service.rs:289-295 | when stat prints a size, that size is returned |
| MediaFiles.TransferResultOf | src-tauri/src/services/media_service.rs:255-282 | success exactly when the pull succeeded, and exactly when there is a destination and no error; the size is 0 when unknown |
| MediaFiles.PullMediaFilesBatch | src-tauri/src/services/media_service.rs:245-286 | one result per path, in order; a failed pull is recorded and the batch goes on |
| MediaFiles.PullOne | src-tauri/src/services/media_service.rs:255-282 | the loop body gives the result for one path |
| MediaFiles.MimeType | src-tauri/src/services/media_service.rs:639-651 | one of the four image types; JPEG when there is no extension |
| MediaFiles.MimeTypeJpg | src-tauri/src/services/media_service.rs:646 | a `jpg` file is served as image/jpeg |
| MediaFiles.DataUrlRoundTrip | src-tauri/src/services/media_service.rs:653-654 | the `data:` URL reads back as its media type and bytes |
| MediaFiles.ReadFileAsBase64 | src-tauri/src/services/media_service.rs:633-655 | an unreadable file is IoError; otherwise a URL reading back as the file's media type and exact contents |
| MediaFiles.ThumbNameShape | src-tauri/src/services/media_service.rs:314 | the cache name is one path component with extension `jpg` |
| MediaFiles.ThumbNameInCache | src-tauri/src/services/media_service.rs:314-315 | the cached thumbnail lies in the cache folder under its name and is served as JPEG |
| MediaFiles.ThumbNameIgnoresFolder | src-tauri/src/services/media_service.rs:308-314 | two remote paths with the same file name are both accepted or both refused, and share one cache name |
| MediaFiles.ThumbNameSharedAcrossFolders | src-tauri/src/services/media_service.rs:308-314 | one file name in any two folders is accepted or refused alike, and its cache name is that of the file name alone |
| MediaFiles.PathsToTry | src-tauri/src/services/media_service.rs:345-352 | the path first, and a second candidate exactly when it is under /sdcard/ |
| MediaFiles.PathsToTryRoots | src-tauri/src/services/media_service.rs:345-349 | a file under /sdcard/ is also tried under /storage/emulated/0/, when its relative path does not contain /sdcard/ again |
| MediaFiles.PathsToTrySdcard | src-tauri/src/services/media_service.rs:345-349 | both candidates normalise to the same relative path, when it names no storage root |
| MediaFiles.PrepareThumbnail | src-tauri/src/services/media_service.rs:308-352 | no file name is InvalidPath; an extension neither image nor video is ThumbnailNotAvailable; otherwise the cache name, type and candidates |
| Base64.Encode | src-tauri/src/services/media_service.rs:653 | four characters per started group of three bytes, and empty only for no bytes |
| Base64.DecodeEncode | src-tauri/src/services/media_service.rs:653 | decoding the encoding gives back the bytes |
| Base64.EncodeInjective | src-tauri/src/services/media_service.rs:653 | different bytes encode differently |
| Base64.EncodeExamples | src-tauri/src/services/media_service.rs:653 | "f", "fo" and "foo" encode as in RFC 4648 |
| Numbers.ParseDecimal | src-tauri/src/services/media_service.rs:148 | every u64 written in decimal parses back to itself |
| Numbers.ParseSigns | src-tauri/src/services/media_service.rs:292 | a leading `+` is accepted, a leading `-` never |
| Numbers.ParseU64 | src-tauri/src/services/media_service.rs:292 | a parsed value lies below 2^64, as a `u64` must |
| Paths.FileName | src-tauri/src/services/media_service.rs:228-231 | the file name is a normal component, with no separator |
| Paths.FileNameOfJoin | src-tauri/src/services/media_service.rs:233 | joining a name onto a folder and taking the file name gives the name back |
| Paths.ExtensionOfName | src-tauri/src/services/media_service.rs:174-178 | an extension has no dot and follows a non-empty stem and a dot |
| Paths.ExtensionOfNameSplit | src-tauri/src/services/media_service.rs:174-178 | a name with a stem, a dot and a dot-free suffix has that suffix as extension |
| Sorting.SortBySorted | src-tauri/src/services/media_service.rs:104-108 | the sort orders its input under any total preorder |
| Sorting.SortByPermutes | src-tauri/src/services/media_service.rs:216 | the sort rearranges its input and nothing more |
| Sorting.SortByStable | src-tauri/src/services/media_service.rs:104-108 | elements the comparator calls equal keep their relative order |
| Text.SplitWhitespaceJoin | src-tauri/src/services/media_service.rs:65-77 | splitting words joined by single spaces gives the words back |
| Text.LinesOfText | src-tauri/src/services/media_service.rs:50 | the lines of text built from lines are those lines |
| Text.LexLeTotal | src-tauri/src/services/media_service.rs:107 | string comparison orders every pair |
| Text.LexLeTrans | src-tauri/src/services/media_service.rs:107 | string comparison is transitive |

## Left out

- Running processes (`Command::output`, `spawn`, `kill`, `try_wait`) is not modelled. Their outcomes are inputs: an `Output` value, a function from argument lists to `Output`, or a spawn, kill or wait outcome. The adb oracle answers the same arguments the same way every time.
- The global `Mutex` statics and the lazy `ensure_*` initialisation are not modelled. Each registry is a single-threaded object, empty when constructed, and no two calls overlap except the split of `push_file`.
- Clocks and ids (`generate_id`, `chrono` timestamps), the local file size in `push_file`, and the contents of a file read by `read_file_as_base64` are parameters.
- Most of `get_thumbnail` is not modelled: the cache check, the MediaStore queries, device temp files, image resizing and ffmpeg are file-system, device and foreign I/O. Only its pure first steps are modelled (`PrepareThumbnail`, `ThumbName`, `PathsToTry`, `MimeType`).
- MediaListing.FolderLe: compares names lower-cased in ASCII only, where the source's `to_lowercase` is Unicode-aware. Non-ASCII names can therefore sort differently: the source puts "éa" before "Éb", the model puts "Éb" first. MediaListing.FoldersByName and MediaListing.ListFolders inherit this.
- MediaListing.FoldersByName: states the order of ASCII-lower-cased names, as MediaListing.FolderLe compares them.
- MediaListing.ListFolders: sorts with the ASCII-only comparison of MediaListing.FolderLe.
- MediaListing.ExtensionOf: lower-cases ASCII letters only, where the source's `to_lowercase` is Unicode-aware. An extension whose letters lower-case to a known one only under Unicode rules is therefore not recognised: "clip.M\u{212A}V", with a Kelvin sign, is a video in the source and no media file in the model. MediaListing.MediaFromLine, MediaListing.MediaFromLineSpec, MediaListing.ListMediaFiles and MediaFiles.PrepareThumbnail inherit this.
- MediaListing.MediaFromLine: recognises extensions through the ASCII-only MediaListing.ExtensionOf, so a line naming "clip.M\u{212A}V" gives no file.
- MediaListing.MediaFromLineSpec: recognises extensions through the ASCII-only MediaListing.ExtensionOf.
- MediaListing.ListMediaFiles: recognises extensions through the ASCII-only MediaListing.ExtensionOf.
- MediaFiles.PrepareThumbnail: models `get_thumbnail` with no cached thumbnail. In the source a usable cached thumbnail is returned before the file-type check. It also recognises extensions through the ASCII-only MediaListing.ExtensionOf.
- `get_media_store_id` and `get_thumbnail_path` are not modelled, because they only run adb. Their parsers `find_id_matching_path` and `parse_data_path` are modelled.
- `settings_service.rs` is not modelled: JSON persistence, tool detection and validation are I/O. `push_files` receives the settings lookup's result.
- The other Tauri command wrappers and `lib.rs` are not part of this model.
- Models.DeviceStateFrom: lower-cases ASCII letters only, where Rust's `to_lowercase` is Unicode-aware. For the three state words this makes no difference.
- MediaText.SanitizeFilename: treats only ASCII letters and digits as alphanumeric, where Rust's `is_alphanumeric` accepts every Unicode letter and digit.
- Paths.FileName: models `/` and `\` as separators but not Windows drive prefixes (`C:`) or UNC prefixes.
- Sorting.SortBySorted: `sort_by` is modelled as a stable insertion sort, proved ordered, a permutation and stable. Rust's algorithm differs, but its result is fully determined by those three properties.
- Sizes (`u64`) and process ids (`u32`) are unbounded naturals. Only `get_file_size` and the listing's size field check the `u64` range, as `str::parse` does.
- `String::from_utf8_lossy` on process output is not modelled; output is already text.
- The `tokens` of an `adb devices -l` line beyond `model:` and `manufacturer:` are ignored, as in the source. `Adb.SampleListing` is stated for any serials and tokens of the sample's shape, not for the literal sample text.
