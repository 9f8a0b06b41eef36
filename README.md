# Watched folders: duplicate suppression and event classification

This project models the core of the watched-folders service of the hub
backend. The service watches configured directories and forwards each newly
arrived PDF file to the uploads service once. The model covers four parts:

- the module-level map from watcher id to the set of file names known to be in that folder;
- seeding that set from the directory listing when watching starts;
- classifying each change notification as "ignore", "skip empty file" or "forward as `application/pdf`";
- dropping the set when the watcher closes.

The file-name filter (`/\.pdf$/i`) and the step that makes a folder path end
in the path separator are modelled as pure functions.

Files:

- `file_pattern.dfy` (module `FilePattern`): the name filter and the trailing-separator step.
- `watched_folders.dfy` (module `WatchedFolders`): the data types and `Step`, the transition function for one change notification. It also holds the class `WatchedFolderService`, whose field `knownFiles` is the map and whose methods are the bootstrap, the per-folder start, the change listener and the close listener. Each method is proved against the functions of the module.
- `watch_trace.dfy` (module `WatchTrace`): whole runs of starts, notifications and closes. It proves at-most-once forwarding, that pre-existing files are never forwarded, and that watchers are isolated from each other.

Filesystem and service calls are inputs and outputs. Opening the watch and listing the directory give a `FolderProbe`. Each notification's `stat` result is a `StatOutcome`: `Ok(size)`, `NotFound` or `OtherError`. The configuration query gives a `QueryResult`. The upload is the `Forward` action.

A notification is handled at the moment its `stat` answers. The code checks and marks the name synchronously inside that callback, so processing notifications one at a time in that order matches the code.

Points where the code's order of operations matters:

- `stat` runs before the rename/seen check. So "not found" removes the name for every event type, also for a name already marked, and every notification of a matching name costs a `stat`.
- A watcher id with no set (never seeded or already closed) makes the name look unseen, and the `add` does nothing. A rename of a non-empty file for such an id is therefore forwarded on every notification.
- Startup uses `Promise.all`, and a failing folder does not stop the others' starts. When opening the watch throws, `startWatching` logs "not watching folder" and returns normally, so the `Promise.all` handler is not reached. When listing the directory fails, `startWatching` rejects and the `Promise.all` handler logs "could not start to watch folders" (once, for the first rejection).

## Model

| member | source | states |
|---|---|---|
| FilePattern.PdfNameIsCaseInsensitiveSuffix | src/services/watchedfolders/watchedfolders.class.ts:13 | the filter accepts a name exactly when it has at least four characters and its last four, lower-cased, are ".pdf" |
| FilePattern.OnlyExtensionMatters | src/services/watchedfolders/watchedfolders.class.ts:13 | the match is anchored at the end: any stem followed by a four-character extension matches exactly when the extension alone does |
| FilePattern.FilterExamples | src/services/watchedfolders/watchedfolders.class.ts:13 | `new.pdf`, `Scan.PDF` and `.pdf` match; `notes.txt`, `a.pdf.txt`, `pdf` and `xpdf` do not |
| FilePattern.WithTrailingSep | src/services/watchedfolders/watchedfolders.class.ts:44-47 | the result ends in the separator, begins with the given path and is at most one character longer; a path that already ends in the separator is returned unchanged |
| FilePattern.WithTrailingSepIdempotent | src/services/watchedfolders/watchedfolders.class.ts:44-47 | making a path directory-like twice is the same as doing it once |
| WatchedFolders.Step | src/services/watchedfolders/watchedfolders.class.ts:72-110 | handling a notification never adds or removes a watcher and never changes another watcher's set |
| WatchedFolders.NonMatchingIgnored | src/services/watchedfolders/watchedfolders.class.ts:73-76 | a name the filter rejects leaves every set unchanged and produces no action, whatever the event type or stat outcome |
| WatchedFolders.ForwardExactlyWhen | src/services/watchedfolders/watchedfolders.class.ts:74-97 | a forward happens if and only if the name matches, the event is a rename, the name is unseen and the stat gives a size above zero; a skip happens if and only if the same holds with size zero; a forward carries content type `application/pdf` |
| WatchedFolders.NewFileMarkedBeforeForward | src/services/watchedfolders/watchedfolders.class.ts:83-97 | a rename of an unseen matching name with a successful stat adds the name to the set in the same step that forwards it (size above zero) or skips it (size zero), so a later failure to read or upload cannot unmark it |
| WatchedFolders.KnownNameIgnored | src/services/watchedfolders/watchedfolders.class.ts:83 | a name already in the watcher's set (for instance seeded from the listing) is neither forwarded nor changed on a successful stat |
| WatchedFolders.ChangeEventIgnored | src/services/watchedfolders/watchedfolders.class.ts:83 | a non-rename notification with a successful stat changes no set and forwards nothing |
| WatchedFolders.StatFailures | src/services/watchedfolders/watchedfolders.class.ts:99-105 | "not found" removes the name from the watcher's set for either event type and forwards nothing; any other stat error changes nothing and forwards nothing |
| WatchedFolders.ForwardAgainAfterNotFound | src/services/watchedfolders/watchedfolders.class.ts:83-102 | after a "not found" for a name, a rename of that name with a non-empty file forwards it again |
| WatchedFolders.UnknownWatcherForwardsEveryTime | src/services/watchedfolders/watchedfolders.class.ts:83-84 | for a watcher id without a set, a rename of a non-empty matching file is forwarded and the map stays unchanged |
| WatchedFolders.WatchedFolderService.constructor | src/services/watchedfolders/watchedfolders.class.ts:14 | the known-file map starts empty |
| WatchedFolders.WatchedFolderService.StartWatching | src/services/watchedfolders/watchedfolders.class.ts:42-69 | when the watch opens and the directory is listed, the watched path is the directory-like path and the watcher's set becomes exactly the matching names of the listing, replacing any earlier set; when either fails, nothing changes and nothing is watched |
| WatchedFolders.WatchedFolderService.Setup | src/services/watchedfolders/watchedfolders.class.ts:24-40 | a query result that is not an array changes nothing; otherwise the seeded ids are the old ones plus those of folders whose listing succeeded, each holding the matching names of a listing of a folder with that id, and every other watcher's set is unchanged |
| WatchedFolders.WatchedFolderService.OnChange | src/services/watchedfolders/watchedfolders.class.ts:71-111 | the new map and the action are those of `Step` on the old map |
| WatchedFolders.WatchedFolderService.OnClose | src/services/watchedfolders/watchedfolders.class.ts:64-67 | the closed watcher's set is removed and every other watcher keeps its set |
| WatchTrace.Apply | src/services/watchedfolders/watchedfolders.class.ts:58-102 | a start, notification or close for one watcher keeps every other watcher's presence and set |
| WatchTrace.AtMostOnce | src/services/watchedfolders/watchedfolders.class.ts:83-84 | in any run where the watcher stays open, is not re-seeded and never sees "not found" for the name, the name is forwarded at most once, and never if it was already in the set |
| WatchTrace.SeededNeverForwarded | src/services/watchedfolders/watchedfolders.class.ts:58-84 | a matching name present in the listing when watching starts is forwarded zero times in any such run that follows |
| WatchTrace.RepeatedRenameForwardsOnce | src/services/watchedfolders/watchedfolders.class.ts:83-84 | two successive renames of a name not in an open watcher's set, the first of a non-empty file, forward exactly once |
| WatchTrace.RenameReportedRepeatedlyForwardsOnce | src/services/watchedfolders/watchedfolders.class.ts:83-84 | n ≥ 1 identical renames of a non-empty file whose name is not in an open watcher's set forward exactly once |
| WatchTrace.UnknownWatcherForwardsEachNotification | src/services/watchedfolders/watchedfolders.class.ts:83-84 | for a watcher id without a set, n identical renames of a non-empty matching file give n forwards |
| WatchTrace.Isolation | src/services/watchedfolders/watchedfolders.class.ts:58-102 | a watcher's set and its forwards after any run are the same as after the run reduced to that watcher's own inputs |
| WatchTrace.CloseKeepsOthers | src/services/watchedfolders/watchedfolders.class.ts:64-67 | closing a watcher removes its set and leaves every other watcher's entry as it was |

## Left out

- The filesystem: opening the change subscription (`fs.watch`), listing the directory, `stat` and reading the file. They are inputs (`FolderProbe`, `StatOutcome`). The file's bytes are not modelled: `Forward` carries the name and the content type.
- The uploads service call. It is the `Forward` action; its result, and a failed read, do not feed back into the state, and the model has no input for them.
- `path.normalize` and the internals of `path.join`: `WithTrailingSep` takes a path that is already normalised and models only the trailing-separator step. The separator is a parameter.
- The persistence layer and its query for active folders. Filtering by `active` is done by the store; the model receives the query's result as a `QueryResult`.
- Concurrency: the `Promise.all` fan-out, and the order in which `stat` and directory listings resolve. Inputs are processed one at a time. Setup starts folders in list order, but its contract does not depend on that order.
- The subscription's `error` listener and all logging, including the warning for an empty file (the `SkipEmpty` action stands for it) and the error log for other `stat` failures.
- A notification without a file name, which some platforms report. The model takes the name as a string.
- The sharing of the known-file map: in the source it is one module-level map, shared by every service instance and never cleared by constructing a new one. The model makes it a field of `WatchedFolderService`, and the constructor starts it empty, so the model does not capture two service instances seeing each other's entries.
- The combined path passed to `stat` and `readFile` (folder path joined with the name): the model keys everything by the bare file name.
