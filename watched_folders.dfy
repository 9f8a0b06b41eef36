/**
 The watched-folders service: the per-watcher sets of known file names,
 seeding them when watching starts, classifying each change notification
 into "ignore", "skip empty file" or "forward to the uploads service", and
 dropping a watcher's set when it closes.

 Filesystem calls are inputs: the outcome of opening the watch and of
 listing the directory (`FolderProbe`), and the outcome of `stat` for each
 notification (`StatOutcome`). The uploads service is an output (`Action`).
 */
module WatchedFolders {
  import opened FilePattern

  datatype Option<T> = None | Some(value: T)

  /** A configured folder as stored by the persistence layer. */
  datatype WatchedFolder = WatchedFolder(id: int, path: string, active: bool)

  /** What the query for active folders gave back. */
  datatype QueryResult =
    | Rows(folders: seq<WatchedFolder>)  // an array of folders
    | NotAnArray                         // any other value (e.g. a paginated page)
    | QueryFailed                        // the query was rejected

  /** What the filesystem did when one folder was set up. */
  datatype FolderProbe =
    | WatchFailed                 // opening the change subscription threw
    | ListingFailed               // the subscription opened, reading the directory failed
    | Listed(names: seq<string>)  // the directory listing

  /** The two event types the change subscription reports. */
  datatype EventKind = Rename | Change

  /** The outcome of `stat` on the changed file. */
  datatype StatOutcome = Ok(size: nat) | NotFound | OtherError

  /** What handling one notification asks of the outside world. */
  datatype Action =
    | NoAction
    | SkipEmpty(name: string)                      // the "file is empty" warning
    | Forward(name: string, contentType: string)   // read the file, create an upload

  const PdfContentType: string := "application/pdf"

  /** Watcher id to the names known to be in its folder. */
  type KnownFiles = map<int, set<string>>

  /** The pattern-matching names of a directory listing: the seed of a watcher. */
  function MatchingNames(listing: seq<string>): set<string>
  {
    set name | name in listing && IsPdfName(name)
  }

  /**
   `!knownFiles.get(id)?.has(name)`: true when the name is not in the
   watcher's set, and also when the watcher has no set at all.
   */
  predicate IsUnseen(known: KnownFiles, id: int, name: string)
  {
    !(id in known && name in known[id])
  }

  /** The set of a watcher with one name added; a watcher without a set is left alone. */
  function AddName(known: KnownFiles, id: int, name: string): KnownFiles
  {
    if id in known then known[id := known[id] + {name}] else known
  }

  /** The set of a watcher with one name removed; a watcher without a set is left alone. */
  function RemoveName(known: KnownFiles, id: int, name: string): KnownFiles
  {
    if id in known then known[id := known[id] - {name}] else known
  }

  /**
   Handling one change notification once `stat` has answered: the new
   known-file map and the action. A step never adds or removes a watcher
   and never touches another watcher's set.
   */
  function Step(known: KnownFiles, id: int, kind: EventKind, name: string, stat: StatOutcome): (r: (KnownFiles, Action))
    ensures r.0.Keys == known.Keys
    ensures forall other :: other in known && other != id ==> r.0[other] == known[other]
  {
    if !IsPdfName(name) then (known, NoAction)
    else
      match stat
      case Ok(size) =>
        if kind == Rename && IsUnseen(known, id, name) then
          (AddName(known, id, name), if size == 0 then SkipEmpty(name) else Forward(name, PdfContentType))
        else (known, NoAction)
      case NotFound => (RemoveName(known, id, name), NoAction)
      case OtherError => (known, NoAction)
  }

  /** A name that does not match the pattern changes nothing and produces nothing. */
  lemma NonMatchingIgnored(known: KnownFiles, id: int, kind: EventKind, name: string, stat: StatOutcome)
    requires !IsPdfName(name)
    ensures Step(known, id, kind, name, stat) == (known, NoAction)
  {
  }

  /**
   The whole decision in one statement: a step forwards exactly when the
   name matches, the event is a rename, the name is unseen and the file is
   non-empty; it skips exactly when the same holds of an empty file.
   */
  lemma ForwardExactlyWhen(known: KnownFiles, id: int, kind: EventKind, name: string, stat: StatOutcome)
    ensures Step(known, id, kind, name, stat).1.Forward? <==>
              IsPdfName(name) && kind == Rename && IsUnseen(known, id, name) && stat.Ok? && stat.size > 0
    ensures Step(known, id, kind, name, stat).1.SkipEmpty? <==>
              IsPdfName(name) && kind == Rename && IsUnseen(known, id, name) && stat == Ok(0)
    ensures Step(known, id, kind, name, stat).1.Forward? ==>
              Step(known, id, kind, name, stat).1 == Forward(name, PdfContentType)
  {
  }

  /**
   A rename of an unseen matching name that `stat` finds marks the name
   before anything is read or uploaded, so a failing read or upload later
   cannot cause a retry.
   */
  lemma NewFileMarkedBeforeForward(known: KnownFiles, id: int, name: string, size: nat)
    requires IsPdfName(name) && id in known && name !in known[id]
    ensures Step(known, id, Rename, name, Ok(size)).0 == known[id := known[id] + {name}]
    ensures Step(known, id, Rename, name, Ok(size)).1 ==
              if size > 0 then Forward(name, PdfContentType) else SkipEmpty(name)
  {
  }

  /** A name already in the set (e.g. seeded from the listing) is neither forwarded nor changed. */
  lemma KnownNameIgnored(known: KnownFiles, id: int, kind: EventKind, name: string, size: nat)
    requires id in known && name in known[id]
    ensures Step(known, id, kind, name, Ok(size)) == (known, NoAction)
  {
  }

  /** A non-rename notification with a successful `stat` changes nothing and forwards nothing. */
  lemma ChangeEventIgnored(known: KnownFiles, id: int, name: string, size: nat)
    ensures Step(known, id, Change, name, Ok(size)) == (known, NoAction)
  {
  }

  /**
   `stat` runs before the rename check, so "not found" removes the name for
   either event type and forwards nothing; any other `stat` error changes
   nothing.
   */
  lemma StatFailures(known: KnownFiles, id: int, kind: EventKind, name: string)
    requires IsPdfName(name)
    ensures Step(known, id, kind, name, NotFound) == (RemoveName(known, id, name), NoAction)
    ensures id in known ==> name !in Step(known, id, kind, name, NotFound).0[id]
    ensures Step(known, id, kind, name, OtherError) == (known, NoAction)
  {
  }

  /** After "not found", the same name is new again: a rename of a non-empty file forwards it. */
  lemma ForwardAgainAfterNotFound(known: KnownFiles, id: int, kind: EventKind, name: string, size: nat)
    requires IsPdfName(name) && size > 0
    ensures var (afterGone, _) := Step(known, id, kind, name, NotFound);
            Step(afterGone, id, Rename, name, Ok(size)).1 == Forward(name, PdfContentType)
  {
  }

  /**
   A watcher without a set (never seeded, or already closed) forwards a
   renamed non-empty file on every notification: the optional chaining
   makes the name look unseen and the `add` does nothing.
   */
  lemma UnknownWatcherForwardsEveryTime(known: KnownFiles, id: int, name: string, size: nat)
    requires id !in known && IsPdfName(name) && size > 0
    ensures Step(known, id, Rename, name, Ok(size)) == (known, Forward(name, PdfContentType))
  {
  }

  /**
   The ids of the folders, among the first `n`, whose watcher was seeded.
   */
  function SeededIds(folders: seq<WatchedFolder>, probes: seq<FolderProbe>, n: nat): set<int>
    requires n <= |folders| == |probes|
  {
    set i | 0 <= i < n && probes[i].Listed? :: folders[i].id
  }

  lemma SeededIdsNext(folders: seq<WatchedFolder>, probes: seq<FolderProbe>, n: nat)
    requires n < |folders| == |probes|
    ensures SeededIds(folders, probes, n + 1) ==
              SeededIds(folders, probes, n) + (if probes[n].Listed? then {folders[n].id} else {})
  {
    var next := SeededIds(folders, probes, n + 1);
    var prev := SeededIds(folders, probes, n);
    forall id | id in next
      ensures id in prev + (if probes[n].Listed? then {folders[n].id} else {})
    {
      var i :| 0 <= i < n + 1 && probes[i].Listed? && folders[i].id == id;
      if i < n {
        assert id in prev;
      }
    }
  }

  /**
   The service object. The module-level map of known files is its field;
   the methods are its bootstrap, the per-folder start, the change listener
   and the close listener.
   */
  class WatchedFolderService {
    var knownFiles: KnownFiles

    constructor ()
      ensures knownFiles == map[]
    {
      knownFiles := map[];
    }

    /**
     Starts watching one folder: the path is made directory-like, and when
     the subscription opened and the directory could be listed, the
     watcher's set becomes exactly the matching names of the listing,
     replacing any earlier set for that id. Returns the watched path when
     the change listener was installed.
     */
    method StartWatching(folder: WatchedFolder, probe: FolderProbe, sep: char) returns (watching: Option<string>)
      modifies this
      ensures probe.Listed? ==> watching == Some(WithTrailingSep(folder.path, sep))
      ensures probe.Listed? ==> knownFiles == old(knownFiles)[folder.id := MatchingNames(probe.names)]
      ensures !probe.Listed? ==> watching == None && knownFiles == old(knownFiles)
    {
      var normalizedPath := folder.path;
      if !EndsWithSep(normalizedPath, sep) {
        normalizedPath := normalizedPath + [sep];
      }
      match probe
      case WatchFailed =>
        watching := None;
      case ListingFailed =>
        watching := None;
      case Listed(names) =>
        knownFiles := knownFiles[folder.id := MatchingNames(names)];
        watching := Some(normalizedPath);
    }

    /**
     Bootstrap: a query result that is not an array starts nothing.
     Otherwise every folder is started; afterwards the seeded watchers are
     those whose listing succeeded, each holding the matching names of a
     listing of a folder with its id (whichever order the folders were
     started in), and every other watcher's set is as before.
     */
    method Setup(query: QueryResult, probes: seq<FolderProbe>, sep: char)
      requires query.Rows? ==> |probes| == |query.folders|
      modifies this
      ensures !query.Rows? ==> knownFiles == old(knownFiles)
      ensures query.Rows? ==>
                knownFiles.Keys == old(knownFiles).Keys + SeededIds(query.folders, probes, |probes|)
      ensures query.Rows? ==>
                forall id :: id in old(knownFiles) && id !in SeededIds(query.folders, probes, |probes|) ==>
                  knownFiles[id] == old(knownFiles)[id]
      ensures query.Rows? ==>
                forall id :: id in SeededIds(query.folders, probes, |probes|) ==>
                  exists i :: 0 <= i < |probes| && query.folders[i].id == id && probes[i].Listed? &&
                    knownFiles[id] == MatchingNames(probes[i].names)
    {
      if !query.Rows? {
        return;
      }
      var folders := query.folders;
      var k := 0;
      while k < |folders|
        invariant 0 <= k <= |folders|
        invariant knownFiles.Keys == old(knownFiles).Keys + SeededIds(folders, probes, k)
        invariant forall id :: id in old(knownFiles) && id !in SeededIds(folders, probes, k) ==>
                    knownFiles[id] == old(knownFiles)[id]
        invariant forall id :: id in SeededIds(folders, probes, k) ==>
                    exists i :: 0 <= i < k && folders[i].id == id && probes[i].Listed? &&
                      knownFiles[id] == MatchingNames(probes[i].names)
      {
        SeededIdsNext(folders, probes, k);
        var _ := StartWatching(folders[k], probes[k], sep);
        k := k + 1;
      }
    }

    /**
     The change listener, run when `stat` has answered for a notification.
     Its effect and action are those of `Step`.
     */
    method OnChange(id: int, kind: EventKind, name: string, stat: StatOutcome) returns (action: Action)
      modifies this
      ensures (knownFiles, action) == Step(old(knownFiles), id, kind, name, stat)
    {
      if !IsPdfName(name) {
        return NoAction;
      }
      match stat
      case Ok(size) =>
        if kind == Rename && !(id in knownFiles && name in knownFiles[id]) {
          if id in knownFiles {
            knownFiles := knownFiles[id := knownFiles[id] + {name}];
          }
          if size == 0 {
            return SkipEmpty(name);
          }
          return Forward(name, PdfContentType);
        }
        action := NoAction;
      case NotFound =>
        if id in knownFiles {
          knownFiles := knownFiles[id := knownFiles[id] - {name}];
        }
        action := NoAction;
      case OtherError =>
        action := NoAction;
    }

    /** The close listener: the watcher's set is dropped, every other one is kept. */
    method OnClose(id: int)
      modifies this
      ensures id !in knownFiles
      ensures knownFiles.Keys == old(knownFiles).Keys - {id}
      ensures forall other :: other in knownFiles ==> knownFiles[other] == old(knownFiles)[other]
    {
      knownFiles := knownFiles - {id};
    }
  }
}
