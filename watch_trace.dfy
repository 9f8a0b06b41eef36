/**
 The watched-folders service over a whole run: a sequence of watcher
 starts, change notifications (at the moment `stat` answers) and closes,
 processed one at a time. The guarantees here are about every run: a file
 is forwarded at most once until "not found" resets it, files that were
 present when watching began are never forwarded, and what happens to one
 watcher depends only on that watcher's own inputs.
 */
module WatchTrace {
  import opened FilePattern
  import opened WatchedFolders

  /** One input to the service, tagged with the watcher it concerns. */
  datatype Input =
    | Start(id: int, listing: seq<string>)                              // seeding from a listing
    | Notify(id: int, kind: EventKind, name: string, stat: StatOutcome)  // a change notification
    | Close(id: int)                                                    // the subscription closed

  /** The effect of one input on the known-file map, and its action. */
  function Apply(known: KnownFiles, input: Input): (r: (KnownFiles, Action))
    ensures forall other :: other in known && other != input.id ==> other in r.0 && r.0[other] == known[other]
    ensures forall other :: other in r.0 && other != input.id ==> other in known
  {
    match input
    case Start(id, listing) => (known[id := MatchingNames(listing)], NoAction)
    case Notify(id, kind, name, stat) => Step(known, id, kind, name, stat)
    case Close(id) => (known - {id}, NoAction)
  }

  /** The known-file map after a run. */
  function Run(known: KnownFiles, inputs: seq<Input>): KnownFiles
    decreases |inputs|
  {
    if inputs == [] then known else Run(Apply(known, inputs[0]).0, inputs[1..])
  }

  /** How many times a run forwards `name` for watcher `id`. */
  function Forwards(known: KnownFiles, inputs: seq<Input>, id: int, name: string): nat
    decreases |inputs|
  {
    if inputs == [] then 0
    else
      var (next, action) := Apply(known, inputs[0]);
      (if inputs[0].id == id && action == Forward(name, PdfContentType) then 1 else 0)
        + Forwards(next, inputs[1..], id, name)
  }

  /**
   Watcher `id` stays open and is not re-seeded during the run, and `stat`
   never reports `name` as not found for it.
   */
  predicate Undisturbed(inputs: seq<Input>, id: int, name: string)
  {
    forall i :: 0 <= i < |inputs| && inputs[i].id == id ==>
      inputs[i].Notify? && !(inputs[i].name == name && inputs[i].stat == NotFound)
  }

  /** The inputs of a run that concern watcher `id`, in order. */
  function Only(inputs: seq<Input>, id: int): (r: seq<Input>)
    ensures |r| <= |inputs|
    ensures forall i :: 0 <= i < |r| ==> r[i].id == id && r[i] in inputs
    decreases |inputs|
  {
    if inputs == [] then []
    else if inputs[0].id == id then [inputs[0]] + Only(inputs[1..], id)
    else Only(inputs[1..], id)
  }

  /** Two maps agree on watcher `id`: both lack it, or both hold the same set. */
  predicate SameEntry(k1: KnownFiles, k2: KnownFiles, id: int)
  {
    (id in k1 <==> id in k2) && (id in k1 ==> k1[id] == k2[id])
  }

  /** While undisturbed, the watcher keeps its set and a name in it stays in it. */
  lemma UndisturbedStepKeepsName(known: KnownFiles, input: Input, id: int, name: string)
    requires id in known
    requires input.id == id ==> input.Notify? && !(input.name == name && input.stat == NotFound)
    ensures id in Apply(known, input).0
    ensures name in known[id] ==> name in Apply(known, input).0[id]
  {
  }

  /**
   At most once: while the watcher is undisturbed, a run forwards a name
   at most once, and never if the name is already in the watcher's set.
   Failed reads and uploads do not matter: the name was marked first.
   */
  lemma {:induction false} AtMostOnce(known: KnownFiles, inputs: seq<Input>, id: int, name: string)
    requires id in known && Undisturbed(inputs, id, name)
    ensures Forwards(known, inputs, id, name) <= if name in known[id] then 0 else 1
    decreases |inputs|
  {
    if inputs != [] {
      var (next, action) := Apply(known, inputs[0]);
      assert inputs[0].id == id ==> inputs[0].Notify? && !(inputs[0].name == name && inputs[0].stat == NotFound);
      UndisturbedStepKeepsName(known, inputs[0], id, name);
      assert Undisturbed(inputs[1..], id, name) by {
        forall i | 0 <= i < |inputs[1..]| && inputs[1..][i].id == id
          ensures inputs[1..][i].Notify? && !(inputs[1..][i].name == name && inputs[1..][i].stat == NotFound)
        {
          assert inputs[1..][i] == inputs[i + 1];
        }
      }
      AtMostOnce(next, inputs[1..], id, name);
      if inputs[0].id == id && action == Forward(name, PdfContentType) {
        ForwardExactlyWhen(known, id, inputs[0].kind, inputs[0].name, inputs[0].stat);
        assert name in next[id];
      }
    }
  }

  /**
   Files present when watching began are never forwarded: after a start
   whose listing holds a matching name, an undisturbed run forwards it zero
   times.
   */
  lemma SeededNeverForwarded(known: KnownFiles, listing: seq<string>, inputs: seq<Input>, id: int, name: string)
    requires name in listing && IsPdfName(name) && Undisturbed(inputs, id, name)
    ensures Forwards(known, [Start(id, listing)] + inputs, id, name) == 0
  {
    var run := [Start(id, listing)] + inputs;
    assert run[0] == Start(id, listing) && run[1..] == inputs;
    var seeded := known[id := MatchingNames(listing)];
    assert name in seeded[id];
    AtMostOnce(seeded, inputs, id, name);
  }

  /**
   Two notifications for the same new name, with no "not found" between
   them, give one forward: the second sees the name already marked.
   */
  lemma RepeatedRenameForwardsOnce(known: KnownFiles, id: int, name: string, size1: nat, size2: nat)
    requires id in known && name !in known[id] && IsPdfName(name) && size1 > 0
    ensures Forwards(known, [Notify(id, Rename, name, Ok(size1)), Notify(id, Rename, name, Ok(size2))], id, name) == 1
  {
    var run := [Notify(id, Rename, name, Ok(size1)), Notify(id, Rename, name, Ok(size2))];
    var next := Step(known, id, Rename, name, Ok(size1)).0;
    var rest := [Notify(id, Rename, name, Ok(size2))];
    assert run[0] == Notify(id, Rename, name, Ok(size1)) && run[1..] == rest;
    assert name in next[id];
    KnownNameIgnored(next, id, Rename, name, size2);
    assert rest[0] == Notify(id, Rename, name, Ok(size2)) && rest[1..] == [];
    assert Forwards(next, rest, id, name) == 0;
  }

  /**
   However often the rename of a new non-empty file is reported to an open
   watcher, it is forwarded exactly once.
   */
  lemma RenameReportedRepeatedlyForwardsOnce(known: KnownFiles, id: int, name: string, size: nat, n: nat)
    requires id in known && name !in known[id] && IsPdfName(name) && size > 0 && n >= 1
    ensures Forwards(known, seq(n, _ => Notify(id, Rename, name, Ok(size))), id, name) == 1
  {
    var run := seq(n, _ => Notify(id, Rename, name, Ok(size)));
    var next := Step(known, id, Rename, name, Ok(size)).0;
    assert run[0] == Notify(id, Rename, name, Ok(size));
    assert name in next[id];
    assert Undisturbed(run[1..], id, name);
    AtMostOnce(next, run[1..], id, name);
  }

  /**
   A watcher with no set forwards a renamed non-empty file on every one of
   `n` identical notifications.
   */
  lemma {:induction false} UnknownWatcherForwardsEachNotification(known: KnownFiles, id: int, name: string, size: nat, n: nat)
    requires id !in known && IsPdfName(name) && size > 0
    ensures Forwards(known, seq(n, _ => Notify(id, Rename, name, Ok(size))), id, name) == n
    decreases n
  {
    var run := seq(n, _ => Notify(id, Rename, name, Ok(size)));
    if n > 0 {
      UnknownWatcherForwardsEveryTime(known, id, name, size);
      assert run[0] == Notify(id, Rename, name, Ok(size));
      assert run[1..] == seq(n - 1, _ => Notify(id, Rename, name, Ok(size)));
      UnknownWatcherForwardsEachNotification(known, id, name, size, n - 1);
    }
  }

  /** A notification for a watcher behaves the same from any two maps that agree on that watcher. */
  lemma StepDependsOnOwnEntry(k1: KnownFiles, k2: KnownFiles, input: Input)
    requires SameEntry(k1, k2, input.id)
    ensures SameEntry(Apply(k1, input).0, Apply(k2, input).0, input.id)
    ensures Apply(k1, input).1 == Apply(k2, input).1
  {
  }

  /**
   Isolation: a watcher's set and its forwards after a run are those of
   the run reduced to its own inputs; starts, notifications and closes of
   other watchers have no influence on it.
   */
  lemma {:induction false} Isolation(k1: KnownFiles, k2: KnownFiles, inputs: seq<Input>, id: int, name: string)
    requires SameEntry(k1, k2, id)
    ensures SameEntry(Run(k1, inputs), Run(k2, Only(inputs, id)), id)
    ensures Forwards(k1, inputs, id, name) == Forwards(k2, Only(inputs, id), id, name)
    decreases |inputs|
  {
    if inputs != [] {
      var (next1, action1) := Apply(k1, inputs[0]);
      if inputs[0].id == id {
        var only := Only(inputs, id);
        assert only == [inputs[0]] + Only(inputs[1..], id);
        assert only[0] == inputs[0] && only[1..] == Only(inputs[1..], id);
        StepDependsOnOwnEntry(k1, k2, inputs[0]);
        var (next2, action2) := Apply(k2, inputs[0]);
        Isolation(next1, next2, inputs[1..], id, name);
      } else {
        assert SameEntry(next1, k1, id);
        Isolation(next1, k2, inputs[1..], id, name);
      }
    }
  }

  /** Closing a watcher drops only its own set; every other watcher keeps its set. */
  lemma CloseKeepsOthers(known: KnownFiles, id: int, other: int)
    requires other != id
    ensures id !in Apply(known, Close(id)).0
    ensures SameEntry(Apply(known, Close(id)).0, known, other)
  {
  }
}
