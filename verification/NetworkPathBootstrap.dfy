/**
 What the bootstrap of the network path watcher does, told from outside: exactly when it wakes, and which baseline
 it leaves. The app's observations are read off the log and the two snapshots, not off the watcher's buffer.
*/
module NetworkPathBootstrap {
  import opened Wrappers
  import opened NetworkPath
  import opened NetworkPathProofs
  import SystemResume

  /** A status the watcher was told of, and whether it counts as seen in the background. */
  datatype Seen = Seen(status: Status, backgrounded: bool)

  /** The callbacks, in the order they arrived. */
  function Heard(world: World, log: seq<Event>): seq<Seen>
  {
    if log == [] then []
    else
      Heard(world, log[..|log| - 1])
      + match log[|log| - 1]
        case Delivered(occurred, backgrounded) => [Seen(world(occurred), backgrounded)]
        case _ => []
  }

  /** The step settles snapshot A last, or finds it settled: what A gave. */
  function SnapshotA(w: Watcher, step: Step): Option<Sample>
  {
    match step
    case ListenerReady(_) => if w.boot.Opening? && w.boot.snapshotA.Settled? then w.boot.snapshotA.value else None
    case SnapshotASettles(ok) =>
      if w.boot.Opening? && w.boot.snapshotA.Pending? && ok then Some(w.boot.snapshotA.sample) else None
    case BootReadSettles(_) => if w.boot.Reading? then w.boot.a else None
    case _ => None
  }

  /** What snapshot B gave, if the step is its read settling: nothing unless no callback came meanwhile. */
  function SnapshotB(w: Watcher, step: Step): Option<Sample>
  {
    if step.BootReadSettles? && step.ok && w.boot.Reading? && w.boot.read.revisionAtCall == w.callbackRevision
    then Some(w.boot.read.sample) else None
  }

  /** A snapshot counts as seen in the state the app is in when the bootstrap ends. */
  function Shown(snapshot: Option<Sample>, backgrounded: bool): seq<Seen>
  {
    if snapshot.None? then [] else [Seen(snapshot.value.status, backgrounded)]
  }

  /** All that was seen when the step ends the bootstrap: snapshot A, the callbacks, snapshot B. */
  function Path(world: World, w: Watcher, log: seq<Event>, step: Step): seq<Seen>
  {
    var background := w.tracker.background;
    Shown(SnapshotA(w, step), background) + Heard(world, log) + Shown(SnapshotB(w, step), background)
  }

  /** The network is there, and was not or was another one: the open socket is dead. */
  predicate LosesSocket(previous: Status, next: Status)
  {
    next.connected && (previous.connected ==> previous.connectionType != next.connectionType)
  }

  /** Two sights in a row, both in the foreground, between which the socket died. */
  ghost predicate WorthAWake(path: seq<Seen>)
  {
    exists i :: 0 <= i < |path| - 1 && DiesAt(path, i)
  }

  predicate DiesAt(path: seq<Seen>, i: nat)
    requires i + 1 < |path|
  {
    && !path[i].backgrounded && !path[i + 1].backgrounded
    && LosesSocket(path[i].status, path[i + 1].status)
  }

  predicate EndsBootstrap(world: World, w: Watcher, step: Step)
  {
    w.preSeed.Some? && Take(world, w, step).0.preSeed.None?
  }

  ghost predicate ShowsBootWake(events: seq<Event>)
  {
    exists i :: 0 <= i < |events| && events[i].BootWoke?
  }

  // ------------------------------------------------------ the buffer is the log

  function SeenIn(buffered: seq<Observation>): (path: seq<Seen>)
    ensures |path| == |buffered|
  {
    seq(|buffered|, i requires 0 <= i < |buffered| =>
      Seen(buffered[i].sample.status, buffered[i].backgrounded))
  }

  ghost predicate Buffers(world: World, w: Watcher, log: seq<Event>)
  {
    w.preSeed.Some? ==> SeenIn(w.preSeed.value) == Heard(world, log)
  }

  ghost predicate Silent(events: seq<Event>)
  {
    forall i :: 0 <= i < |events| ==> !events[i].Delivered?
  }

  lemma {:induction false} SilenceIsNotHeard(world: World, log: seq<Event>, events: seq<Event>)
    requires Silent(events)
    ensures Heard(world, log + events) == Heard(world, log)
  {
    if events == [] {
      assert log + events == log;
    } else {
      var n := |events| - 1;
      SilenceIsNotHeard(world, log, events[..n]);
      assert (log + events)[..|log + events| - 1] == log + events[..n];
    }
  }

  lemma {:induction false} HearsOne(world: World, log: seq<Event>, occurred: nat, backgrounded: bool)
    ensures Heard(world, log + [Delivered(occurred, backgrounded)])
         == Heard(world, log) + [Seen(world(occurred), backgrounded)]
  {
    assert (log + [Delivered(occurred, backgrounded)])[..|log|] == log;
  }

  /** A reaction without a callback, that buffers nothing more. */
  ghost predicate Quiet(w: Watcher, reaction: Reaction)
  {
    Silent(reaction.1) && (reaction.0.preSeed == w.preSeed || reaction.0.preSeed.None?)
  }

  lemma ReconcileIsQuiet(world: World, w: Watcher, a: Option<Sample>, b: Option<Sample>)
    ensures Quiet(w, Reconcile(world, w, a, b))
  {
  }

  lemma ProceedIsQuiet(world: World, w: Watcher)
    ensures Quiet(w, Proceed(world, w))
  {
    if w.boot.Opening? && w.boot.installed.Some? && w.boot.snapshotA.Settled? && !w.boot.installed.value {
      ReconcileIsQuiet(world, w, w.boot.snapshotA.value, None);
    }
  }

  lemma BootStepIsQuiet(world: World, w: Watcher, step: Step)
    requires step.ListenerReady? || step.SnapshotASettles? || step.BootReadSettles?
    ensures Quiet(w, Take(world, w, step))
  {
    match step
    case ListenerReady(installed) =>
      if w.boot.Opening? && w.boot.installed.None? {
        ProceedIsQuiet(world, w.(boot := w.boot.(installed := Some(installed))));
      }
    case SnapshotASettles(ok) =>
      if w.boot.Opening? && w.boot.snapshotA.Pending? {
        var value := if ok then Some(w.boot.snapshotA.sample) else None;
        ProceedIsQuiet(world, w.(boot := w.boot.(snapshotA := Settled(value))));
      }
    case BootReadSettles(ok) =>
      if w.boot.Reading? && QuietStep(world, w, w.boot.read, ok).Settle? {
        ReconcileIsQuiet(world, w, w.boot.a, QuietStep(world, w, w.boot.read, ok).value);
      }
  }

  lemma LiveStepIsQuiet(world: World, w: Watcher, step: Step)
    requires step.ConfirmReadSettles? || step.RebaselineReadSettles?
    ensures Quiet(w, Take(world, w, step))
  {
  }

  lemma OthersAreQuiet(world: World, w: Watcher, step: Step)
    requires !step.Callback?
    ensures Quiet(w, Take(world, w, step))
  {
    if step.ListenerReady? || step.SnapshotASettles? || step.BootReadSettles? {
      BootStepIsQuiet(world, w, step);
    } else if step.ConfirmReadSettles? || step.RebaselineReadSettles? {
      LiveStepIsQuiet(world, w, step);
    }
  }

  lemma CallbackIsBuffered(world: World, w: Watcher, log: seq<Event>, occurred: nat)
    requires Buffers(world, w, log)
    ensures Buffers(world, OnCallback(world, w, occurred).0, log + OnCallback(world, w, occurred).1)
  {
    assert log + [] == log;
    HearsOne(world, log, occurred, w.tracker.background);
  }

  lemma {:induction false} RunBuffers(world: World, mode: SystemResume.Mode, hidden: bool, run: seq<Step>)
    ensures Buffers(world, Run(world, mode, hidden, run).0, Run(world, mode, hidden, run).1)
  {
    if run != [] {
      var (w, log) := Run(world, mode, hidden, run[..|run| - 1]);
      var step := run[|run| - 1];
      RunBuffers(world, mode, hidden, run[..|run| - 1]);
      if step.Callback? {
        CallbackIsBuffered(world, w, log, step.occurred);
      } else {
        OthersAreQuiet(world, w, step);
        SilenceIsNotHeard(world, log, Take(world, w, step).1);
      }
    }
  }

  lemma ReachableBuffers(world: World, w: Watcher, log: seq<Event>)
    requires Reachable(world, w, log)
    ensures Buffers(world, w, log)
  {
    var mode: SystemResume.Mode, hidden: bool, run: seq<Step> :| Run(world, mode, hidden, run) == (w, log);
    RunBuffers(world, mode, hidden, run);
  }

  // -------------------------------------------------------- the ending step

  lemma ProceedEnds(world: World, w: Watcher)
    requires w.preSeed.Some? && Proceed(world, w).0.preSeed.None?
    ensures w.boot.Opening? && w.boot.snapshotA.Settled?
    ensures Proceed(world, w) == Reconcile(world, w, w.boot.snapshotA.value, None)
  {
  }

  lemma ReadEnds(world: World, w: Watcher, ok: bool)
    requires w.preSeed.Some? && OnBootRead(world, w, ok).0.preSeed.None?
    ensures OnBootRead(world, w, ok)
         == Reconcile(world, w, SnapshotA(w, BootReadSettles(ok)), SnapshotB(w, BootReadSettles(ok)))
  {
  }

  lemma OnlyBootStepsEnd(world: World, w: Watcher, step: Step)
    requires EndsBootstrap(world, w, step)
    ensures step.ListenerReady? || step.SnapshotASettles? || step.BootReadSettles?
  {
  }

  /** The ending step is a reconciliation of what the two snapshots gave. */
  lemma EndsByReconciling(world: World, w: Watcher, step: Step) returns (ended: Watcher)
    requires EndsBootstrap(world, w, step)
    ensures Take(world, w, step) == Reconcile(world, ended, SnapshotA(w, step), SnapshotB(w, step))
    ensures ended == w.(boot := ended.boot)
  {
    ended := w;
    OnlyBootStepsEnd(world, w, step);
    if step.ListenerReady? {
      ended := w.(boot := w.boot.(installed := Some(step.installed)));
      ProceedEnds(world, ended);
    } else if step.SnapshotASettles? {
      ended := w.(boot := w.boot.(snapshotA := Settled(SnapshotA(w, step))));
      ProceedEnds(world, ended);
    } else {
      ReadEnds(world, w, step.ok);
    }
  }

  lemma ChainIsPath(a: Option<Sample>, buffered: seq<Observation>, b: Option<Sample>, backgrounded: bool)
    ensures SeenIn(Chain(a, buffered, b, backgrounded))
         == Shown(a, backgrounded) + SeenIn(buffered) + Shown(b, backgrounded)
  {
  }

  lemma RecoveryIsWorthAWake(chain: seq<Observation>)
    ensures SawForegroundRecovery(chain) <==> WorthAWake(SeenIn(chain))
  {
    var path := SeenIn(chain);
    if SawForegroundRecovery(chain) {
      var i :| 0 < i < |chain| && ForegroundRecovery(chain[i - 1], chain[i]);
      assert DiesAt(path, i - 1);
    }
    if WorthAWake(path) {
      var i :| 0 <= i < |path| - 1 && DiesAt(path, i);
      assert ForegroundRecovery(chain[i + 1 - 1], chain[i + 1]);
    }
  }

  /** What a reconciliation shows and leaves, by what was seen. */
  ghost predicate EndsWith(w: Watcher, reaction: Reaction, path: seq<Seen>, confirmed: bool)
  {
    var (next, events) := reaction;
    && (ShowsBootWake(events) <==> !w.bootstrapSawResume && !w.tracker.background && WorthAWake(path))
    && (path != [] ==> next.lastStatus.Some? && next.lastStatus.value.status == path[|path| - 1].status)
    && (path == [] ==> next.lastStatus == w.lastStatus)
    && (next.rebaselineActive <==> w.bootstrapSawResume || w.rebaselineActive)
    && (w.bootstrapSawResume ==> !next.baselineTrusted)
    && (!w.bootstrapSawResume && path != [] ==> (next.baselineTrusted <==> confirmed))
  }

  lemma PlacedEndsWith(world: World, w: Watcher, chain: seq<Observation>, confirmed: bool)
    requires chain != []
    ensures EndsWith(w, PlaceBaseline(world, w, chain, confirmed), SeenIn(chain), confirmed)
  {
    RecoveryIsWorthAWake(chain);
    var events := PlaceBaseline(world, w, chain, confirmed).1;
    if !w.bootstrapSawResume && SawForegroundRecovery(chain) && !w.tracker.background {
      assert events[|events| - 1].BootWoke?;
    }
  }

  lemma NothingSeenEndsWith(world: World, w: Watcher, confirmed: bool)
    requires w.preSeed.Some?
    ensures EndsWith(w, Reconcile(world, w.(preSeed := Some([])), None, None), [], confirmed)
  {
    assert !WorthAWake([]);
  }

  lemma WalkEndsWith(world: World, w: Watcher, a: Option<Sample>, b: Option<Sample>)
    requires w.preSeed.Some?
    ensures EndsWith(w, Reconcile(world, w, a, b), SeenIn(Chain(a, w.preSeed.value, b, w.tracker.background)),
                     b.Some? || w.preSeed.value == [])
  {
    var chain := Chain(a, w.preSeed.value, b, w.tracker.background);
    if chain == [] {
      assert a.None? && b.None? && w.preSeed.value == [] && SeenIn(chain) == [];
      NothingSeenEndsWith(world, w, true);
    } else {
      PlacedEndsWith(world, w.(preSeed := None, boot := Done), chain, b.Some? || w.preSeed.value == []);
    }
  }

  lemma {:induction false} ReconcileEndsWith(world: World, w: Watcher, log: seq<Event>, a: Option<Sample>,
                                             b: Option<Sample>)
    requires w.preSeed.Some? && Buffers(world, w, log)
    ensures var path := Shown(a, w.tracker.background) + Heard(world, log) + Shown(b, w.tracker.background);
      EndsWith(w, Reconcile(world, w, a, b), path, b.Some? || Heard(world, log) == [])
  {
    WalkEndsWith(world, w, a, b);
    ChainIsPath(a, w.preSeed.value, b, w.tracker.background);
    assert |SeenIn(w.preSeed.value)| == |w.preSeed.value|;
  }

  // ----------------------------------------------------------- main results

  /**
   The step that ends the bootstrap wakes if and only if no resume came before it, the app is in the foreground, and
   between two sights in a row of snapshot A, the callbacks and snapshot B, both in the foreground, the socket died.
  */
  lemma {:induction false} BootWakesIff(world: World, w: Watcher, log: seq<Event>, step: Step)
    requires Reachable(world, w, log) && EndsBootstrap(world, w, step)
    ensures ShowsBootWake(Take(world, w, step).1)
       <==> Generation(log) == 0 && !w.tracker.background && WorthAWake(Path(world, w, log, step))
  {
    ReachableKeeps(world, w, log);
    ReachableBuffers(world, w, log);
    var ended := EndsByReconciling(world, w, step);
    ReconcileEndsWith(world, ended, log, SnapshotA(w, step), SnapshotB(w, step));
  }

  /**
   It leaves the newest sight as the baseline. That is trusted if and only if no resume came before and it is a
   snapshot; after a resume the quarantine opens instead. With nothing seen there is no baseline.
  */
  lemma {:induction false} BootLeavesNewest(world: World, w: Watcher, log: seq<Event>, step: Step)
    requires Reachable(world, w, log) && EndsBootstrap(world, w, step)
    ensures var next, path := Take(world, w, step).0, Path(world, w, log, step);
      && (if path == [] then next.lastStatus.None?
          else next.lastStatus.Some? && next.lastStatus.value.status == path[|path| - 1].status)
      && (next.rebaselineActive <==> Generation(log) > 0)
      && (path != [] ==>
            (next.baselineTrusted <==>
               Generation(log) == 0 && (SnapshotB(w, step).Some? || Heard(world, log) == [])))
  {
    ReachableKeeps(world, w, log);
    ReachableBuffers(world, w, log);
    var ended := EndsByReconciling(world, w, step);
    ReconcileEndsWith(world, ended, log, SnapshotA(w, step), SnapshotB(w, step));
  }

  /** The snapshots it is told of are true readings, each of the moment it was called. */
  lemma {:induction false} SnapshotsAreTrue(world: World, w: Watcher, log: seq<Event>, step: Step)
    requires Reachable(world, w, log) && EndsBootstrap(world, w, step)
    ensures SnapshotA(w, step).Some? ==> SnapshotA(w, step).value.status == world(SnapshotA(w, step).value.stamp)
    ensures SnapshotB(w, step).Some? ==>
      var b := SnapshotB(w, step).value; b.status == world(b.stamp) && NewestDelivered(log) <= b.stamp <= w.clock
  {
    ReachableKeeps(world, w, log);
  }
}
