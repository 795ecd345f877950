/**
 What every run of the network path watcher keeps: where the two statuses behind a wake come from, how old a
 trusted baseline can be, and who may commit.
*/
module NetworkPathProofs {
  import opened Wrappers
  import opened NetworkPath
  import SystemResume

  // ------------------------------------------------------- reading the log

  /** How many resumes the log shows. */
  function Generation(log: seq<Event>): nat
  {
    if log == [] then 0
    else Generation(log[..|log| - 1]) + (if log[|log| - 1].Resumed? then 1 else 0)
  }

  /** Whether a background was cut short by retirement since the last resume. */
  predicate Cut(log: seq<Event>)
  {
    log != [] && (log[|log| - 1].CutShort? || (!log[|log| - 1].Resumed? && Cut(log[..|log| - 1])))
  }

  function Max(a: nat, b: nat): nat { if a < b then b else a }

  /** When the newest callback delivered so far occurred. */
  function NewestDelivered(log: seq<Event>): nat
  {
    if log == [] then 0
    else
      var before := NewestDelivered(log[..|log| - 1]);
      match log[|log| - 1] case Delivered(occurred, _) => Max(before, occurred) case _ => before
  }

  function NewestTrusted(log: seq<Event>): nat
  {
    if log == [] then 0
    else
      var before := NewestTrusted(log[..|log| - 1]);
      match log[|log| - 1] case Trusted(sample, _) => Max(before, sample.stamp) case _ => before
  }

  function LastCommit(log: seq<Event>): nat
  {
    if log == [] then 0
    else
      var before := LastCommit(log[..|log| - 1]);
      match log[|log| - 1] case Woke(_, _, commitSeq, _) => Max(before, commitSeq) case _ => before
  }

  predicate BootWoken(log: seq<Event>)
  {
    log != [] && (log[|log| - 1].BootWoke? || BootWoken(log[..|log| - 1]))
  }

  /** The newest callback or resume, whichever came last. */
  function LastArrival(log: seq<Event>): Option<Event>
  {
    if log == [] then None
    else if log[|log| - 1].Delivered? || log[|log| - 1].Resumed? then Some(log[|log| - 1])
    else LastArrival(log[..|log| - 1])
  }

  /** The arrival is a callback that occurred at `occurred`. */
  predicate Answers(arrival: Option<Event>, occurred: nat)
  {
    arrival.Some? && arrival.value.Delivered? && arrival.value.occurred == occurred
  }

  /** The writer of a baseline speaks for the newest arrival, the newest resume, or a launch without resumes. */
  predicate OwnsBaseline(before: seq<Event>, writer: Writer)
  {
    match writer
    case ByBootstrap => Generation(before) == 0
    case ByConfirmation(occurred) => Answers(LastArrival(before), occurred)
    case ByRebaseline(generation) => generation == Generation(before)
  }

  /** What holds of an event given everything before it. */
  ghost predicate Justified(world: World, before: seq<Event>, event: Event)
  {
    match event
    case Trusted(sample, writer) =>
      && sample.read && sample.status == world(sample.stamp)
      && NewestDelivered(before) <= sample.stamp
      && NewestTrusted(before) <= sample.stamp
      && sample.generation == Generation(before)
      && OwnsBaseline(before, writer)
    case BootWoke(chain, backgrounded) =>
      SawForegroundRecovery(chain) && !backgrounded && Generation(before) == 0 && !BootWoken(before)
    case Woke(previous, confirmed, commitSeq, backgrounded) =>
      && previous.read && confirmed.read
      && previous.generation == confirmed.generation == Generation(before)
      && (!Cut(before) ==> previous.foreground && confirmed.foreground)
      && previous.stamp <= confirmed.stamp
      && IsRecoveryTransition(world(previous.stamp), world(confirmed.stamp))
      && !backgrounded
      && LastCommit(before) < commitSeq
      && LastArrival(before).Some? && LastArrival(before).value.Delivered?
    case _ => true
  }

  ghost predicate Sound(world: World, log: seq<Event>)
  {
    log == [] || (Sound(world, log[..|log| - 1]) && Justified(world, log[..|log| - 1], log[|log| - 1]))
  }

  lemma {:induction false} Append(world: World, log: seq<Event>, event: Event)
    ensures Generation(log + [event]) == Generation(log) + (if event.Resumed? then 1 else 0)
    ensures Cut(log + [event]) == (event.CutShort? || (!event.Resumed? && Cut(log)))
    ensures NewestDelivered(log + [event])
         == if event.Delivered? then Max(NewestDelivered(log), event.occurred) else NewestDelivered(log)
    ensures NewestTrusted(log + [event])
         == if event.Trusted? then Max(NewestTrusted(log), event.sample.stamp) else NewestTrusted(log)
    ensures LastCommit(log + [event])
         == if event.Woke? then Max(LastCommit(log), event.commitSeq) else LastCommit(log)
    ensures BootWoken(log + [event]) == (event.BootWoke? || BootWoken(log))
    ensures LastArrival(log + [event])
         == if event.Delivered? || event.Resumed? then Some(event) else LastArrival(log)
    ensures Sound(world, log + [event]) == (Sound(world, log) && Justified(world, log, event))
  {
    assert (log + [event])[..|log|] == log;
  }

  // ---------------------------------------------------------- the invariant

  /** `sample` is a native read, and if it belongs to the current episode it was called in the foreground. */
  ghost predicate Genuine(world: World, w: Watcher, log: seq<Event>, sample: Sample)
  {
    && sample.read && sample.status == world(sample.stamp)
    && sample.stamp <= w.clock && sample.generation <= w.resumeGeneration
    && (sample.generation == w.resumeGeneration && !w.tracker.background && !Cut(log) ==> sample.foreground)
  }

  ghost predicate Guarded(world: World, w: Watcher, log: seq<Event>, read: QuietRead)
  {
    && Genuine(world, w, log, read.sample)
    && read.revisionAtCall <= w.callbackRevision
    && (read.revisionAtCall == w.callbackRevision ==> NewestDelivered(log) <= read.sample.stamp)
  }

  /** A read that may still commit: called in this generation, after every trusted baseline. */
  ghost predicate Capable(world: World, w: Watcher, log: seq<Event>, read: QuietRead)
  {
    && Guarded(world, w, log, read)
    && read.sample.generation == w.resumeGeneration
    && NewestTrusted(log) <= read.sample.stamp
  }

  ghost predicate Opens(world: World, w: Watcher, log: seq<Event>)
  {
    match w.boot
    case Idle => true
    case Opening(_, Pending(sample)) => Genuine(world, w, log, sample)
    case Opening(_, Settled(value)) => value.Some? ==> Genuine(world, w, log, value.value)
    case Reading(a, read) => (a.Some? ==> Genuine(world, w, log, a.value)) && Guarded(world, w, log, read)
    case Done => true
  }

  ghost predicate Booting(world: World, w: Watcher, log: seq<Event>)
  {
    && w.lastStatus.None? && w.confirmations == map[] && w.rebaselines == map[] && !w.rebaselineActive
    && (w.bootstrapSawResume <==> w.resumeGeneration > 0)
    && NewestTrusted(log) == 0 && LastCommit(log) == 0 && !BootWoken(log)
    && (w.preSeed == Some([]) ==> NewestDelivered(log) == 0)
    && Opens(world, w, log)
  }

  /** The confirmation that owns the commit sequence, when it is still in flight. */
  ghost predicate OwnerIsFresh(world: World, w: Watcher, log: seq<Event>)
  {
    w.liveCommitSeq in w.confirmations ==>
      var read := w.confirmations[w.liveCommitSeq].read;
      && !w.rebaselineActive && read.attempt == 0 && read.revisionAtCall == w.callbackRevision
      && Capable(world, w, log, read) && LastCommit(log) < w.liveCommitSeq
      && Answers(LastArrival(log), w.confirmations[w.liveCommitSeq].observed.stamp)
  }

  /** Outside the quarantine a trusted baseline is a read of the current episode; inside it, anything but that. */
  ghost predicate TrustIsEarned(world: World, w: Watcher, log: seq<Event>)
  {
    w.baselineTrusted && w.lastStatus.Some? ==>
      var baseline := w.lastStatus.value;
      if w.rebaselineActive then !baseline.read || baseline.generation < w.resumeGeneration
      else
        && Genuine(world, w, log, baseline)
        && baseline.generation == w.resumeGeneration && baseline.stamp <= NewestTrusted(log)
  }

  ghost predicate Live(world: World, w: Watcher, log: seq<Event>)
  {
    && (w.rebaselineActive <==> w.resumeGeneration in w.rebaselines)
    && (w.rebaselineActive ==> Capable(world, w, log, w.rebaselines[w.resumeGeneration]))
    && OwnerIsFresh(world, w, log)
    && TrustIsEarned(world, w, log)
  }

  ghost predicate Keyed(w: Watcher)
  {
    && (forall k :: k in w.confirmations ==> k <= w.liveCommitSeq)
    && (forall g :: g in w.rebaselines ==> g <= w.resumeGeneration)
  }

  ghost predicate Inv(world: World, w: Watcher, log: seq<Event>)
  {
    && Sound(world, log)
    && Generation(log) == w.resumeGeneration
    && NewestDelivered(log) <= w.clock && NewestTrusted(log) <= w.clock && LastCommit(log) <= w.liveCommitSeq
    && (w.listening <==> !w.boot.Idle?) && (w.listening <==> w.tracker.hasListener)
    && (w.preSeed.Some? <==> !w.boot.Done?)
    && Keyed(w)
    && (if w.preSeed.Some? then Booting(world, w, log) else Live(world, w, log))
  }

  /** The invariant as one claim, not reported conjunct by conjunct. */
  ghost predicate Holds(world: World, w: Watcher, log: seq<Event>)
  {
    Inv(world, w, log) == true
  }

  ghost predicate Kept(world: World, log: seq<Event>, reaction: Reaction)
  {
    Holds(world, reaction.0, log + reaction.1)
  }

  lemma KeptQuietly(world: World, w: Watcher, log: seq<Event>)
    requires Inv(world, w, log)
    ensures Kept(world, log, (w, []))
  {
    assert log + [] == log;
  }

  // ------------------------------------------------------------- the steps

  /** What time and the outside world may do without spoiling a sample. */
  ghost predicate Onward(w: Watcher, log: seq<Event>, next: Watcher, after: seq<Event>)
  {
    && w.clock <= next.clock && w.resumeGeneration <= next.resumeGeneration
    && (w.resumeGeneration == next.resumeGeneration && !next.tracker.background && !Cut(after)
        ==> !w.tracker.background && !Cut(log))
    && w.callbackRevision <= next.callbackRevision
    && (w.callbackRevision == next.callbackRevision ==> NewestDelivered(after) == NewestDelivered(log))
  }

  lemma SampleStays(world: World, w: Watcher, log: seq<Event>, next: Watcher, after: seq<Event>, sample: Sample)
    requires Onward(w, log, next, after) && Genuine(world, w, log, sample)
    ensures Genuine(world, next, after, sample)
  {
  }

  lemma ReadStays(world: World, w: Watcher, log: seq<Event>, next: Watcher, after: seq<Event>, read: QuietRead)
    requires Onward(w, log, next, after) && Guarded(world, w, log, read)
    ensures Guarded(world, next, after, read)
  {
    SampleStays(world, w, log, next, after, read.sample);
  }

  lemma OpensStays(world: World, w: Watcher, log: seq<Event>, next: Watcher, after: seq<Event>)
    requires Onward(w, log, next, after) && Opens(world, w, log) && next.boot == w.boot
    ensures Opens(world, next, after)
  {
    match w.boot
    case Reading(a, read) => ReadStays(world, w, log, next, after, read);
    case _ =>
  }

  /** A step that moves only the clock and the lifecycle keeps the watcher's part of the invariant. */
  lemma {:induction false} OutsideKeeps(world: World, w: Watcher, log: seq<Event>, next: Watcher, after: seq<Event>)
    requires Inv(world, w, log) && Onward(w, log, next, after)
    requires next == w.(clock := next.clock, tracker := next.tracker)
    requires next.tracker.hasListener == w.tracker.hasListener
    requires Sound(world, after) && Generation(after) == Generation(log)
    requires NewestDelivered(after) == NewestDelivered(log) && NewestTrusted(after) == NewestTrusted(log)
    requires LastCommit(after) == LastCommit(log) && BootWoken(after) == BootWoken(log)
    requires LastArrival(after) == LastArrival(log)
    ensures Inv(world, next, after)
  {
    if w.preSeed.Some? {
      OpensStays(world, w, log, next, after);
    } else {
      if w.rebaselineActive {
        ReadStays(world, w, log, next, after, w.rebaselines[w.resumeGeneration]);
      } else if w.liveCommitSeq in w.confirmations {
        ReadStays(world, w, log, next, after, w.confirmations[w.liveCommitSeq].read);
      }
    }
  }

  /** Beginning a rebaseline for a generation that owns no read yet. */
  lemma {:induction false} BeginKeeps(world: World, w: Watcher, log: seq<Event>)
    requires Sound(world, log) && Generation(log) == w.resumeGeneration
    requires NewestDelivered(log) <= w.clock && NewestTrusted(log) <= w.clock && LastCommit(log) <= w.liveCommitSeq
    requires w.listening && w.tracker.hasListener && w.preSeed.None? && w.boot.Done? && Keyed(w)
    requires w.liveCommitSeq !in w.confirmations
    requires w.baselineTrusted && w.lastStatus.Some? ==>
      !w.lastStatus.value.read || w.lastStatus.value.generation < w.resumeGeneration
    ensures Inv(world, BeginRebaseline(world, w), log)
  {
  }

  lemma ResumeKeeps(world: World, w: Watcher, log: seq<Event>, tracker: SystemResume.Tracker)
    requires Inv(world, w, log) && w.listening && tracker.hasListener
    ensures Inv(world, OnResumed(world, w.(tracker := tracker)), log + [Resumed])
  {
    var after := log + [Resumed];
    Append(world, log, Resumed);
    var bumped := w.(tracker := tracker, liveCommitSeq := w.liveCommitSeq + 1,
                     resumeGeneration := w.resumeGeneration + 1);
    if w.preSeed.Some? {
      OpensStays(world, w, log, bumped.(bootstrapSawResume := true), after);
    } else {
      BeginKeeps(world, bumped, after);
    }
  }

  lemma LifecycleKeeps(world: World, w: Watcher, log: seq<Event>, stimulus: SystemResume.Stimulus)
    requires Inv(world, w, log) && !stimulus.SetListener?
    ensures Kept(world, log, OnLifecycle(world, w, stimulus))
  {
    var (tracker, events) := SystemResume.React(w.tracker, stimulus);
    SystemResume.LeavingBackground(w.tracker, stimulus);
    Append(world, log, CutShort);
    assert log + [] == log;
    if !w.listening {
    } else if SystemResume.EpochBoundary in events {
      ResumeKeeps(world, w, log, tracker);
    } else {
      var next := w.(tracker := tracker);
      if w.tracker.background && SystemResume.NativeRetired in events {
        OutsideKeeps(world, w, log, next, log + [CutShort]);
      } else {
        OutsideKeeps(world, w, log, next, log);
      }
    }
  }

  lemma ListenKeeps(world: World, w: Watcher, log: seq<Event>)
    requires Inv(world, w, log)
    ensures Kept(world, log, (OnEnsureListening(world, w), []))
  {
    KeptQuietly(world, OnEnsureListening(world, w), log);
  }

  lemma ElapseKeeps(world: World, w: Watcher, log: seq<Event>, ticks: nat)
    requires Inv(world, w, log)
    ensures Kept(world, log, (w.(clock := w.clock + ticks), []))
  {
    OutsideKeeps(world, w, log, w.(clock := w.clock + ticks), log);
    KeptQuietly(world, w.(clock := w.clock + ticks), log);
  }

  // Everything a settled quiet read promises; nothing when the loop goes on or gave up.
  ghost predicate SettlesWell(world: World, w: Watcher, log: seq<Event>, value: Option<Sample>)
  {
    value.Some? ==> Genuine(world, w, log, value.value) && NewestDelivered(log) <= value.value.stamp
  }

  ghost predicate GoesOnWell(world: World, w: Watcher, log: seq<Event>, read: QuietRead, outcome: Outcome)
  {
    match outcome
    case Retry(again) => Guarded(world, w, log, again) && again.sample == ReadNow(world, w)
    case Settle(value) => SettlesWell(world, w, log, value) && (value.Some? ==> value.value == read.sample)
  }

  lemma {:induction false} QuietKeeps(world: World, w: Watcher, log: seq<Event>, read: QuietRead, ok: bool)
    requires Guarded(world, w, log, read) && NewestDelivered(log) <= w.clock
    ensures GoesOnWell(world, w, log, read, QuietStep(world, w, read, ok))
  {
  }

  lemma TailOf(a: Option<Sample>, buffered: seq<Observation>, b: Option<Sample>, backgrounded: bool)
    ensures var chain := Chain(a, buffered, b, backgrounded);
      chain != [] ==>
      chain[|chain| - 1].sample
        == if b.Some? then b.value else if buffered != [] then buffered[|buffered| - 1].sample else a.value
  {
  }

  /** Where the bootstrap ends without a resume: no wake and no resume are behind it. */
  ghost predicate Unwoken(world: World, w: Watcher, log: seq<Event>)
  {
    Holds(world, w, log) && !BootWoken(log) && Generation(log) == 0
  }

  function Placed(w: Watcher, tail: Sample, trusted: bool): Watcher
  {
    w.(preSeed := None, boot := Done, lastStatus := Some(tail), baselineTrusted := trusted)
  }

  lemma UntrustedTailKeeps(world: World, w: Watcher, log: seq<Event>, tail: Sample)
    requires Inv(world, w, log) && w.preSeed.Some? && w.listening && !w.bootstrapSawResume
    ensures Unwoken(world, Placed(w, tail, false), log)
  {
    assert Inv(world, Placed(w, tail, false), log);
  }

  lemma {:induction false} TrustedTailKeeps(world: World, w: Watcher, log: seq<Event>, tail: Sample)
    requires Inv(world, w, log) && w.preSeed.Some? && w.listening && !w.bootstrapSawResume
    requires Genuine(world, w, log, tail) && NewestDelivered(log) <= tail.stamp
    ensures Unwoken(world, Placed(w, tail, true), log + [Trusted(tail, ByBootstrap)])
  {
    var told := log + [Trusted(tail, ByBootstrap)];
    Append(world, log, Trusted(tail, ByBootstrap));
    assert Sound(world, told) && Generation(told) == 0;
    assert Inv(world, Placed(w, tail, true), told);
  }

  lemma {:induction false} BootWakeKeeps(world: World, w: Watcher, log: seq<Event>, chain: seq<Observation>)
    requires Inv(world, w, log) && w.preSeed.None? && !BootWoken(log) && Generation(log) == 0
    requires SawForegroundRecovery(chain) && !w.tracker.background
    ensures Holds(world, w, log + [BootWoke(chain, w.tracker.background)])
  {
    Append(world, log, BootWoke(chain, w.tracker.background));
    assert Inv(world, w, log + [BootWoke(chain, w.tracker.background)]);
  }

  /** The bootstrap's end after a resume: whatever it placed is untrusted, and the rebaseline begins. */
  lemma HandOverKeeps(world: World, w: Watcher, log: seq<Event>, placed: Option<Sample>)
    requires Inv(world, w, log) && w.preSeed.Some? && w.listening
    ensures var done := w.(preSeed := None, boot := Done, baselineTrusted := false, lastStatus := placed);
      Inv(world, BeginRebaseline(world, done), log)
  {
    BeginKeeps(world, w.(preSeed := None, boot := Done, baselineTrusted := false, lastStatus := placed), log);
  }

  lemma ReconcileKeeps(world: World, w: Watcher, log: seq<Event>, a: Option<Sample>, b: Option<Sample>)
    requires Inv(world, w, log) && w.preSeed.Some? && w.listening
    requires a.Some? ==> Genuine(world, w, log, a.value)
    requires SettlesWell(world, w, log, b)
    ensures Kept(world, log, Reconcile(world, w, a, b))
  {
    var buffered := w.preSeed.value;
    var chain := Chain(a, buffered, b, w.tracker.background);
    assert log + [] == log;
    if w.bootstrapSawResume {
      HandOverKeeps(world, w, log, if chain == [] then w.lastStatus else Some(chain[|chain| - 1].sample));
    } else if chain != [] {
      TailOf(a, buffered, b, w.tracker.background);
      PlacedKeeps(world, w, log, chain, b.Some? || buffered == []);
    }
  }

  /** The bootstrap's end without a resume: a snapshot tail is trusted, and at most one wake follows. */
  lemma {:induction false} PlacedKeeps(world: World, w: Watcher, log: seq<Event>, chain: seq<Observation>,
                                       confirmed: bool)
    requires Inv(world, w, log) && w.preSeed.Some? && w.listening && !w.bootstrapSawResume && chain != []
    requires confirmed ==>
      var tail := chain[|chain| - 1].sample; Genuine(world, w, log, tail) && NewestDelivered(log) <= tail.stamp
    ensures Kept(world, log, PlaceBaseline(world, w.(preSeed := None, boot := Done), chain, confirmed))
  {
    var tail := chain[|chain| - 1].sample;
    var placed := Placed(w, tail, confirmed);
    var told := if confirmed then [Trusted(tail, ByBootstrap)] else [];
    var woken := SawForegroundRecovery(chain) && !w.tracker.background;
    if confirmed { TrustedTailKeeps(world, w, log, tail); } else { UntrustedTailKeeps(world, w, log, tail); }
    assert log + [] == log;
    if woken { BootWakeKeeps(world, placed, log + told, chain); }
    Regroup(log, told, if woken then [BootWoke(chain, w.tracker.background)] else []);
  }

  lemma Regroup(log: seq<Event>, first: seq<Event>, second: seq<Event>)
    ensures log + (first + second) == if second == [] then log + first else (log + first) + second
  {
    assert log + (first + second) == (log + first) + second;
  }

  lemma ProceedKeeps(world: World, w: Watcher, log: seq<Event>)
    requires Inv(world, w, log)
    ensures Kept(world, log, Proceed(world, w))
  {
    assert log + [] == log;
    if w.boot.Opening? && w.boot.installed.Some? && w.boot.snapshotA.Settled? && !w.boot.installed.value {
      ReconcileKeeps(world, w, log, w.boot.snapshotA.value, None);
    }
  }

  lemma ListenerReadyKeeps(world: World, w: Watcher, log: seq<Event>, installed: bool)
    requires Inv(world, w, log)
    ensures Kept(world, log, OnListenerReady(world, w, installed))
  {
    assert log + [] == log;
    if w.boot.Opening? && w.boot.installed.None? {
      ProceedKeeps(world, w.(boot := w.boot.(installed := Some(installed))), log);
    }
  }

  lemma SnapshotAKeeps(world: World, w: Watcher, log: seq<Event>, ok: bool)
    requires Inv(world, w, log)
    ensures Kept(world, log, OnSnapshotA(world, w, ok))
  {
    assert log + [] == log;
    if w.boot.Opening? && w.boot.snapshotA.Pending? {
      var value := if ok then Some(w.boot.snapshotA.sample) else None;
      ProceedKeeps(world, w.(boot := w.boot.(snapshotA := Settled(value))), log);
    }
  }

  lemma BootReadKeeps(world: World, w: Watcher, log: seq<Event>, ok: bool)
    requires Inv(world, w, log)
    ensures Kept(world, log, OnBootRead(world, w, ok))
  {
    assert log + [] == log;
    if w.boot.Reading? {
      QuietKeeps(world, w, log, w.boot.read, ok);
      match QuietStep(world, w, w.boot.read, ok)
      case Retry(read) =>
      case Settle(b) => ReconcileKeeps(world, w, log, w.boot.a, b);
    }
  }

  lemma CallbackKeeps(world: World, w: Watcher, log: seq<Event>, occurred: nat)
    requires Inv(world, w, log)
    ensures Kept(world, log, OnCallback(world, w, occurred))
  {
    assert log + [] == log;
    if w.listening && occurred <= w.clock {
      var (next, events) := OnCallback(world, w, occurred);
      var after := log + [Delivered(occurred, w.tracker.background)];
      Append(world, log, Delivered(occurred, w.tracker.background));
      if w.preSeed.Some? {
        OpensStays(world, w, log, next, after);
      } else if w.rebaselineActive {
        ReadStays(world, w, log, next, after, w.rebaselines[w.resumeGeneration]);
      }
      assert Inv(world, next, after);
    }
  }

  /** A confirmation that lost the commit sequence, going on or settling, touches nothing that matters. */
  lemma LateConfirmKeeps(world: World, w: Watcher, log: seq<Event>, commitSeq: nat, pending: Confirmation)
    requires Inv(world, w, log) && commitSeq in w.confirmations && commitSeq != w.liveCommitSeq
    ensures Inv(world, w.(confirmations := w.confirmations[commitSeq := pending]), log)
    ensures Inv(world, w.(confirmations := w.confirmations - {commitSeq}), log)
  {
  }

  lemma ConfirmKeeps(world: World, w: Watcher, log: seq<Event>, commitSeq: nat, ok: bool)
    requires Inv(world, w, log)
    ensures Kept(world, log, OnConfirmRead(world, w, commitSeq, ok))
  {
    if commitSeq !in w.confirmations {
      KeptQuietly(world, w, log);
    } else if commitSeq != w.liveCommitSeq {
      LateConfirm(world, w, log, commitSeq, ok);
    } else {
      OwnConfirm(world, w, log, ok);
    }
  }

  lemma LateConfirm(world: World, w: Watcher, log: seq<Event>, commitSeq: nat, ok: bool)
    requires Inv(world, w, log) && commitSeq in w.confirmations && commitSeq != w.liveCommitSeq
    ensures Kept(world, log, OnConfirmRead(world, w, commitSeq, ok))
  {
    var pending := w.confirmations[commitSeq];
    assert log + [] == log;
    match QuietStep(world, w, pending.read, ok)
    case Retry(read) => LateConfirmKeeps(world, w, log, commitSeq, pending.(read := read));
    case Settle(value) => LateConfirmKeeps(world, w, log, commitSeq, pending);
  }

  lemma OwnConfirm(world: World, w: Watcher, log: seq<Event>, ok: bool)
    requires Inv(world, w, log) && w.liveCommitSeq in w.confirmations
    ensures Kept(world, log, OnConfirmRead(world, w, w.liveCommitSeq, ok))
  {
    var pending := w.confirmations[w.liveCommitSeq];
    var left := w.(confirmations := w.confirmations - {w.liveCommitSeq});
    assert log + [] == log;
    QuietKeeps(world, w, log, pending.read, ok);
    OwnerSettles(world, w, log, ok);
    if ok { CommitKeeps(world, left, log, pending.observed, pending.read.sample); }
  }

  /** The owner's read settles at once: with its own sample, or with none when the native read rejects. */
  lemma OwnerSettles(world: World, w: Watcher, log: seq<Event>, ok: bool)
    requires Inv(world, w, log) && w.liveCommitSeq in w.confirmations
    ensures var read := w.confirmations[w.liveCommitSeq].read;
      && read.attempt == 0
      && QuietStep(world, w, read, ok) == Settle(if ok then Some(read.sample) else None)
  {
  }

  /** A read of a superseded generation or commit sequence, however it settles, moves no baseline and wakes nobody. */
  lemma SupersededWriteNothing(world: World, w: Watcher, key: nat, ok: bool)
    ensures key != w.resumeGeneration ==>
      var (next, events) := OnRebaselineRead(world, w, key, ok);
      next == w.(rebaselines := next.rebaselines) && events == []
    ensures key != w.liveCommitSeq ==>
      var (next, events) := OnConfirmRead(world, w, key, ok);
      next == w.(confirmations := next.confirmations) && events == []
  {
  }

  /** The owner may commit `confirmed`: it speaks for the newest arrival, a callback that occurred at `occurred`. */
  ghost predicate Commits(world: World, w: Watcher, log: seq<Event>, occurred: nat, confirmed: Sample)
  {
    && w.preSeed.None? && !w.rebaselineActive
    && w.liveCommitSeq !in w.confirmations && LastCommit(log) < w.liveCommitSeq
    && Genuine(world, w, log, confirmed) && NewestDelivered(log) <= confirmed.stamp
    && NewestTrusted(log) <= confirmed.stamp && confirmed.generation == w.resumeGeneration
    && Answers(LastArrival(log), occurred)
  }

  /** Its read becomes the trusted baseline. */
  lemma CommitTrusts(world: World, w: Watcher, log: seq<Event>, occurred: nat, confirmed: Sample)
    requires Inv(world, w, log) && Commits(world, w, log, occurred, confirmed)
    ensures Holds(world, w.(lastStatus := Some(confirmed), baselineTrusted := true),
                  log + [Trusted(confirmed, ByConfirmation(occurred))])
  {
    Append(world, log, Trusted(confirmed, ByConfirmation(occurred)));
    assert Inv(world, w.(lastStatus := Some(confirmed), baselineTrusted := true),
               log + [Trusted(confirmed, ByConfirmation(occurred))]);
  }

  /** A wake right after it compares it with the earned baseline it replaces. */
  lemma WakeIsJustified(world: World, w: Watcher, log: seq<Event>, occurred: nat, confirmed: Sample)
    requires Inv(world, w, log) && Commits(world, w, log, occurred, confirmed)
    requires w.baselineTrusted && w.lastStatus.Some? && !w.tracker.background
    requires IsRecoveryTransition(w.lastStatus.value.status, confirmed.status)
    ensures Justified(world, log + [Trusted(confirmed, ByConfirmation(occurred))],
                      Woke(w.lastStatus.value, confirmed, w.liveCommitSeq, w.tracker.background))
  {
    Append(world, log, Trusted(confirmed, ByConfirmation(occurred)));
  }

  lemma WakeKeeps(world: World, w: Watcher, log: seq<Event>, woke: Event)
    requires Inv(world, w, log) && w.preSeed.None? && w.liveCommitSeq !in w.confirmations
    requires woke.Woke? && woke.commitSeq == w.liveCommitSeq && Justified(world, log, woke)
    ensures Holds(world, w, log + [woke])
  {
    Append(world, log, woke);
    assert Inv(world, w, log + [woke]);
  }

  lemma CommitKeeps(world: World, w: Watcher, log: seq<Event>, observed: Sample, confirmed: Sample)
    requires Inv(world, w, log) && Commits(world, w, log, observed.stamp, confirmed)
    ensures Kept(world, log, Apply(w, observed, w.liveCommitSeq, Some(confirmed)))
  {
    var trusted := Trusted(confirmed, ByConfirmation(observed.stamp));
    var next := w.(lastStatus := Some(confirmed), baselineTrusted := true);
    CommitTrusts(world, w, log, observed.stamp, confirmed);
    if w.lastStatus.Some? {
      var woke := Woke(w.lastStatus.value, confirmed, w.liveCommitSeq, w.tracker.background);
      if w.baselineTrusted && !w.tracker.background
         && IsRecoveryTransition(w.lastStatus.value.status, confirmed.status)
      {
        WakeIsJustified(world, w, log, observed.stamp, confirmed);
        WakeKeeps(world, next, log + [trusted], woke);
      }
      assert log + [trusted, woke] == (log + [trusted]) + [woke];
    }
  }

  lemma AdoptKeeps(world: World, w: Watcher, log: seq<Event>, status: Option<Sample>)
    requires Inv(world, w, log) && w.preSeed.None? && w.rebaselineActive
    requires status.Some? ==> status.value == w.rebaselines[w.resumeGeneration].sample
    requires SettlesWell(world, w, log, status)
    ensures var left := w.(rebaselines := w.rebaselines - {w.resumeGeneration});
      Kept(world, log, Rebaseline(left, w.resumeGeneration, status))
  {
    var left := w.(rebaselines := w.rebaselines - {w.resumeGeneration});
    var (next, events) := Rebaseline(left, w.resumeGeneration, status);
    assert log + [] == log;
    if status.Some? { Append(world, log, Trusted(status.value, ByRebaseline(w.resumeGeneration))); }
    assert Inv(world, next, log + events);
  }

  /** A superseded read, going on or settling, touches nothing that matters. */
  lemma SupersededKeeps(world: World, w: Watcher, log: seq<Event>, generation: nat, read: QuietRead)
    requires Inv(world, w, log) && generation in w.rebaselines && generation != w.resumeGeneration
    ensures Inv(world, w.(rebaselines := w.rebaselines[generation := read]), log)
    ensures Inv(world, w.(rebaselines := w.rebaselines - {generation}), log)
  {
  }

  lemma RebaselineKeeps(world: World, w: Watcher, log: seq<Event>, generation: nat, ok: bool)
    requires Inv(world, w, log)
    ensures Kept(world, log, OnRebaselineRead(world, w, generation, ok))
  {
    if generation !in w.rebaselines {
      KeptQuietly(world, w, log);
    } else {
      var read := w.rebaselines[generation];
      if generation != w.resumeGeneration {
        SupersededRead(world, w, log, generation, ok);
      } else {
        OwnRead(world, w, log, ok);
      }
    }
  }

  lemma SupersededRead(world: World, w: Watcher, log: seq<Event>, generation: nat, ok: bool)
    requires Inv(world, w, log) && generation in w.rebaselines && generation != w.resumeGeneration
    ensures Kept(world, log, OnRebaselineRead(world, w, generation, ok))
  {
    assert log + [] == log;
    match QuietStep(world, w, w.rebaselines[generation], ok)
    case Retry(again) => SupersededKeeps(world, w, log, generation, again);
    case Settle(value) => SupersededKeeps(world, w, log, generation, w.rebaselines[generation]);
  }

  lemma OwnRead(world: World, w: Watcher, log: seq<Event>, ok: bool)
    requires Inv(world, w, log) && w.resumeGeneration in w.rebaselines
    ensures Kept(world, log, OnRebaselineRead(world, w, w.resumeGeneration, ok))
  {
    assert log + [] == log;
    QuietKeeps(world, w, log, w.rebaselines[w.resumeGeneration], ok);
    match QuietStep(world, w, w.rebaselines[w.resumeGeneration], ok)
    case Retry(again) =>
    case Settle(value) => AdoptKeeps(world, w, log, value);
  }

  lemma TakeKeeps(world: World, w: Watcher, log: seq<Event>, step: Step)
    requires Inv(world, w, log)
    ensures Kept(world, log, Take(world, w, step))
  {
    match step
    case Elapse(ticks) => ElapseKeeps(world, w, log, ticks);
    case Lifecycle(stimulus) =>
      if stimulus.SetListener? { KeptQuietly(world, w, log); } else { LifecycleKeeps(world, w, log, stimulus); }
    case EnsureListening => ListenKeeps(world, w, log);
    case ListenerReady(installed) => ListenerReadyKeeps(world, w, log, installed);
    case SnapshotASettles(ok) => SnapshotAKeeps(world, w, log, ok);
    case BootReadSettles(ok) => BootReadKeeps(world, w, log, ok);
    case Callback(occurred) => CallbackKeeps(world, w, log, occurred);
    case ConfirmReadSettles(commitSeq, ok) => ConfirmKeeps(world, w, log, commitSeq, ok);
    case RebaselineReadSettles(generation, ok) => RebaselineKeeps(world, w, log, generation, ok);
  }

  lemma {:induction false} RunKeeps(world: World, mode: SystemResume.Mode, hidden: bool, run: seq<Step>)
    ensures Inv(world, Run(world, mode, hidden, run).0, Run(world, mode, hidden, run).1)
  {
    if run != [] {
      var (w, log) := Run(world, mode, hidden, run[..|run| - 1]);
      RunKeeps(world, mode, hidden, run[..|run| - 1]);
      TakeKeeps(world, w, log, run[|run| - 1]);
    }
  }

  // ----------------------------------------------------------- main results

  lemma {:induction false} EachIsJustified(world: World, log: seq<Event>, i: nat)
    requires Sound(world, log) && i < |log|
    ensures Justified(world, log[..i], log[i])
  {
    if i < |log| - 1 {
      EachIsJustified(world, log[..|log| - 1], i);
      assert log[..|log| - 1][..i] == log[..i];
    }
  }

  /** A state some run leads to, with what that run showed. */
  ghost predicate Reachable(world: World, w: Watcher, log: seq<Event>)
  {
    exists mode: SystemResume.Mode, hidden: bool, run: seq<Step> :: Run(world, mode, hidden, run) == (w, log)
  }

  lemma ReachableKeeps(world: World, w: Watcher, log: seq<Event>)
    requires Reachable(world, w, log)
    ensures Holds(world, w, log)
  {
    var mode: SystemResume.Mode, hidden: bool, run: seq<Step> :| Run(world, mode, hidden, run) == (w, log);
    RunKeeps(world, mode, hidden, run);
  }

  /**
   In every run a live wake compares two native reads made since the last resume, of a network that really
   took a recovery transition between them; the app is in the foreground, and so it was at both reads unless
   the native pair was retired in this very episode while the app was backgrounded.
  */
  lemma WakesComeFromThisEpisode(world: World, w: Watcher, log: seq<Event>, i: nat)
    requires Reachable(world, w, log) && i < |log| && log[i].Woke?
    ensures log[i].previous.read && log[i].confirmed.read && !log[i].backgrounded
    ensures log[i].previous.generation == log[i].confirmed.generation == Generation(log[..i])
    ensures !Cut(log[..i]) ==> log[i].previous.foreground && log[i].confirmed.foreground
    ensures log[i].previous.stamp <= log[i].confirmed.stamp
    ensures IsRecoveryTransition(world(log[i].previous.stamp), world(log[i].confirmed.stamp))
  {
    ReachableKeeps(world, w, log);
    EachIsJustified(world, log, i);
  }

  /** The bootstrap wakes at most once, never in the background and never after a resume. */
  lemma BootWakesOnce(world: World, w: Watcher, log: seq<Event>, i: nat)
    requires Reachable(world, w, log) && i < |log| && log[i].BootWoke?
    ensures !BootWoken(log[..i]) && Generation(log[..i]) == 0 && !log[i].backgrounded
    ensures SawForegroundRecovery(log[i].chain)
  {
    ReachableKeeps(world, w, log);
    EachIsJustified(world, log, i);
  }

  lemma {:induction false} NewestIsNewest(log: seq<Event>, j: nat)
    requires j < |log|
    ensures log[j].Trusted? ==> log[j].sample.stamp <= NewestTrusted(log)
    ensures log[j].Delivered? ==> log[j].occurred <= NewestDelivered(log)
    ensures log[j].Woke? ==> log[j].commitSeq <= LastCommit(log)
  {
    if j < |log| - 1 { NewestIsNewest(log[..|log| - 1], j); }
  }

  /**
   In every run the stamps of successive trusted baselines never decrease, each is at least as new as every
   callback delivered before it, and no two wakes share a commit sequence.
  */
  lemma BaselinesNeverAge(world: World, w: Watcher, log: seq<Event>, j: nat, i: nat)
    requires Reachable(world, w, log) && j < i < |log|
    ensures log[j].Trusted? && log[i].Trusted? ==> log[j].sample.stamp <= log[i].sample.stamp
    ensures log[j].Delivered? && log[i].Trusted? ==> log[j].occurred <= log[i].sample.stamp
    ensures log[j].Woke? && log[i].Woke? ==> log[j].commitSeq < log[i].commitSeq
  {
    ReachableKeeps(world, w, log);
    EachIsJustified(world, log, i);
    NewestIsNewest(log[..i], j);
    assert log[..i][j] == log[j];
  }

  /** Every trusted baseline is a native read of the phone's status at its stamp. */
  lemma BaselinesAreReads(world: World, w: Watcher, log: seq<Event>, i: nat)
    requires Reachable(world, w, log) && i < |log| && log[i].Trusted?
    ensures log[i].sample.read && log[i].sample.status == world(log[i].sample.stamp)
  {
    ReachableKeeps(world, w, log);
    EachIsJustified(world, log, i);
  }

  /**
   In every run a confirmation that still owns the commit sequence is on its first attempt, with no callback
   since it was called, outside the quarantine: it settles with its own sample when the native read answers,
   and with none only when that read rejects. The retries can only serve confirmations that lost ownership.
  */
  lemma OwnersNeverRetry(world: World, w: Watcher, log: seq<Event>, ok: bool)
    requires Reachable(world, w, log) && w.liveCommitSeq in w.confirmations
    ensures var read := w.confirmations[w.liveCommitSeq].read;
      && read.attempt == 0 && !w.rebaselineActive && read.sample.generation == w.resumeGeneration
      && QuietStep(world, w, read, ok) == Settle(if ok then Some(read.sample) else None)
  {
    ReachableKeeps(world, w, log);
    OwnerSettles(world, w, log, ok);
  }

  /**
   `baselineTrusted` is honest exactly outside the quarantine: in every run in which it vouches for a baseline,
   that baseline is a native read of the current episode if and only if no rebaseline is active.
  */
  lemma TrustIsHonestIff(world: World, w: Watcher, log: seq<Event>)
    requires Reachable(world, w, log) && w.baselineTrusted && w.lastStatus.Some?
    ensures w.lastStatus.value.read && w.lastStatus.value.generation == w.resumeGeneration <==> !w.rebaselineActive
  {
    ReachableKeeps(world, w, log);
  }

  /** No callback and no resume comes at or after `from`. */
  ghost predicate NoArrival(log: seq<Event>, from: nat)
  {
    forall k :: from <= k < |log| ==> !log[k].Delivered? && !log[k].Resumed?
  }

  lemma {:induction false} ArrivedAt(log: seq<Event>) returns (j: nat)
    requires LastArrival(log).Some?
    ensures j < |log| && log[j] == LastArrival(log).value && NoArrival(log, j + 1)
  {
    var n := |log| - 1;
    if log[n].Delivered? || log[n].Resumed? {
      j := n;
    } else {
      j := ArrivedAt(log[..n]);
      assert forall k :: 0 <= k < n ==> log[..n][k] == log[k];
    }
  }

  /**
   In every run only the current owner makes a baseline trusted. A confirmation does so only for the callback
   at `j` that is still the newest arrival: no callback and no resume came after it. A rebaseline does so only
   for the newest resume, with a read called since that resume; the bootstrap, only before any resume.
  */
  lemma OwnersWriteBaselines(world: World, w: Watcher, log: seq<Event>, i: nat) returns (j: nat)
    requires Reachable(world, w, log) && i < |log| && log[i].Trusted?
    ensures log[i].sample.generation == Generation(log[..i])
    ensures log[i].writer.ByConfirmation? ==>
      j < i && Answers(Some(log[j]), log[i].writer.occurred) && NoArrival(log[..i], j + 1)
    ensures log[i].writer.ByRebaseline? ==> log[i].writer.generation == Generation(log[..i])
    ensures log[i].writer.ByBootstrap? ==> Generation(log[..i]) == 0
  {
    ReachableKeeps(world, w, log);
    EachIsJustified(world, log, i);
    j := 0;
    if log[i].writer.ByConfirmation? {
      j := ArrivedAt(log[..i]);
      assert log[..i][j] == log[j];
    }
  }

  /** Likewise every live wake: the callback it answers is the newest arrival. */
  lemma WakesAnswerNewestCallback(world: World, w: Watcher, log: seq<Event>, i: nat) returns (j: nat)
    requires Reachable(world, w, log) && i < |log| && log[i].Woke?
    ensures j < i && log[j].Delivered? && NoArrival(log[..i], j + 1)
  {
    ReachableKeeps(world, w, log);
    EachIsJustified(world, log, i);
    j := ArrivedAt(log[..i]);
    assert log[..i][j] == log[j];
  }

  /** Whether a baseline and the network's state now are a recovery transition. */
  predicate Recovers(world: World, lastStatus: Option<Sample>, now: nat)
  {
    lastStatus.Some? && IsRecoveryTransition(world(lastStatus.value.stamp), world(now))
  }

  lemma CallbackAsks(world: World, w: Watcher, occurred: nat)
    requires w.listening && w.preSeed.None? && !w.rebaselineActive && occurred <= w.clock
    ensures var (next, events) := OnCallback(world, w, occurred);
      && events == [Delivered(occurred, w.tracker.background)]
      && next.liveCommitSeq == w.liveCommitSeq + 1 && next.liveCommitSeq in next.confirmations
      && next.confirmations[next.liveCommitSeq].read == QuietReadNow(world, next, 0)
      && next.lastStatus == w.lastStatus && next.baselineTrusted == w.baselineTrusted
      && next.tracker == w.tracker && next.resumeGeneration == w.resumeGeneration
      && next.clock == w.clock && next.callbackRevision == w.callbackRevision + 1
  {
  }

  ghost predicate Wakes(events: seq<Event>)
  {
    exists i :: 0 <= i < |events| && events[i].Woke?
  }

  lemma OwnerCommits(world: World, w: Watcher)
    requires w.liveCommitSeq in w.confirmations
    requires w.confirmations[w.liveCommitSeq].read == QuietReadNow(world, w, 0)
    requires w.baselineTrusted && w.lastStatus.Some? ==> w.lastStatus.value.status == world(w.lastStatus.value.stamp)
    ensures var (next, events) := OnConfirmRead(world, w, w.liveCommitSeq, true);
      && next.lastStatus == Some(ReadNow(world, w)) && next.baselineTrusted
      && (Wakes(events) <==> w.baselineTrusted && Recovers(world, w.lastStatus, w.clock) && !w.tracker.background)
  {
    var events := OnConfirmRead(world, w, w.liveCommitSeq, true).1;
    if |events| == 2 { assert events[1].Woke?; }
  }

  /**
   From every reachable state outside bootstrap and quarantine, a callback answered by one quick native read
   makes that read the trusted baseline, and wakes exactly when the old baseline was trusted, the network
   truly recovered since, and the app is in the foreground: no real recovery is missed, and no other wakes.
  */
  lemma QuickAnswerWakesIff(world: World, w: Watcher, log: seq<Event>, occurred: nat)
    requires Reachable(world, w, log)
    requires w.listening && w.preSeed.None? && !w.rebaselineActive && occurred <= w.clock
    ensures var asked := OnCallback(world, w, occurred).0;
      var (next, events) := OnConfirmRead(world, asked, w.liveCommitSeq + 1, true);
      && next.baselineTrusted && next.lastStatus == Some(ReadNow(world, w))
      && (Wakes(events) <==> w.baselineTrusted && Recovers(world, w.lastStatus, w.clock) && !w.tracker.background)
  {
    ReachableKeeps(world, w, log);
    CallbackAsks(world, w, occurred);
    OwnerCommits(world, OnCallback(world, w, occurred).0);
  }
}
