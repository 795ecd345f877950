/**
 The network path watcher of the phone shell (mobile-runner-host.ts, MobileNetworkPathWatcher) as a
 transition system: every asynchronous arrival the watcher can see is one step, so a run is any interleaving
 of late callbacks, racing reads, background edges and resumes.

 `World` is the phone's real connection status over native time. A read captures it when called, a callback
 when it occurred; the stamp and the provenance in a `Sample` are bookkeeping that no branch reads.
*/
module NetworkPath {
  import opened Wrappers
  import SystemResume

  datatype Status = Status(connected: bool, connectionType: nat)

  type World = nat -> Status

  /** A status and where it came from: when, in which resume generation, in the foreground or not, by a read or not. */
  datatype Sample = Sample(status: Status, stamp: nat, generation: nat, foreground: bool, read: bool)

  /** A guarded read in flight: which attempt, the callback revision when it was called, what it captured. */
  datatype QuietRead = QuietRead(attempt: nat, revisionAtCall: nat, sample: Sample)

  datatype Confirmation = Confirmation(observed: Sample, read: QuietRead)

  datatype Observation = Observation(sample: Sample, backgrounded: bool)

  /** Snapshot A: in flight with what it captured, or settled. */
  datatype Snapshot = Pending(sample: Sample) | Settled(value: Option<Sample>)

  /** Where the read-listen-read bootstrap stands. */
  datatype Boot =
    | Idle
    | Opening(installed: Option<bool>, snapshotA: Snapshot)
    | Reading(a: Option<Sample>, read: QuietRead)
    | Done

  datatype Watcher = Watcher(
    tracker: SystemResume.Tracker,
    listening: bool,
    lastStatus: Option<Sample>,
    preSeed: Option<seq<Observation>>,
    callbackRevision: nat,
    bootstrapSawResume: bool,
    rebaselineActive: bool,
    liveCommitSeq: nat,
    baselineTrusted: bool,
    resumeGeneration: nat,
    boot: Boot,
    confirmations: map<nat, Confirmation>,   // in flight, by the commit sequence each captured
    rebaselines: map<nat, QuietRead>,        // in flight, by the generation each captured
    clock: nat)

  datatype Step =
    | Elapse(ticks: nat)
    | Lifecycle(stimulus: SystemResume.Stimulus)
    | EnsureListening
    | ListenerReady(installed: bool)
    | SnapshotASettles(ok: bool)
    | BootReadSettles(ok: bool)
    | Callback(occurred: nat)
    | ConfirmReadSettles(commitSeq: nat, ok: bool)
    | RebaselineReadSettles(generation: nat, ok: bool)

  /** Who makes a baseline trusted: the bootstrap, the confirmation of a callback, or the rebaseline of a resume. */
  datatype Writer = ByBootstrap | ByConfirmation(occurred: nat) | ByRebaseline(generation: nat)

  /** What a run shows: callbacks, resume boundaries, baselines adopted as trusted, and wakes. */
  datatype Event =
    | Delivered(occurred: nat, backgrounded: bool)   // and the app's state when it arrived
    | Resumed
    | CutShort                 // the native pair was retired while the app was backgrounded
    | Trusted(sample: Sample, writer: Writer)
    | BootWoke(chain: seq<Observation>, backgrounded: bool)
    | Woke(previous: Sample, confirmed: Sample, commitSeq: nat, backgrounded: bool)

  type Reaction = (Watcher, seq<Event>)

  const QUIET_READ_ATTEMPTS: nat := 3

  /** Connectivity comes back, or the interface changes while connected: either way the open socket is lost. */
  predicate IsRecoveryTransition(previous: Status, status: Status)
  {
    || (!previous.connected && status.connected)
    || (previous.connected && status.connected && previous.connectionType != status.connectionType)
  }

  function ReadNow(world: World, w: Watcher): Sample
  {
    Sample(world(w.clock), w.clock, w.resumeGeneration, !w.tracker.background, true)
  }

  function QuietReadNow(world: World, w: Watcher, attempt: nat): QuietRead
  {
    QuietRead(attempt, w.callbackRevision, ReadNow(world, w))
  }

  datatype Outcome = Retry(read: QuietRead) | Settle(value: Option<Sample>)

  /** One native read resolves or rejects: the quiet loop ends or calls again. */
  function QuietStep(world: World, w: Watcher, read: QuietRead, ok: bool): Outcome
  {
    if !ok then Settle(None)
    else if w.callbackRevision == read.revisionAtCall then Settle(Some(read.sample))
    else if read.attempt + 1 < QUIET_READ_ATTEMPTS then Retry(QuietReadNow(world, w, read.attempt + 1))
    else Settle(None)
  }

  function BeginRebaseline(world: World, w: Watcher): Watcher
  {
    w.(rebaselineActive := true,
       rebaselines := w.rebaselines[w.resumeGeneration := QuietReadNow(world, w, 0)])
  }

  function OnResumed(world: World, w: Watcher): Watcher
  {
    var bumped := w.(liveCommitSeq := w.liveCommitSeq + 1, resumeGeneration := w.resumeGeneration + 1);
    if w.preSeed.Some? then bumped.(bootstrapSawResume := true)
    else BeginRebaseline(world, bumped)
  }

  function OnLifecycle(world: World, w: Watcher, stimulus: SystemResume.Stimulus): Reaction
  {
    var (tracker, events) := SystemResume.React(w.tracker, stimulus);
    var seen := w.(tracker := tracker);
    if SystemResume.EpochBoundary in events then (OnResumed(world, seen), [Resumed])
    else (seen, if w.tracker.background && SystemResume.NativeRetired in events then [CutShort] else [])
  }

  function OnEnsureListening(world: World, w: Watcher): Watcher
  {
    if w.listening then w
    else
      var heard := SystemResume.React(w.tracker, SystemResume.SetListener).0;
      var tracked := w.(listening := true, tracker := SystemResume.React(heard, SystemResume.EnsureTracking).0);
      tracked.(boot := Opening(None, Pending(ReadNow(world, tracked))))
  }

  /** A step of the observed chain that is worth a wake: both ends seen in the foreground. */
  predicate ForegroundRecovery(previous: Observation, next: Observation)
  {
    && !previous.backgrounded && !next.backgrounded
    && IsRecoveryTransition(previous.sample.status, next.sample.status)
  }

  predicate SawForegroundRecovery(chain: seq<Observation>)
  {
    exists i :: 0 < i < |chain| && ForegroundRecovery(chain[i - 1], chain[i])
  }

  function Observed(snapshot: Option<Sample>, backgrounded: bool): seq<Observation>
  {
    if snapshot.None? then [] else [Observation(snapshot.value, backgrounded)]
  }

  function Chain(a: Option<Sample>, buffered: seq<Observation>, b: Option<Sample>, backgrounded: bool): seq<Observation>
  {
    Observed(a, backgrounded) + buffered + Observed(b, backgrounded)
  }

  /** What the walk over a non-empty chain leaves behind; `confirmed` when it ends in a snapshot. */
  function PlaceBaseline(world: World, w: Watcher, chain: seq<Observation>, confirmed: bool): Reaction
    requires chain != []
  {
    var tail := chain[|chain| - 1].sample;
    var placed := w.(lastStatus := Some(tail));
    if w.bootstrapSawResume then (BeginRebaseline(world, placed.(baselineTrusted := false)), [])
    else
      (placed.(baselineTrusted := confirmed),
       (if confirmed then [Trusted(tail, ByBootstrap)] else []) +
       (if SawForegroundRecovery(chain) && !w.tracker.background
        then [BootWoke(chain, w.tracker.background)] else []))
  }

  function Reconcile(world: World, w: Watcher, a: Option<Sample>, b: Option<Sample>): Reaction
  {
    var buffered := if w.preSeed.Some? then w.preSeed.value else [];
    var chain := Chain(a, buffered, b, w.tracker.background);
    var done := w.(preSeed := None, boot := Done);
    if chain != [] then PlaceBaseline(world, done, chain, b.Some? || buffered == [])
    else if w.bootstrapSawResume then (BeginRebaseline(world, done.(baselineTrusted := false)), [])
    else (done, [])
  }

  /** The bootstrap goes on once the registration and snapshot A have both settled. */
  function Proceed(world: World, w: Watcher): Reaction
  {
    if w.boot.Opening? && w.boot.installed.Some? && w.boot.snapshotA.Settled? then
      if w.boot.installed.value
      then (w.(boot := Reading(w.boot.snapshotA.value, QuietReadNow(world, w, 0))), [])
      else Reconcile(world, w, w.boot.snapshotA.value, None)
    else (w, [])
  }

  function OnListenerReady(world: World, w: Watcher, installed: bool): Reaction
  {
    if w.boot.Opening? && w.boot.installed.None?
    then Proceed(world, w.(boot := w.boot.(installed := Some(installed))))
    else (w, [])
  }

  function OnSnapshotA(world: World, w: Watcher, ok: bool): Reaction
  {
    if w.boot.Opening? && w.boot.snapshotA.Pending?
    then
      var value := if ok then Some(w.boot.snapshotA.sample) else None;
      Proceed(world, w.(boot := w.boot.(snapshotA := Settled(value))))
    else (w, [])
  }

  function OnBootRead(world: World, w: Watcher, ok: bool): Reaction
  {
    if !w.boot.Reading? then (w, [])
    else
      match QuietStep(world, w, w.boot.read, ok)
      case Retry(read) => (w.(boot := w.boot.(read := read)), [])
      case Settle(b) => Reconcile(world, w, w.boot.a, b)
  }

  function OnCallback(world: World, w: Watcher, occurred: nat): Reaction
  {
    if !w.listening || occurred > w.clock then (w, [])
    else
      var sample := Sample(world(occurred), occurred, w.resumeGeneration, !w.tracker.background, false);
      var counted := w.(callbackRevision := w.callbackRevision + 1);
      if w.preSeed.Some? then
        (counted.(preSeed := Some(w.preSeed.value + [Observation(sample, w.tracker.background)])),
         [Delivered(occurred, w.tracker.background)])
      else if w.rebaselineActive then
        (counted.(lastStatus := Some(sample)), [Delivered(occurred, w.tracker.background)])
      else
        var commitSeq := w.liveCommitSeq + 1;
        var confirmation := Confirmation(sample, QuietReadNow(world, counted, 0));
        (counted.(liveCommitSeq := commitSeq, confirmations := w.confirmations[commitSeq := confirmation]),
         [Delivered(occurred, w.tracker.background)])
  }

  /** A confirmation whose read settled with `confirmed` (none when no read was quiet). */
  function Apply(w: Watcher, observed: Sample, commitSeq: nat, confirmed: Option<Sample>): Reaction
  {
    if commitSeq != w.liveCommitSeq then (w, [])
    else if confirmed.None? then (w.(lastStatus := Some(observed), baselineTrusted := false), [])
    else
      var current, previous := confirmed.value, w.lastStatus;
      var next := w.(lastStatus := Some(current), baselineTrusted := true);
      var trusted := Trusted(current, ByConfirmation(observed.stamp));
      if previous.None? || !w.baselineTrusted then (next, [trusted])
      else if !IsRecoveryTransition(previous.value.status, current.status) then (next, [trusted])
      else if w.tracker.background then (next, [trusted])
      else (next, [trusted, Woke(previous.value, current, commitSeq, w.tracker.background)])
  }

  function OnConfirmRead(world: World, w: Watcher, commitSeq: nat, ok: bool): Reaction
  {
    if commitSeq !in w.confirmations then (w, [])
    else
      var pending := w.confirmations[commitSeq];
      match QuietStep(world, w, pending.read, ok)
      case Retry(read) => (w.(confirmations := w.confirmations[commitSeq := pending.(read := read)]), [])
      case Settle(value) =>
        Apply(w.(confirmations := w.confirmations - {commitSeq}), pending.observed, commitSeq, value)
  }

  /** The rebaseline read of `generation` settled with `status`. */
  function Rebaseline(w: Watcher, generation: nat, status: Option<Sample>): Reaction
  {
    if generation != w.resumeGeneration then (w, [])
    else if status.Some? then
      (w.(lastStatus := status, baselineTrusted := true, rebaselineActive := false),
       [Trusted(status.value, ByRebaseline(generation))])
    else (w.(baselineTrusted := false, rebaselineActive := false), [])
  }

  function OnRebaselineRead(world: World, w: Watcher, generation: nat, ok: bool): Reaction
  {
    if generation !in w.rebaselines then (w, [])
    else
      match QuietStep(world, w, w.rebaselines[generation], ok)
      case Retry(read) => (w.(rebaselines := w.rebaselines[generation := read]), [])
      case Settle(value) => Rebaseline(w.(rebaselines := w.rebaselines - {generation}), generation, value)
  }

  function Take(world: World, w: Watcher, step: Step): Reaction
  {
    match step
    case Elapse(ticks) => (w.(clock := w.clock + ticks), [])
    // Only the watcher sets the epoch boundary listener.
    case Lifecycle(stimulus) => if stimulus.SetListener? then (w, []) else OnLifecycle(world, w, stimulus)
    case EnsureListening => (OnEnsureListening(world, w), [])
    case ListenerReady(installed) => OnListenerReady(world, w, installed)
    case SnapshotASettles(ok) => OnSnapshotA(world, w, ok)
    case BootReadSettles(ok) => OnBootRead(world, w, ok)
    case Callback(occurred) => OnCallback(world, w, occurred)
    case ConfirmReadSettles(commitSeq, ok) => OnConfirmRead(world, w, commitSeq, ok)
    case RebaselineReadSettles(generation, ok) => OnRebaselineRead(world, w, generation, ok)
  }

  function Fresh(mode: SystemResume.Mode, hidden: bool): Watcher
  {
    Watcher(SystemResume.Fresh(mode, hidden), false, None, Some([]), 0, false, false, 0, true, 0, Idle,
            map[], map[], 0)
  }

  function Run(world: World, mode: SystemResume.Mode, hidden: bool, run: seq<Step>): Reaction
  {
    if run == [] then (Fresh(mode, hidden), [])
    else
      var (w, log) := Run(world, mode, hidden, run[..|run| - 1]);
      var (next, events) := Take(world, w, run[|run| - 1]);
      (next, log + events)
  }
}
