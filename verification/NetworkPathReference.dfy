/**
 The network path watcher told simply, and the proof that the code is it. The code lets any number of reads race and
 tells the valid ones apart by three counters; here there is at most one read that may still decide anything, the
 newest, and whatever else is answered is ignored. No counter guards a value: a read only knows whether a callback
 came while it was out.
*/
module NetworkPathReference {
  import opened Wrappers
  import opened NetworkPath
  import opened NetworkPathBootstrap
  import opened NetworkPathProofs
  import SystemResume

  /** What the network was last known to be, and whether a wake may be judged by it. */
  datatype Baseline = Baseline(status: Status, trusted: bool)

  /** A read that is out: what the network was when it was called, the how-manieth call, and whether a callback came. */
  datatype Read = Out(asked: Status, call: nat, disturbed: bool)

  /** The one read that may still decide the baseline, by the number of the arrival it answers. */
  datatype Question =
    | NoQuestion
    | Confirming(arrival: nat, observed: Status, asked: Status)
    | Rebasing(resume: nat, read: Read)

  datatype First = Awaited(asked: Status) | Given(status: Option<Status>)

  datatype Stage =
    | Unheard
    | Starting(installed: Option<bool>, first: First, told: seq<Seen>, resumed: bool)
    | Closing(a: Option<Status>, b: Read, told: seq<Seen>, resumed: bool)
    | Running(baseline: Option<Baseline>, question: Question)

  /** Arrivals are the callbacks that asked for a confirmation, and the resumes. */
  datatype Path = Path(stage: Stage, tracker: SystemResume.Tracker, arrivals: nat, resumes: nat, clock: nat)

  /** The next state, and whether the app is woken. */
  type Move = (Path, bool)

  // ----------------------------------------------------------- the reference

  function Call(world: World, p: Path, call: nat): Read
  {
    Out(world(p.clock), call, false)
  }

  datatype Verdict = Again | Value(status: Option<Status>)

  /** A read counts only if it succeeds and no callback came meanwhile; there are three calls in all. */
  function Judge(read: Read, ok: bool): Verdict
  {
    if ok && read.disturbed && read.call < 3 then Again
    else Value(if ok && !read.disturbed then Some(read.asked) else None)
  }

  function Sight(status: Option<Status>, backgrounded: bool): seq<Seen>
  {
    if status.None? then [] else [Seen(status.value, backgrounded)]
  }

  /** The bootstrap is over: A, what was told, B. */
  function Begin(world: World, p: Path, a: Option<Status>, told: seq<Seen>, b: Option<Status>, resumed: bool): Move
  {
    var background := p.tracker.background;
    var path := Sight(a, background) + told + Sight(b, background);
    var baseline := if path == [] then None
                    else Some(Baseline(path[|path| - 1].status, !resumed && (b.Some? || told == [])));
    (p.(stage := Running(baseline, if resumed then Rebasing(p.resumes, Call(world, p, 1)) else NoQuestion)),
     !resumed && !background && Dies(path))
  }

  /** Somewhere along the path the socket died between two sights in the foreground. */
  predicate Dies(path: seq<Seen>)
  {
    |path| >= 2 && (DiesAt(path, |path| - 2) || Dies(path[..|path| - 1]))
  }

  /** Both the registration and snapshot A are known: read once more, or begin with what there is. */
  function Advance(world: World, p: Path): Move
  {
    if p.stage.Starting? && p.stage.installed.Some? && p.stage.first.Given? then
      if p.stage.installed.value
      then (p.(stage := Closing(p.stage.first.status, Call(world, p, 1), p.stage.told, p.stage.resumed)), false)
      else Begin(world, p, p.stage.first.status, p.stage.told, None, p.stage.resumed)
    else (p, false)
  }

  function Hears(world: World, p: Path, status: Status): Path
  {
    var seen := Seen(status, p.tracker.background);
    match p.stage
    case Unheard => p
    case Starting(installed, first, told, resumed) => p.(stage := Starting(installed, first, told + [seen], resumed))
    case Closing(a, b, told, resumed) => p.(stage := Closing(a, b.(disturbed := true), told + [seen], resumed))
    case Running(_, Rebasing(resume, read)) =>
      p.(stage := Running(Some(Baseline(status, false)), Rebasing(resume, read.(disturbed := true))))
    case Running(baseline, _) =>
      p.(arrivals := p.arrivals + 1,
         stage := Running(baseline, Confirming(p.arrivals + 1, status, world(p.clock))))
  }

  /** What the baseline held no longer vouches for anything after a resume, and is read anew. */
  function Resumes(world: World, p: Path): Path
  {
    var counted := p.(arrivals := p.arrivals + 1, resumes := p.resumes + 1);
    match p.stage
    case Unheard => p
    case Starting(installed, first, told, _) => counted.(stage := Starting(installed, first, told, true))
    case Closing(a, b, told, _) => counted.(stage := Closing(a, b, told, true))
    case Running(baseline, _) =>
      counted.(stage := Running(Doubted(baseline), Rebasing(counted.resumes, Call(world, counted, 1))))
  }

  function Doubted(baseline: Option<Baseline>): Option<Baseline>
  {
    if baseline.None? then None else Some(baseline.value.(trusted := false))
  }

  function Confirms(p: Path, arrival: nat, ok: bool): Move
  {
    if p.stage.Running? && p.stage.question.Confirming? && p.stage.question.arrival == arrival then
      var question, was := p.stage.question, p.stage.baseline;
      var next := if ok then Baseline(question.asked, true) else Baseline(question.observed, false);
      (p.(stage := Running(Some(next), NoQuestion)),
       ok && was.Some? && was.value.trusted && LosesSocket(was.value.status, question.asked) && !p.tracker.background)
    else (p, false)
  }

  function Rebases(world: World, p: Path, resume: nat, ok: bool): Path
  {
    if p.stage.Running? && p.stage.question.Rebasing? && p.stage.question.resume == resume then
      match Judge(p.stage.question.read, ok)
      case Again =>
        p.(stage := p.stage.(question := Rebasing(resume, Call(world, p, p.stage.question.read.call + 1))))
      case Value(status) =>
        p.(stage := Running(if status.Some? then Some(Baseline(status.value, true)) else p.stage.baseline, NoQuestion))
    else p
  }

  function Answers(world: World, p: Path, ok: bool): Move
  {
    if p.stage.Closing? then
      match Judge(p.stage.b, ok)
      case Again => (p.(stage := p.stage.(b := Call(world, p, p.stage.b.call + 1))), false)
      case Value(b) => Begin(world, p, p.stage.a, p.stage.told, b, p.stage.resumed)
    else (p, false)
  }

  function Lives(world: World, p: Path, stimulus: SystemResume.Stimulus): Path
  {
    var (tracker, events) := SystemResume.React(p.tracker, stimulus);
    var seen := p.(tracker := tracker);
    if SystemResume.EpochBoundary in events then Resumes(world, seen) else seen
  }

  /** The epoch boundary is heard from now on, the lifecycle is tracked, and snapshot A is called. */
  function Listens(world: World, p: Path): Path
  {
    var heard := SystemResume.React(p.tracker, SystemResume.SetListener).0;
    p.(tracker := SystemResume.React(heard, SystemResume.EnsureTracking).0,
       stage := Starting(None, Awaited(world(p.clock)), [], false))
  }

  function Goes(world: World, p: Path, step: Step): Move
  {
    match step
    case Elapse(ticks) => (p.(clock := p.clock + ticks), false)
    case Lifecycle(stimulus) => (if stimulus.SetListener? then p else Lives(world, p, stimulus), false)
    case EnsureListening => (if p.stage.Unheard? then Listens(world, p) else p, false)
    case ListenerReady(installed) =>
      if p.stage.Starting? && p.stage.installed.None?
      then Advance(world, p.(stage := p.stage.(installed := Some(installed)))) else (p, false)
    case SnapshotASettles(ok) =>
      if p.stage.Starting? && p.stage.first.Awaited?
      then Advance(world, p.(stage := p.stage.(first := Given(if ok then Some(p.stage.first.asked) else None))))
      else (p, false)
    case BootReadSettles(ok) => Answers(world, p, ok)
    case Callback(occurred) => (if occurred <= p.clock then Hears(world, p, world(occurred)) else p, false)
    case ConfirmReadSettles(arrival, ok) => Confirms(p, arrival, ok)
    case RebaselineReadSettles(resume, ok) => (Rebases(world, p, resume, ok), false)
  }

  /** Where a run leads, and for each of its steps whether the app is woken. */
  function Tells(world: World, mode: SystemResume.Mode, hidden: bool, run: seq<Step>): (Path, seq<bool>)
  {
    if run == [] then (Path(Unheard, SystemResume.Fresh(mode, hidden), 0, 0, 0), [])
    else
      var (p, woken) := Tells(world, mode, hidden, run[..|run| - 1]);
      var (next, wakes) := Goes(world, p, run[|run| - 1]);
      (next, woken + [wakes])
  }

  // -------------------------------------------------------- the code, seen so

  function StatusOf(sample: Option<Sample>): Option<Status>
  {
    if sample.None? then None else Some(sample.value.status)
  }

  function AsRead(w: Watcher, read: QuietRead): Read
  {
    Out(read.sample.status, read.attempt + 1, read.revisionAtCall != w.callbackRevision)
  }

  function AsFirst(snapshot: Snapshot): First
  {
    if snapshot.Pending? then Awaited(snapshot.sample.status) else Given(StatusOf(snapshot.value))
  }

  function AsQuestion(w: Watcher): Question
  {
    if w.resumeGeneration in w.rebaselines then
      Rebasing(w.resumeGeneration, AsRead(w, w.rebaselines[w.resumeGeneration]))
    else if w.liveCommitSeq in w.confirmations then
      var confirmation := w.confirmations[w.liveCommitSeq];
      Confirming(w.liveCommitSeq, confirmation.observed.status, confirmation.read.sample.status)
    else NoQuestion
  }

  function AsBaseline(w: Watcher): Option<Baseline>
  {
    if w.lastStatus.None? then None
    else Some(Baseline(w.lastStatus.value.status, w.baselineTrusted && !w.rebaselineActive))
  }

  function AsStage(w: Watcher): Stage
  {
    var told := if w.preSeed.Some? then SeenIn(w.preSeed.value) else [];
    match w.boot
    case Idle => Unheard
    case Opening(installed, a) => Starting(installed, AsFirst(a), told, w.bootstrapSawResume)
    case Reading(a, read) => Closing(StatusOf(a), AsRead(w, read), told, w.bootstrapSawResume)
    case Done => Running(AsBaseline(w), AsQuestion(w))
  }

  function AsPath(w: Watcher): Path
  {
    Path(AsStage(w), w.tracker, w.liveCommitSeq, w.resumeGeneration, w.clock)
  }

  /** How many times a reaction wakes the app. */
  function Count(events: seq<Event>): nat
  {
    if events == [] then 0
    else
      var last := events[|events| - 1];
      Count(events[..|events| - 1]) + if last.BootWoke? || last.Woke? then 1 else 0
  }

  /** The code's reaction is the reference's move: the same state, and one wake or none. */
  ghost predicate Follows(reaction: Reaction, move: Move)
  {
    AsPath(reaction.0) == move.0 && Count(reaction.1) == if move.1 then 1 else 0
  }

  lemma {:induction false} DiesSomewhere(path: seq<Seen>)
    ensures Dies(path) <==> WorthAWake(path)
  {
    if |path| >= 2 {
      var front := path[..|path| - 1];
      DiesSomewhere(front);
      assert forall i :: 0 <= i < |front| - 1 && DiesAt(front, i) ==> DiesAt(path, i);
      assert forall i :: 0 <= i < |path| - 2 && DiesAt(path, i) ==> DiesAt(front, i);
    }
  }

  lemma OneWake(event: Event)
    ensures Count([]) == 0 && Count([event]) == if event.BootWoke? || event.Woke? then 1 else 0
  {
    assert [event][..0] == [];
  }

  lemma TwoWakes(first: Event, second: Event)
    ensures Count([first, second]) == Count([first]) + Count([second])
  {
    OneWake(first);
    OneWake(second);
    assert [first, second][..1] == [first];
  }

  // ------------------------------------------------------------ step by step

  lemma ElapseFollows(world: World, w: Watcher, ticks: nat)
    ensures Follows(Take(world, w, Elapse(ticks)), Goes(world, AsPath(w), Elapse(ticks)))
  {
  }

  lemma ResumeFollows(world: World, w: Watcher)
    requires w.listening && !w.boot.Idle? && (w.preSeed.Some? <==> !w.boot.Done?)
    ensures AsPath(OnResumed(world, w)) == Resumes(world, AsPath(w))
  {
    if w.boot.Done? { assert AsBaseline(OnResumed(world, w)) == Doubted(AsBaseline(w)); }
  }

  lemma LifecycleFollows(world: World, w: Watcher, log: seq<Event>, stimulus: SystemResume.Stimulus)
    requires Inv(world, w, log) && !stimulus.SetListener?
    ensures Follows(OnLifecycle(world, w, stimulus), (Lives(world, AsPath(w), stimulus), false))
  {
    OneWake(Resumed);
    OneWake(CutShort);
    var (tracker, events) := SystemResume.React(w.tracker, stimulus);
    var seen := w.(tracker := tracker);
    assert AsPath(seen) == AsPath(w).(tracker := tracker);
    if SystemResume.EpochBoundary in events { ResumeFollows(world, seen); }
  }

  /** Before it listens, the watcher has heard nothing. */
  predicate Untouched(w: Watcher)
  {
    w.boot.Idle? ==> !w.listening && !w.tracker.hasListener && w.preSeed == Some([]) && !w.bootstrapSawResume
  }

  lemma ProceedStaysBegun(world: World, w: Watcher)
    requires !w.boot.Idle?
    ensures !Proceed(world, w).0.boot.Idle?
  {
  }

  lemma BootStaysBegun(world: World, w: Watcher, step: Step)
    requires !w.boot.Idle? && (step.ListenerReady? || step.SnapshotASettles? || step.BootReadSettles?)
    ensures !Take(world, w, step).0.boot.Idle?
  {
    if step.ListenerReady? && w.boot.Opening? {
      ProceedStaysBegun(world, w.(boot := w.boot.(installed := Some(step.installed))));
    } else if step.SnapshotASettles? && w.boot.Opening? && w.boot.snapshotA.Pending? {
      var value := if step.ok then Some(w.boot.snapshotA.sample) else None;
      ProceedStaysBegun(world, w.(boot := w.boot.(snapshotA := Settled(value))));
    }
  }

  lemma LifecycleStaysUntouched(world: World, w: Watcher, stimulus: SystemResume.Stimulus)
    requires Untouched(w) && !stimulus.SetListener?
    ensures Untouched(OnLifecycle(world, w, stimulus).0)
  {
  }

  lemma TakeStaysUntouched(world: World, w: Watcher, step: Step)
    requires Untouched(w)
    ensures Untouched(Take(world, w, step).0)
  {
    if step.Lifecycle? {
      if !step.stimulus.SetListener? { LifecycleStaysUntouched(world, w, step.stimulus); }
    } else if !w.boot.Idle? && (step.ListenerReady? || step.SnapshotASettles? || step.BootReadSettles?) {
      BootStaysBegun(world, w, step);
    }
  }

  lemma {:induction false} RunIsUntouched(world: World, mode: SystemResume.Mode, hidden: bool, run: seq<Step>)
    ensures Untouched(Run(world, mode, hidden, run).0)
  {
    if run != [] {
      RunIsUntouched(world, mode, hidden, run[..|run| - 1]);
      TakeStaysUntouched(world, Run(world, mode, hidden, run[..|run| - 1]).0, run[|run| - 1]);
    }
  }

  lemma ListenFollows(world: World, w: Watcher, log: seq<Event>)
    requires Inv(world, w, log) && Untouched(w)
    ensures Follows(Take(world, w, EnsureListening), Goes(world, AsPath(w), EnsureListening))
  {
  }

  lemma ToldOneMore(buffered: seq<Observation>, next: Observation)
    ensures SeenIn(buffered + [next]) == SeenIn(buffered) + [Seen(next.sample.status, next.backgrounded)]
  {
    var all, last := buffered + [next], Seen(next.sample.status, next.backgrounded);
    assert forall i :: 0 <= i < |buffered| ==> all[i] == buffered[i];
    assert SeenIn(all) == SeenIn(buffered) + [last];
  }

  lemma HeardEarly(world: World, w: Watcher, occurred: nat)
    requires w.listening && occurred <= w.clock && w.preSeed.Some? && !w.boot.Idle? && !w.boot.Done?
    requires w.boot.Reading? ==> w.boot.read.revisionAtCall <= w.callbackRevision
    ensures AsPath(OnCallback(world, w, occurred).0) == Hears(world, AsPath(w), world(occurred))
  {
    var next := OnCallback(world, w, occurred).0;
    ToldOneMore(w.preSeed.value, next.preSeed.value[|w.preSeed.value|]);
    assert AsStage(next) == Hears(world, AsPath(w), world(occurred)).stage;
  }

  lemma HeardLive(world: World, w: Watcher, log: seq<Event>, occurred: nat)
    requires Inv(world, w, log) && w.boot.Done? && occurred <= w.clock
    ensures AsPath(OnCallback(world, w, occurred).0) == Hears(world, AsPath(w), world(occurred))
  {
    var next, heard := OnCallback(world, w, occurred).0, Hears(world, AsPath(w), world(occurred));
    assert AsQuestion(next) == heard.stage.question && AsBaseline(next) == heard.stage.baseline;
  }

  lemma CallbackFollows(world: World, w: Watcher, log: seq<Event>, occurred: nat)
    requires Inv(world, w, log)
    ensures Follows(OnCallback(world, w, occurred), Goes(world, AsPath(w), Callback(occurred)))
  {
    OneWake(Delivered(occurred, w.tracker.background));
    if !w.listening || occurred > w.clock {
      assert OnCallback(world, w, occurred) == (w, []);
    } else if w.boot.Done? {
      HeardLive(world, w, log, occurred);
    } else {
      HeardEarly(world, w, occurred);
    }
  }

  /** A superseded read, answered or called again, is neither the newest question nor changes it. */
  lemma SupersededAsks(w: Watcher, key: nat, confirmation: Confirmation, read: QuietRead)
    ensures key != w.liveCommitSeq ==>
      && AsPath(w.(confirmations := w.confirmations[key := confirmation])) == AsPath(w)
      && AsPath(w.(confirmations := w.confirmations - {key})) == AsPath(w)
    ensures key != w.resumeGeneration ==>
      && AsPath(w.(rebaselines := w.rebaselines[key := read])) == AsPath(w)
      && AsPath(w.(rebaselines := w.rebaselines - {key})) == AsPath(w)
  {
  }

  lemma LateConfirmFollows(world: World, w: Watcher, commitSeq: nat, ok: bool)
    requires commitSeq in w.confirmations && commitSeq != w.liveCommitSeq
    ensures Follows(OnConfirmRead(world, w, commitSeq, ok), (AsPath(w), false))
  {
    var pending := w.confirmations[commitSeq];
    var again := QuietReadNow(world, w, pending.read.attempt + 1);
    SupersededAsks(w, commitSeq, pending.(read := again), again);
  }

  lemma ConfirmFollows(world: World, w: Watcher, log: seq<Event>, commitSeq: nat, ok: bool)
    requires Inv(world, w, log)
    ensures Follows(OnConfirmRead(world, w, commitSeq, ok), Confirms(AsPath(w), commitSeq, ok))
  {
    if commitSeq in w.confirmations && commitSeq != w.liveCommitSeq {
      LateConfirmFollows(world, w, commitSeq, ok);
    } else if commitSeq in w.confirmations {
      var (next, events) := OnConfirmRead(world, w, commitSeq, ok);
      assert AsPath(next) == Confirms(AsPath(w), commitSeq, ok).0;
      if |events| == 2 { TwoWakes(events[0], events[1]); }
      if |events| == 1 { OneWake(events[0]); }
    }
  }

  lemma LateRebaselineFollows(world: World, w: Watcher, generation: nat, ok: bool)
    requires generation in w.rebaselines && generation != w.resumeGeneration
    ensures Follows(OnRebaselineRead(world, w, generation, ok), (AsPath(w), false))
  {
    var again := QuietReadNow(world, w, w.rebaselines[generation].attempt + 1);
    SupersededAsks(w, generation, Confirmation(again.sample, again), again);
  }

  lemma RebaselineFollows(world: World, w: Watcher, log: seq<Event>, generation: nat, ok: bool)
    requires Inv(world, w, log)
    ensures Follows(OnRebaselineRead(world, w, generation, ok), (Rebases(world, AsPath(w), generation, ok), false))
  {
    if generation in w.rebaselines && generation != w.resumeGeneration {
      LateRebaselineFollows(world, w, generation, ok);
    } else if generation in w.rebaselines {
      var (next, events) := OnRebaselineRead(world, w, generation, ok);
      assert AsQuestion(next) == Rebases(world, AsPath(w), generation, ok).stage.question;
      if |events| == 1 { OneWake(events[0]); }
    }
  }

  lemma SightsAreChain(a: Option<Sample>, buffered: seq<Observation>, b: Option<Sample>, backgrounded: bool)
    ensures SeenIn(Chain(a, buffered, b, backgrounded))
         == Sight(StatusOf(a), backgrounded) + SeenIn(buffered) + Sight(StatusOf(b), backgrounded)
  {
    ChainIsPath(a, buffered, b, backgrounded);
  }

  lemma {:induction false} PlacedFollows(world: World, w: Watcher, chain: seq<Observation>, confirmed: bool,
                                         path: seq<Seen>)
    requires chain != [] && SeenIn(chain) == path && w.boot.Done? && w.preSeed.None?
    requires !w.rebaselineActive && w.rebaselines == map[] && w.confirmations == map[]
    ensures var (next, events) := PlaceBaseline(world, w, chain, confirmed);
      && AsBaseline(next) == Some(Baseline(path[|path| - 1].status, !w.bootstrapSawResume && confirmed))
      && AsQuestion(next)
           == (if w.bootstrapSawResume then Rebasing(w.resumeGeneration, Call(world, AsPath(w), 1)) else NoQuestion)
      && Count(events) == if !w.bootstrapSawResume && !w.tracker.background && Dies(path) then 1 else 0
  {
    RecoveryIsWorthAWake(chain);
    DiesSomewhere(path);
    var trusted, woke := Trusted(chain[|chain| - 1].sample, ByBootstrap), BootWoke(chain, w.tracker.background);
    OneWake(trusted);
    OneWake(woke);
    TwoWakes(trusted, woke);
    assert [trusted] + [] == [trusted] && [] + [woke] == [woke] && [trusted] + [woke] == [trusted, woke];
  }

  /** The reaction leaves `baseline` and `question`, ends the bootstrap, and wakes once or not at all. */
  ghost predicate Leaves(w: Watcher, reaction: Reaction, baseline: Option<Baseline>, question: Question, wakes: bool)
  {
    var (next, events) := reaction;
    && next.boot.Done? && AsBaseline(next) == baseline && AsQuestion(next) == question
    && next.tracker == w.tracker && next.clock == w.clock
    && next.liveCommitSeq == w.liveCommitSeq && next.resumeGeneration == w.resumeGeneration
    && Count(events) == if wakes then 1 else 0
  }

  lemma {:induction false} LeavesFollows(world: World, w: Watcher, reaction: Reaction, a: Option<Status>,
                                         told: seq<Seen>, b: Option<Status>, path: seq<Seen>)
    requires path == Sight(a, w.tracker.background) + told + Sight(b, w.tracker.background)
    requires var resumed := w.bootstrapSawResume;
      Leaves(w, reaction,
             if path == [] then None
             else Some(Baseline(path[|path| - 1].status, !resumed && (b.Some? || told == []))),
             if resumed then Rebasing(w.resumeGeneration, Call(world, AsPath(w), 1)) else NoQuestion,
             !resumed && !w.tracker.background && Dies(path)) == true
    ensures Follows(reaction, Begin(world, AsPath(w), a, told, b, w.bootstrapSawResume))
  {
  }

  lemma {:induction false} PlacedLeaves(world: World, w: Watcher, chain: seq<Observation>, confirmed: bool,
                                        path: seq<Seen>)
    requires chain != [] && SeenIn(chain) == path && w.boot.Done? && w.preSeed.None?
    requires !w.rebaselineActive && w.rebaselines == map[] && w.confirmations == map[]
    ensures Leaves(w, PlaceBaseline(world, w, chain, confirmed),
                   Some(Baseline(path[|path| - 1].status, !w.bootstrapSawResume && confirmed)),
                   if w.bootstrapSawResume then Rebasing(w.resumeGeneration, Call(world, AsPath(w), 1)) else NoQuestion,
                   !w.bootstrapSawResume && !w.tracker.background && Dies(path)) == true
  {
    PlacedFollows(world, w, chain, confirmed, path);
  }

  lemma NothingLeaves(world: World, w: Watcher)
    requires w.preSeed == Some([]) && w.lastStatus.None?
    requires !w.rebaselineActive && w.rebaselines == map[] && w.confirmations == map[]
    ensures Leaves(w, Reconcile(world, w, None, None), None,
                   if w.bootstrapSawResume then Rebasing(w.resumeGeneration, Call(world, AsPath(w), 1)) else NoQuestion,
                   false) == true
  {
  }

  lemma WalkFollows(world: World, w: Watcher, a: Option<Sample>, b: Option<Sample>, path: seq<Seen>)
    requires w.preSeed.Some? && !w.rebaselineActive && w.rebaselines == map[] && w.confirmations == map[]
    requires w.lastStatus.None?
    requires path == Sight(StatusOf(a), w.tracker.background) + SeenIn(w.preSeed.value)
                     + Sight(StatusOf(b), w.tracker.background)
    requires path == SeenIn(Chain(a, w.preSeed.value, b, w.tracker.background))
    ensures Follows(Reconcile(world, w, a, b),
                    Begin(world, AsPath(w), StatusOf(a), SeenIn(w.preSeed.value), StatusOf(b), w.bootstrapSawResume))
  {
    var chain := Chain(a, w.preSeed.value, b, w.tracker.background);
    var done := w.(preSeed := None, boot := Done);
    assert |path| == |chain| && |SeenIn(w.preSeed.value)| == |w.preSeed.value|;
    if chain != [] {
      PlacedLeaves(world, done, chain, b.Some? || w.preSeed.value == [], path);
    } else {
      assert a.None? && b.None? && w.preSeed.value == [] && !Dies(path);
      NothingLeaves(world, w);
    }
    LeavesFollows(world, w, Reconcile(world, w, a, b), StatusOf(a), SeenIn(w.preSeed.value), StatusOf(b), path);
  }

  lemma ReconcileFollows(world: World, w: Watcher, log: seq<Event>, a: Option<Sample>, b: Option<Sample>)
    requires Inv(world, w, log) && w.preSeed.Some? && w.listening
    ensures Follows(Reconcile(world, w, a, b),
                    Begin(world, AsPath(w), StatusOf(a), SeenIn(w.preSeed.value), StatusOf(b), w.bootstrapSawResume))
  {
    SightsAreChain(a, w.preSeed.value, b, w.tracker.background);
    WalkFollows(world, w, a, b, SeenIn(Chain(a, w.preSeed.value, b, w.tracker.background)));
  }

  lemma ProceedFollows(world: World, w: Watcher, log: seq<Event>)
    requires Inv(world, w, log)
    ensures Follows(Proceed(world, w), Advance(world, AsPath(w)))
  {
    if w.boot.Opening? && w.boot.installed.Some? && w.boot.snapshotA.Settled? {
      if !w.boot.installed.value { ReconcileFollows(world, w, log, w.boot.snapshotA.value, None); }
    }
  }

  lemma BootFollows(world: World, w: Watcher, log: seq<Event>, step: Step)
    requires Inv(world, w, log) && (step.ListenerReady? || step.SnapshotASettles? || step.BootReadSettles?)
    ensures Follows(Take(world, w, step), Goes(world, AsPath(w), step))
  {
    match step
    case ListenerReady(installed) =>
      if w.boot.Opening? && w.boot.installed.None? {
        ProceedFollows(world, w.(boot := w.boot.(installed := Some(installed))), log);
      }
    case SnapshotASettles(ok) =>
      if w.boot.Opening? && w.boot.snapshotA.Pending? {
        var value := if ok then Some(w.boot.snapshotA.sample) else None;
        ProceedFollows(world, w.(boot := w.boot.(snapshotA := Settled(value))), log);
      }
    case BootReadSettles(ok) => BootReadFollows(world, w, log, ok);
  }

  lemma BootReadFollows(world: World, w: Watcher, log: seq<Event>, ok: bool)
    requires Inv(world, w, log)
    ensures Follows(OnBootRead(world, w, ok), Answers(world, AsPath(w), ok))
  {
    if w.boot.Reading? && QuietStep(world, w, w.boot.read, ok).Settle? {
      ReconcileFollows(world, w, log, w.boot.a, QuietStep(world, w, w.boot.read, ok).value);
    }
  }

  lemma TakeFollows(world: World, w: Watcher, log: seq<Event>, step: Step)
    requires Inv(world, w, log) && Untouched(w)
    ensures Follows(Take(world, w, step), Goes(world, AsPath(w), step))
  {
    match step
    case Elapse(ticks) => ElapseFollows(world, w, ticks);
    case Lifecycle(stimulus) => if !stimulus.SetListener? { LifecycleFollows(world, w, log, stimulus); }
    case EnsureListening => ListenFollows(world, w, log);
    case Callback(occurred) => CallbackFollows(world, w, log, occurred);
    case ConfirmReadSettles(commitSeq, ok) => ConfirmFollows(world, w, log, commitSeq, ok);
    case RebaselineReadSettles(generation, ok) => RebaselineFollows(world, w, log, generation, ok);
    case _ => BootFollows(world, w, log, step);
  }

  // ---------------------------------------------------------- the whole run

  /** For each step of a run, how many times the code wakes the app. */
  function Wakes(world: World, mode: SystemResume.Mode, hidden: bool, run: seq<Step>): (wakes: seq<nat>)
    ensures |wakes| == |run|
  {
    if run == [] then []
    else
      var front := run[..|run| - 1];
      Wakes(world, mode, hidden, front)
      + [Count(Take(world, Run(world, mode, hidden, front).0, run[|run| - 1]).1)]
  }

  function Once(woken: seq<bool>): (wakes: seq<nat>)
  {
    seq(|woken|, i requires 0 <= i < |woken| => if woken[i] then 1 else 0)
  }

  /**
   In every run, however its callbacks, reads, edges and resumes interleave, the code stands where the reference
   stands, and wakes the app at the very steps at which the reference does, once each.
  */
  lemma {:induction false} NewestWins(world: World, mode: SystemResume.Mode, hidden: bool, run: seq<Step>)
    ensures AsPath(Run(world, mode, hidden, run).0) == Tells(world, mode, hidden, run).0
    ensures Wakes(world, mode, hidden, run) == Once(Tells(world, mode, hidden, run).1)
  {
    if run != [] {
      var front, step := run[..|run| - 1], run[|run| - 1];
      var (w, log) := Run(world, mode, hidden, front);
      NewestWins(world, mode, hidden, front);
      RunKeeps(world, mode, hidden, front);
      RunIsUntouched(world, mode, hidden, front);
      TakeFollows(world, w, log, step);
    }
  }
}
