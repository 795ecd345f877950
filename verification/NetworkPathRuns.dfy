/**
 Two short runs of the network path watcher that show why two of its guarantees stop where they do: the
 foreground of both reads behind a wake, and the honesty of `baselineTrusted`.
*/
module NetworkPathRuns {
  import opened Wrappers
  import opened NetworkPath
  import SystemResume

  lemma {:induction false} RunOn(world: World, mode: SystemResume.Mode, hidden: bool, run: seq<Step>, step: Step)
    ensures var (w, log) := Run(world, mode, hidden, run);
      Run(world, mode, hidden, run + [step]) == (Take(world, w, step).0, log + Take(world, w, step).1)
  {
    assert (run + [step])[..|run|] == run;
  }

  /** Connectivity is regained at time 1. */
  function Regained(time: nat): Status
  {
    Status(time > 0, 0)
  }

  const OPEN := [EnsureListening, SnapshotASettles(true), ListenerReady(true), BootReadSettles(true)]

  /** A bootstrap that meets nothing: at time 0, in the foreground, a trusted baseline. */
  lemma Opened(world: World)
    ensures var (w, log) := Run(world, SystemResume.IosLifecycle, false, OPEN);
      var sample := Sample(world(0), 0, 0, true, true);
      && log == [Trusted(sample, ByBootstrap)]
      && w == Fresh(SystemResume.IosLifecycle, false).(
                tracker := SystemResume.Tracker(SystemResume.IosLifecycle, true, false, None, 1, true,
                                                SystemResume.NativePair, 1, false),
                listening := true, preSeed := None, boot := Done, lastStatus := Some(sample))
  {
    var mode := SystemResume.IosLifecycle;
    var sample := Sample(world(0), 0, 0, true, true);
    RunOn(world, mode, false, [], EnsureListening);
    assert [] + [EnsureListening] == OPEN[..1];
    RunOn(world, mode, false, OPEN[..1], OPEN[1]);
    assert OPEN[..1] + [OPEN[1]] == OPEN[..2];
    RunOn(world, mode, false, OPEN[..2], OPEN[2]);
    assert OPEN[..2] + [OPEN[2]] == OPEN[..3];
    RunOn(world, mode, false, OPEN[..3], OPEN[3]);
    assert OPEN[..3] + [OPEN[3]] == OPEN;
    var w3 := Run(world, mode, false, OPEN[..3]).0;
    assert w3.boot == Reading(Some(sample), QuietRead(0, 0, sample));
    assert Chain(Some(sample), [], Some(sample), false) == [Observation(sample, false), Observation(sample, false)];
    assert Chain(Some(sample), [], Some(sample), false)[1].sample == sample;
  }

  function Tracked(background: bool, ownerToken: nat, pair: SystemResume.Pair): SystemResume.Tracker
  {
    SystemResume.Tracker(SystemResume.IosLifecycle, true, background, if background then Some(0) else None, ownerToken,
                         true, pair, 1, false)
  }

  /** A callback in the background asks for a confirmation there. */
  const ASKED := OPEN + [Lifecycle(SystemResume.Native(false, 0)), Callback(0)]

  lemma Asked(world: World)
    ensures var (w, log) := Run(world, SystemResume.IosLifecycle, false, ASKED);
      var sample := Sample(world(0), 0, 0, false, true);
      && |log| == 2
      && w == Run(world, SystemResume.IosLifecycle, false, OPEN).0.(
                tracker := Tracked(true, 1, SystemResume.NativePair), callbackRevision := 1, liveCommitSeq := 1,
                confirmations := map[1 := Confirmation(sample.(read := false), QuietRead(0, 1, sample))])
  {
    var mode := SystemResume.IosLifecycle;
    Opened(world);
    var (w, log) := Run(world, mode, false, OPEN);
    RunOn(world, mode, false, OPEN, ASKED[4]);
    assert OPEN + [ASKED[4]] == ASKED[..5];
    assert Run(world, mode, false, ASKED[..5]) == (w.(tracker := Tracked(true, 1, SystemResume.NativePair)), log + []);
    RunOn(world, mode, false, ASKED[..5], ASKED[5]);
    assert ASKED[..5] + [ASKED[5]] == ASKED;
  }

  /** The confirmation commits silently; then retirement ends the background without a resume. */
  const CUT := ASKED + [ConfirmReadSettles(1, true), Lifecycle(SystemResume.RegistrationFailed)]

  lemma CutBaseline(world: World)
    ensures var (w, log) := Run(world, SystemResume.IosLifecycle, false, CUT);
      && |log| == 4
      && w == Run(world, SystemResume.IosLifecycle, false, OPEN).0.(
                tracker := Tracked(false, 2, SystemResume.Removing), callbackRevision := 1, liveCommitSeq := 1,
                lastStatus := Some(Sample(world(0), 0, 0, false, true)))
  {
    var mode := SystemResume.IosLifecycle;
    Opened(world);
    Asked(world);
    var (asked, log) := Run(world, mode, false, ASKED);
    RunOn(world, mode, false, ASKED, CUT[6]);
    assert ASKED + [CUT[6]] == CUT[..7];
    var committed := asked.(confirmations := map[], lastStatus := Some(Sample(world(0), 0, 0, false, true)));
    assert asked.confirmations - {1} == map[];
    assert Run(world, mode, false, CUT[..7]).0 == committed;
    RunOn(world, mode, false, CUT[..7], CUT[7]);
    assert CUT[..7] + [CUT[7]] == CUT;
  }

  /** Later, in the foreground, a regained connection asks for a confirmation. */
  const REGAINS := CUT + [Elapse(1), Callback(1)]

  lemma Regains()
    ensures var (w, log) := Run(Regained, SystemResume.IosLifecycle, false, REGAINS);
      var before, sample := Sample(Regained(0), 0, 0, false, true), Sample(Regained(1), 1, 0, true, true);
      && |log| == 5 && 2 in w.confirmations && w.liveCommitSeq == 2
      && w.confirmations[2] == Confirmation(sample.(read := false), QuietRead(0, w.callbackRevision, sample))
      && !w.tracker.background && w.baselineTrusted && w.lastStatus == Some(before)
  {
    var mode := SystemResume.IosLifecycle;
    Opened(Regained);
    CutBaseline(Regained);
    var (w, log) := Run(Regained, mode, false, CUT);
    RunOn(Regained, mode, false, CUT, REGAINS[8]);
    assert CUT + [REGAINS[8]] == REGAINS[..9];
    assert Run(Regained, mode, false, REGAINS[..9]) == (w.(clock := 1), log + []);
    RunOn(Regained, mode, false, REGAINS[..9], REGAINS[9]);
    assert REGAINS[..9] + [REGAINS[9]] == REGAINS;
  }

  /**
   Why a wake's reads can be told to be foreground reads only outside the episode that retirement cut short:
   here the wake compares against a read made in the background, and no resume came in between.
  */
  lemma WakeAcrossRetirement()
    ensures var log := Run(Regained, SystemResume.IosLifecycle, false, REGAINS + [ConfirmReadSettles(2, true)]).1;
      |log| == 7 && log[6].Woke? && !log[6].previous.foreground && log[6].confirmed.foreground
  {
    Regains();
    RunOn(Regained, SystemResume.IosLifecycle, false, REGAINS, ConfirmReadSettles(2, true));
  }

  /** A resume opens the quarantine and a late callback is folded into the baseline. */
  const QUARANTINE := OPEN + [Lifecycle(SystemResume.Native(false, 0)), Lifecycle(SystemResume.Native(true, 1)),
                              Callback(0)]

  lemma LeftForeground(world: World)
    ensures var (w, log) := Run(world, SystemResume.IosLifecycle, false, OPEN);
      Run(world, SystemResume.IosLifecycle, false, QUARANTINE[..5])
      == (w.(tracker := Tracked(true, 1, SystemResume.NativePair)), log)
  {
    Opened(world);
    RunOn(world, SystemResume.IosLifecycle, false, OPEN, QUARANTINE[4]);
    assert OPEN + [QUARANTINE[4]] == QUARANTINE[..5];
    var log := Run(world, SystemResume.IosLifecycle, false, OPEN).1;
    assert log + [] == log;
  }

  /** Why `baselineTrusted` is honest only outside the quarantine: here it vouches for a raw callback. */
  lemma TrustInQuarantine(world: World)
    ensures var w := Run(world, SystemResume.IosLifecycle, false, QUARANTINE).0;
      w.baselineTrusted && w.rebaselineActive && w.lastStatus.Some? && !w.lastStatus.value.read
  {
    var mode := SystemResume.IosLifecycle;
    Opened(world);
    LeftForeground(world);
    RunOn(world, mode, false, QUARANTINE[..5], QUARANTINE[5]);
    assert QUARANTINE[..5] + [QUARANTINE[5]] == QUARANTINE[..6];
    RunOn(world, mode, false, QUARANTINE[..6], QUARANTINE[6]);
    assert QUARANTINE[..6] + [QUARANTINE[6]] == QUARANTINE;
  }
}
