/**
 The network path watcher as the object it is (mobile-runner-host.ts, MobileNetworkPathWatcher): its fields,
 changed by callbacks and by the continuations of its native reads. Every method is proved against the
 transition system of `NetworkPath`.

 A suspended activation (a confirmation, a rebaseline, the bootstrap) is an entry of the matching in-flight
 field; the method named after its settling is what runs when its native read comes back.
*/
module NetworkPathWatcher {
  import opened Wrappers
  import opened NetworkPath
  import SystemResume

  class MobileNetworkPathWatcher {
    const systemResume: SystemResume.MobileSystemResume
    const world: World
    var clock: nat
    var listening: bool
    var lastStatus: Option<Sample>
    var preSeedObservations: Option<seq<Observation>>
    var callbackRevision: nat
    var bootstrapSawResume: bool
    var rebaselineActive: bool
    var liveCommitSeq: nat
    var baselineTrusted: bool
    var resumeGeneration: nat
    var boot: Boot
    var confirmations: map<nat, Confirmation>
    var rebaselines: map<nat, QuietRead>

    ghost function View(): Watcher
      reads this, systemResume
    {
      Watcher(systemResume.View(), listening, lastStatus, preSeedObservations, callbackRevision, bootstrapSawResume,
              rebaselineActive, liveCommitSeq, baselineTrusted, resumeGeneration, boot, confirmations, rebaselines,
              clock)
    }

    constructor (systemResume: SystemResume.MobileSystemResume, world: World)
      ensures this.systemResume == systemResume && this.world == world
      ensures View() == Fresh(systemResume.mode, false).(tracker := systemResume.View())
    {
      this.systemResume, this.world := systemResume, world;
      clock, listening, lastStatus, preSeedObservations := 0, false, None, Some([]);
      callbackRevision, bootstrapSawResume, rebaselineActive := 0, false, false;
      liveCommitSeq, baselineTrusted, resumeGeneration := 0, true, 0;
      boot, confirmations, rebaselines := Idle, map[], map[];
    }

    /** A native read called now: what it captures. */
    method GetStatus() returns (sample: Sample)
      ensures sample == ReadNow(world, View())
    {
      sample := Sample(world(clock), clock, resumeGeneration, !systemResume.IsBackgrounded(), true);
    }

    method CallQuietRead(attempt: nat) returns (read: QuietRead)
      ensures read == QuietReadNow(world, View(), attempt)
    {
      var sample := GetStatus();
      read := QuietRead(attempt, callbackRevision, sample);
    }

    /** One turn of the quiet read loop, when its native read resolves (`ok`) or rejects. */
    method SettleQuietRead(read: QuietRead, ok: bool) returns (outcome: Outcome)
      ensures outcome == QuietStep(world, View(), read, ok)
    {
      if !ok {
        return Settle(None);
      }
      if callbackRevision == read.revisionAtCall {
        return Settle(Some(read.sample));
      }
      if read.attempt + 1 < QUIET_READ_ATTEMPTS {
        var again := CallQuietRead(read.attempt + 1);
        return Retry(again);
      }
      outcome := Settle(None);
    }

    method StartRebaseline()
      modifies this
      ensures View() == BeginRebaseline(world, old(View()))
    {
      rebaselineActive := true;
      var read := CallQuietRead(0);
      rebaselines := rebaselines[resumeGeneration := read];
    }

    method OnResumeBoundary()
      modifies this
      ensures View() == OnResumed(world, old(View()))
    {
      liveCommitSeq := liveCommitSeq + 1;
      resumeGeneration := resumeGeneration + 1;
      if preSeedObservations.Some? {
        bootstrapSawResume := true;
        return;
      }
      StartRebaseline();
    }

    /** The chain holds a step between two foreground observations that is worth a wake. */
    static method FindForegroundRecovery(chain: seq<Observation>) returns (saw: bool)
      ensures saw <==> exists i :: 0 < i < |chain| && ForegroundRecovery(chain[i - 1], chain[i])
    {
      saw := false;
      var i := 1;
      while i < |chain|
        invariant 1 <= i
        invariant !saw ==> forall k :: 0 < k < i && k < |chain| ==> !ForegroundRecovery(chain[k - 1], chain[k])
      {
        if ForegroundRecovery(chain[i - 1], chain[i]) {
          return true;
        }
        i := i + 1;
      }
    }

    method PlaceFrom(chain: seq<Observation>, confirmed: bool) returns (events: seq<Event>)
      requires chain != []
      modifies this
      ensures (View(), events) == PlaceBaseline(world, old(View()), chain, confirmed)
    {
      var sawForegroundRecovery := FindForegroundRecovery(chain);
      lastStatus := Some(chain[|chain| - 1].sample);
      if bootstrapSawResume {
        baselineTrusted := false;
        StartRebaseline();
        return [];
      }
      baselineTrusted := confirmed;
      var told := if confirmed then [Trusted(chain[|chain| - 1].sample, ByBootstrap)] else [];
      var backgrounded := systemResume.IsBackgrounded();
      var woken := if sawForegroundRecovery && !backgrounded then [BootWoke(chain, backgrounded)] else [];
      events := told + woken;
    }

    /** The single bootstrap walk over snapshot A, the buffered callbacks and snapshot B. */
    method ReconcileBootstrap(snapshotA: Option<Sample>, snapshotB: Option<Sample>) returns (events: seq<Event>)
      modifies this
      ensures (View(), events) == Reconcile(world, old(View()), snapshotA, snapshotB)
    {
      var buffered := if preSeedObservations.Some? then preSeedObservations.value else [];
      var backgrounded := systemResume.IsBackgrounded();
      preSeedObservations := None;
      boot := Done;
      var first, last := [], [];
      if snapshotA.Some? {
        first := [Observation(snapshotA.value, backgrounded)];
      }
      if snapshotB.Some? {
        last := [Observation(snapshotB.value, backgrounded)];
      }
      var chain := first + buffered + last;
      if |chain| > 0 {
        events := PlaceFrom(chain, snapshotB.Some? || |buffered| == 0);
        return;
      }
      events := [];
      if bootstrapSawResume {
        baselineTrusted := false;
        StartRebaseline();
      }
    }

    method EnsureListens()
      modifies this, systemResume
      ensures View() == OnEnsureListening(world, old(View()))
    {
      if listening {
        return;
      }
      listening := true;
      systemResume.SetEpochBoundaryListener();
      var told := systemResume.EnsureTracked();
      var sample := GetStatus();
      boot := Opening(None, Pending(sample));
    }

    method ContinueBootstrap() returns (events: seq<Event>)
      modifies this
      ensures (View(), events) == Proceed(world, old(View()))
    {
      events := [];
      if boot.Opening? && boot.installed.Some? && boot.snapshotA.Settled? {
        var a := boot.snapshotA.value;
        if boot.installed.value {
          var read := CallQuietRead(0);
          boot := Reading(a, read);
        } else {
          events := ReconcileBootstrap(a, None);
        }
      }
    }

    method OnListenerSettles(installed: bool) returns (events: seq<Event>)
      modifies this
      ensures (View(), events) == OnListenerReady(world, old(View()), installed)
    {
      events := [];
      if boot.Opening? && boot.installed.None? {
        boot := boot.(installed := Some(installed));
        events := ContinueBootstrap();
      }
    }

    method OnSnapshotASettles(ok: bool) returns (events: seq<Event>)
      modifies this
      ensures (View(), events) == OnSnapshotA(world, old(View()), ok)
    {
      events := [];
      if boot.Opening? && boot.snapshotA.Pending? {
        boot := boot.(snapshotA := Settled(if ok then Some(boot.snapshotA.sample) else None));
        events := ContinueBootstrap();
      }
    }

    method OnBootReadSettles(ok: bool) returns (events: seq<Event>)
      modifies this
      ensures (View(), events) == OnBootRead(world, old(View()), ok)
    {
      events := [];
      if boot.Reading? {
        var outcome := SettleQuietRead(boot.read, ok);
        match outcome {
          case Retry(read) => boot := boot.(read := read);
          case Settle(b) => events := ReconcileBootstrap(boot.a, b);
        }
      }
    }

    /** A native status callback that occurred at `occurred` is delivered. */
    method OnStatusChange(occurred: nat) returns (events: seq<Event>)
      modifies this
      ensures (View(), events) == OnCallback(world, old(View()), occurred)
    {
      if !listening || occurred > clock {
        return [];
      }
      var backgrounded := systemResume.IsBackgrounded();
      events := [Delivered(occurred, backgrounded)];
      var status := Sample(world(occurred), occurred, resumeGeneration, !backgrounded, false);
      callbackRevision := callbackRevision + 1;
      if preSeedObservations.Some? {
        preSeedObservations := Some(preSeedObservations.value + [Observation(status, backgrounded)]);
        return;
      }
      if rebaselineActive {
        lastStatus := Some(status);
        return;
      }
      liveCommitSeq := liveCommitSeq + 1;
      var read := CallQuietRead(0);
      confirmations := confirmations[liveCommitSeq := Confirmation(status, read)];
    }

    /** What a confirmation does once its quiet read is over. */
    method ConfirmAndApply(observed: Sample, commitSeq: nat, confirmed: Option<Sample>) returns (events: seq<Event>)
      modifies this
      ensures (View(), events) == Apply(old(View()), observed, commitSeq, confirmed)
    {
      if commitSeq != liveCommitSeq {
        return [];
      }
      if confirmed.None? {
        lastStatus := Some(observed);
        baselineTrusted := false;
        return [];
      }
      var previous, previousTrusted := lastStatus, baselineTrusted;
      lastStatus := confirmed;
      baselineTrusted := true;
      var trusted := Trusted(confirmed.value, ByConfirmation(observed.stamp));
      events := [trusted];
      if previous.None? || !previousTrusted {
        return;
      }
      if !IsRecoveryTransition(previous.value.status, confirmed.value.status) {
        return;
      }
      var backgrounded := systemResume.IsBackgrounded();
      if backgrounded {
        return;
      }
      events := [trusted, Woke(previous.value, confirmed.value, commitSeq, backgrounded)];
    }

    method OnConfirmReadSettles(commitSeq: nat, ok: bool) returns (events: seq<Event>)
      modifies this
      ensures (View(), events) == OnConfirmRead(world, old(View()), commitSeq, ok)
    {
      events := [];
      if commitSeq in confirmations {
        var pending := confirmations[commitSeq];
        var outcome := SettleQuietRead(pending.read, ok);
        match outcome {
          case Retry(read) => confirmations := confirmations[commitSeq := pending.(read := read)];
          case Settle(confirmed) =>
            confirmations := confirmations - {commitSeq};
            events := ConfirmAndApply(pending.observed, commitSeq, confirmed);
        }
      }
    }

    method OnRebaselineReadSettles(generation: nat, ok: bool) returns (events: seq<Event>)
      modifies this
      ensures (View(), events) == OnRebaselineRead(world, old(View()), generation, ok)
    {
      events := [];
      if generation in rebaselines {
        var outcome := SettleQuietRead(rebaselines[generation], ok);
        match outcome {
          case Retry(read) => rebaselines := rebaselines[generation := read];
          case Settle(status) =>
            rebaselines := rebaselines - {generation};
            if generation != resumeGeneration {
              return;
            }
            if status.Some? {
              lastStatus := status;
              baselineTrusted := true;
              events := [Trusted(status.value, ByRebaseline(generation))];
            } else {
              baselineTrusted := false;
            }
            rebaselineActive := false;
        }
      }
    }
  }
}
