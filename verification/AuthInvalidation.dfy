/**
 The auth invalidation binding (router.tsx, bindAuthInvalidation): an auth change re-runs the route guards, but
 never starts a router load while one is pending.
*/
module AuthInvalidation {

  /** The router's status, and the binding: disposed, a listener armed, the microtasks it has queued. */
  datatype Binding = Binding(pending: bool, disposed: bool, armed: bool, microtasks: nat)

  datatype Step =
    | Change(same: bool)     // the auth store notifies; `same` when neither status nor user changed
    | LoadStarts             // the router goes pending: a navigation, or the load an invalidate started
    | Resolved               // the router announces "onResolved"
    | Settles                // the router goes idle
    | Microtask
    | Dispose

  /** An auth change the binding saw, or an invalidate with the router's and the binding's state at that moment. */
  datatype Event = Changed | Invalidated(pending: bool, disposed: bool)

  type Reaction = (Binding, seq<Event>)

  function InvalidateWhenSettled(b: Binding): Reaction
  {
    if b.disposed then (b, [])
    else if !b.pending then (b, [Invalidated(b.pending, b.disposed)])
    else (b.(armed := true), [])
  }

  function Take(b: Binding, step: Step): Reaction
  {
    match step
    case Change(same) =>
      if b.disposed || same then (b, [])
      else
        var (next, events) := InvalidateWhenSettled(b);
        (next, [Changed] + events)
    case LoadStarts => (b.(pending := true), [])
    case Resolved => if b.armed then (b.(armed := false, microtasks := b.microtasks + 1), []) else (b, [])
    case Settles => (b.(pending := false), [])
    case Microtask => if b.microtasks == 0 then (b, []) else InvalidateWhenSettled(b.(microtasks := b.microtasks - 1))
    case Dispose => (b.(disposed := true, armed := false), [])
  }

  /** A run from binding to a router that is pending or not. */
  function Run(pending: bool, run: seq<Step>): Reaction
  {
    if run == [] then (Binding(pending, false, false, 0), [])
    else
      var (b, log) := Run(pending, run[..|run| - 1]);
      var (next, events) := Take(b, run[|run| - 1]);
      (next, log + events)
  }

  // ------------------------------------------------------------ the closure

  /** What the closure holds and the router it is bound to. */
  class AuthInvalidationBinding {
    var routerPending: bool
    var disposed: bool
    var disarm: bool          // whether there is a listener to disarm
    var microtasks: nat

    ghost function View(): Binding
      reads this
    {
      Binding(routerPending, disposed, disarm, microtasks)
    }

    constructor (pending: bool)
      ensures View() == Run(pending, []).0
    {
      routerPending, disposed, disarm, microtasks := pending, false, false, 0;
    }

    method InvalidateSettled() returns (events: seq<Event>)
      modifies this
      ensures (View(), events) == InvalidateWhenSettled(old(View()))
    {
      events := [];
      if disposed {
        return;
      }
      if !routerPending {
        return [Invalidated(routerPending, disposed)];
      }
      if disarm {
        return;
      }
      disarm := true;
    }

    method OnAuthChange(same: bool) returns (events: seq<Event>)
      modifies this
      ensures (View(), events) == Take(old(View()), Change(same))
    {
      if disposed || same {
        return [];
      }
      var next := InvalidateSettled();
      events := [Changed] + next;
    }

    method OnResolved() returns (events: seq<Event>)
      modifies this
      ensures (View(), events) == Take(old(View()), Resolved)
    {
      if disarm {
        disarm := false;
        microtasks := microtasks + 1;
      }
      events := [];
    }

    method RunMicrotask() returns (events: seq<Event>)
      modifies this
      ensures (View(), events) == Take(old(View()), Microtask)
    {
      events := [];
      if microtasks > 0 {
        microtasks := microtasks - 1;
        events := InvalidateSettled();
      }
    }

    method Unbind()
      modifies this
      ensures View() == Take(old(View()), Dispose).0
    {
      disposed := true;
      disarm := false;
    }
  }

  // -------------------------------------------------------------- every run

  /** An auth change was seen, and no invalidate followed it. */
  predicate Owed(log: seq<Event>)
  {
    log != [] && log[|log| - 1].Changed?
  }

  function Changes(log: seq<Event>): nat
  {
    if log == [] then 0
    else Changes(log[..|log| - 1]) + (if log[|log| - 1].Changed? then 1 else 0)
  }

  function Invalidates(log: seq<Event>): nat
  {
    if log == [] then 0
    else Invalidates(log[..|log| - 1]) + (if log[|log| - 1].Invalidated? then 1 else 0)
  }

  lemma {:induction false} Append(log: seq<Event>, event: Event)
    ensures Changes(log + [event]) == Changes(log) + (if event.Changed? then 1 else 0)
    ensures Invalidates(log + [event]) == Invalidates(log) + (if event.Invalidated? then 1 else 0)
  {
    assert (log + [event])[..|log|] == log;
  }

  ghost predicate Inv(b: Binding, log: seq<Event>)
  {
    && (forall i :: 0 <= i < |log| && log[i].Invalidated? ==> !log[i].pending && !log[i].disposed)
    && (b.armed ==> !b.disposed)
    && (Owed(log) && !b.disposed ==> b.armed || b.microtasks > 0)
    && Invalidates(log) + b.microtasks + (if b.armed then 1 else 0) <= Changes(log)
  }

  /** What a settled-or-arm does to the books, `log` already holding the change or short of the microtask. */
  lemma SettledKeeps(b: Binding, log: seq<Event>)
    requires Inv(b.(microtasks := b.microtasks + 1), log)
    ensures Inv(InvalidateWhenSettled(b).0, log + InvalidateWhenSettled(b).1)
  {
    assert log + [] == log;
    Append(log, Invalidated(b.pending, b.disposed));
  }

  lemma TakeKeeps(b: Binding, log: seq<Event>, step: Step)
    requires Inv(b, log)
    ensures Inv(Take(b, step).0, log + Take(b, step).1)
  {
    assert log + [] == log;
    match step
    case Change(same) =>
      if !b.disposed && !same {
        var events := InvalidateWhenSettled(b).1;
        Append(log, Changed);
        SettledKeeps(b, log + [Changed]);
        assert log + ([Changed] + events) == (log + [Changed]) + events;
      }
    case Microtask =>
      if b.microtasks > 0 { SettledKeeps(b.(microtasks := b.microtasks - 1), log); }
    case _ =>
  }

  lemma {:induction false} RunKeeps(pending: bool, run: seq<Step>)
    ensures Inv(Run(pending, run).0, Run(pending, run).1)
  {
    if run != [] {
      RunKeeps(pending, run[..|run| - 1]);
      var (b, log) := Run(pending, run[..|run| - 1]);
      TakeKeeps(b, log, run[|run| - 1]);
    }
  }

  /** In every run an invalidate never starts while the router is pending, nor after the binding is disposed. */
  lemma {:induction false} NeverWhilePending(pending: bool, run: seq<Step>, i: nat)
    requires i < |Run(pending, run).1| && Run(pending, run).1[i].Invalidated?
    ensures !Run(pending, run).1[i].pending && !Run(pending, run).1[i].disposed
  {
    RunKeeps(pending, run);
  }

  // ----------------------------------------------------------- main results

  /** In every run no change is lost: while one is owed, a listener is armed or a microtask is queued. */
  lemma {:induction false} NoChangeIsLost(pending: bool, run: seq<Step>)
    ensures var (b, log) := Run(pending, run); Owed(log) && !b.disposed ==> b.armed || b.microtasks > 0
  {
    RunKeeps(pending, run);
  }

  /** In every run each invalidate done or still to come has its own change behind it. */
  lemma {:induction false} NoInvalidateWithoutChange(pending: bool, run: seq<Step>)
    ensures var (b, log) := Run(pending, run);
      Invalidates(log) + b.microtasks + (if b.armed then 1 else 0) <= Changes(log)
  {
    RunKeeps(pending, run);
  }

  lemma {:induction false} RunOn(pending: bool, run: seq<Step>, step: Step)
    ensures var (b, log) := Run(pending, run);
      Run(pending, run + [step]) == (Take(b, step).0, log + Take(b, step).1)
  {
    assert (run + [step])[..|run|] == run;
  }

  /** The router is loading after the run: it was at first, or went pending since it last settled. */
  predicate Loading(pending: bool, run: seq<Step>)
  {
    if run == [] then pending
    else if run[|run| - 1].LoadStarts? then true
    else if run[|run| - 1].Settles? then false
    else Loading(pending, run[..|run| - 1])
  }

  lemma {:induction false} RunIsLoading(pending: bool, run: seq<Step>)
    ensures Run(pending, run).0.pending == Loading(pending, run)
    ensures Run(pending, run).0.disposed <==> Dispose in run
  {
    if run != [] {
      var n := |run| - 1;
      RunIsLoading(pending, run[..n]);
      assert run == run[..n] + [run[n]];
    }
  }

  /**
   In every run an auth change is answered by an invalidate at once exactly when it is a real one, the router is idle
   and the binding is not disposed; nothing is owed for it then.
  */
  lemma {:induction false} IdleChangeInvalidatesIff(pending: bool, run: seq<Step>, same: bool)
    ensures var log, after := Run(pending, run).1, Run(pending, run + [Change(same)]).1;
      && (Invalidates(after) == Invalidates(log) + 1
          <==> !same && !Loading(pending, run) && Dispose !in run)
      && (Changes(after) == Changes(log) + 1 <==> !same && Dispose !in run)
      && (!same && !Loading(pending, run) && Dispose !in run ==> !Owed(after))
  {
    var (b, log) := Run(pending, run);
    RunIsLoading(pending, run);
    RunOn(pending, run, Change(same));
    assert log + [] == log;
    Append(log, Changed);
    Append(log + [Changed], Invalidated(false, false));
    assert [Changed] + [] == [Changed];
    assert log + ([Changed] + [Invalidated(false, false)]) == log + [Changed] + [Invalidated(false, false)];
  }

  /** The load resolves and settles, and the queued microtask runs: whatever is owed is paid by one invalidate. */
  lemma {:induction false} OwedIsPaid(pending: bool, run: seq<Step>)
    requires var (b, log) := Run(pending, run); !b.disposed && Owed(log)
    ensures Run(pending, run + [Resolved] + [Settles] + [Microtask]).1
         == Run(pending, run).1 + [Invalidated(false, false)]
  {
    var (b, log) := Run(pending, run);
    RunKeeps(pending, run);
    RunOn(pending, run, Resolved);
    RunOn(pending, run + [Resolved], Settles);
    RunOn(pending, run + [Resolved] + [Settles], Microtask);
    assert log + [] == log;
  }

  /** That many microtasks run. */
  function Drained(n: nat): seq<Step>
  {
    if n == 0 then [] else Drained(n - 1) + [Microtask]
  }

  lemma {:induction false} MicrotaskInvalidates(b: Binding, log: seq<Event>)
    requires !b.pending && b.microtasks > 0
    ensures Take(b, Microtask).0 == b.(microtasks := b.microtasks - 1)
    ensures Invalidates(log + Take(b, Microtask).1) == Invalidates(log) + (if b.disposed then 0 else 1)
    ensures Owed(log + Take(b, Microtask).1) ==> b.disposed && Owed(log)
  {
    assert log + [] == log;
    Append(log, Invalidated(b.pending, b.disposed));
  }

  lemma {:induction false} OneMoreMicrotask(pending: bool, run: seq<Step>, n: nat)
    requires n > 0
    ensures var (b, log) := Run(pending, run + Drained(n - 1));
      Run(pending, run + Drained(n)) == (Take(b, Microtask).0, log + Take(b, Microtask).1)
  {
    RunOn(pending, run + Drained(n - 1), Microtask);
    assert run + Drained(n) == (run + Drained(n - 1)) + [Microtask];
  }

  /** With the router idle, each queued microtask invalidates, unless the binding is disposed. */
  lemma {:induction false} DrainInvalidates(pending: bool, run: seq<Step>, n: nat)
    requires var b := Run(pending, run).0; !b.pending && n <= b.microtasks
    ensures var (b, log) := Run(pending, run);
      var (next, after) := Run(pending, run + Drained(n));
      && next == b.(microtasks := b.microtasks - n)
      && Invalidates(after) == Invalidates(log) + (if b.disposed then 0 else n)
      && (Owed(after) ==> Owed(log) && (b.disposed || n == 0))
  {
    if n == 0 {
      assert run + Drained(n) == run;
    } else {
      DrainInvalidates(pending, run, n - 1);
      var (b, log) := Run(pending, run + Drained(n - 1));
      MicrotaskInvalidates(b, log);
      OneMoreMicrotask(pending, run, n);
    }
  }

  /** The run, its load resolved and settled, and the microtasks then queued. */
  function Completed(pending: bool, run: seq<Step>): seq<Step>
  {
    var settled := run + [Resolved] + [Settles];
    settled + Drained(Run(pending, settled).0.microtasks)
  }

  /**
   After every completed load the books are closed, however many loads and changes overlapped before it: nothing is
   armed, queued or owed, and each invalidate that was still to come has been made.
  */
  lemma {:induction false} CompletedLoadPaysEverything(pending: bool, run: seq<Step>)
    ensures var (b, log) := Run(pending, run); var (next, after) := Run(pending, Completed(pending, run));
      && !next.pending && !next.armed && next.microtasks == 0
      && (next.disposed || !Owed(after))
      && Invalidates(after)
         == Invalidates(log) + (if b.disposed then 0 else b.microtasks + (if b.armed then 1 else 0))
  {
    var log := Run(pending, run).1;
    var settled := run + [Resolved] + [Settles];
    RunOn(pending, run, Resolved);
    RunOn(pending, run + [Resolved], Settles);
    RunKeeps(pending, run);
    RunKeeps(pending, settled);
    DrainInvalidates(pending, settled, Run(pending, settled).0.microtasks);
    assert log + [] == log;
  }

  lemma QuietStepOwesNothing(b: Binding, log: seq<Event>, step: Step)
    requires !Owed(log) && step != Change(false)
    ensures !Owed(log + Take(b, step).1)
  {
    assert log + [] == log;
  }

  /** And it stays so until the next change, whatever else happens. */
  lemma {:induction false} NothingIsOwedUntilNextChange(pending: bool, run: seq<Step>, steps: seq<Step>)
    requires Change(false) !in steps && !Run(pending, Completed(pending, run)).0.disposed
    ensures !Owed(Run(pending, Completed(pending, run) + steps).1)
  {
    var done := Completed(pending, run);
    if steps == [] {
      CompletedLoadPaysEverything(pending, run);
      assert done + steps == done;
    } else {
      var n := |steps| - 1;
      assert steps[n] in steps;
      NothingIsOwedUntilNextChange(pending, run, steps[..n]);
      var (b, log) := Run(pending, done + steps[..n]);
      QuietStepOwesNothing(b, log, steps[n]);
      RunOn(pending, done + steps[..n], steps[n]);
      assert done + steps == (done + steps[..n]) + [steps[n]];
    }
  }

  /** Steps that can come while one load is in flight. */
  predicate DuringLoad(steps: seq<Step>)
  {
    forall i :: 0 <= i < |steps| ==> steps[i].Change? || steps[i].LoadStarts? || steps[i].Microtask?
  }

  predicate Quiet(b: Binding)
  {
    !b.disposed && !b.armed && b.microtasks == 0
  }

  lemma {:induction false} StepHoldsBack(b: Binding, log: seq<Event>, step: Step)
    requires b.pending && !b.disposed && b.microtasks == 0 && DuringLoad([step])
    ensures Take(b, step).0 == b.(armed := b.armed || step == Change(false))
    ensures Invalidates(log + Take(b, step).1) == Invalidates(log)
  {
    assert step == [step][0];
    assert log + [] == log && [Changed] + [] == [Changed];
    Append(log, Changed);
  }

  lemma LastStep(steps: seq<Step>)
    requires steps != [] && DuringLoad(steps)
    ensures var n := |steps| - 1;
      && DuringLoad(steps[..n]) && DuringLoad([steps[n]])
      && (Change(false) in steps <==> Change(false) in steps[..n] || steps[n] == Change(false))
  {
    assert steps == steps[..|steps| - 1] + [steps[|steps| - 1]];
  }

  /** Whatever changes and restarts one load sees, nothing is invalidated before it resolves, and one listener waits. */
  lemma {:induction false} LoadHoldsBack(pending: bool, run: seq<Step>, steps: seq<Step>)
    requires Quiet(Run(pending, run).0) && Run(pending, run).0.pending && DuringLoad(steps)
    ensures var (b, log) := Run(pending, run); var (next, after) := Run(pending, run + steps);
      && next == b.(armed := Change(false) in steps)
      && Invalidates(after) == Invalidates(log)
  {
    if steps == [] {
      assert run + steps == run;
    } else {
      var n := |steps| - 1;
      LastStep(steps);
      LoadHoldsBack(pending, run, steps[..n]);
      var (b, log) := Run(pending, run + steps[..n]);
      StepHoldsBack(b, log, steps[n]);
      RunOn(pending, run + steps[..n], steps[n]);
      assert run + steps == (run + steps[..n]) + [steps[n]];
    }
  }

  /** All the changes of one load share a single invalidate, which comes once the load has settled. */
  lemma {:induction false} OneLoadOneInvalidate(pending: bool, run: seq<Step>, steps: seq<Step>)
    requires Quiet(Run(pending, run).0) && Run(pending, run).0.pending && DuringLoad(steps)
    ensures Invalidates(Run(pending, run + steps + [Resolved] + [Settles] + [Microtask]).1)
         == Invalidates(Run(pending, run).1) + (if Change(false) in steps then 1 else 0)
  {
    var (b, log) := Run(pending, run + steps);
    LoadHoldsBack(pending, run, steps);
    RunOn(pending, run + steps, Resolved);
    RunOn(pending, run + steps + [Resolved], Settles);
    RunOn(pending, run + steps + [Resolved] + [Settles], Microtask);
    assert log + [] == log;
    Append(log, Invalidated(false, false));
  }
}
