/**
 Background and foreground tracking on the phone (mobile-runner-host.ts, MobileSystemResume): which source
 of lifecycle evidence owns an episode, and what each edge announces, in order.

 `React` is the specification: what one stimulus does to the state and which announcements it makes. The
 class below it is the code, method by method.
*/
module SystemResume {
  import opened Wrappers

  datatype Mode = IosLifecycle | AndroidAppState | DomOnly

  /** Which listeners are installed: none, a native pair (its registration settled or not), or the DOM pair. */
  datatype Pair = NoPair | NativePair | Removing | DomPair

  datatype Tracker = Tracker(
    mode: Mode,
    listening: bool,
    background: bool,
    enteredAt: Option<int>,
    nativeOwnerToken: nat,
    hasListener: bool,       // whether an epoch boundary listener is set
    pair: Pair,
    token: nat,              // what the native callbacks captured; 0 before any are registered
    hidden: bool)            // the document's visibility

  datatype Stimulus =
    | SetListener
    | EnsureTracking
    | Native(active: bool, now: int)        // a native callback is delivered, however late
    | RegistrationFailed                    // the first registration failure becomes known
    | RemovalsSettled
    | Visibility(hides: bool, now: int)     // the document hides or shows itself

  /** What is announced, in order: the background edge, the epoch boundary, the resume. */
  datatype Event =
    | BackgroundEdge(stamp: Option<int>)
    | EpochBoundary
    | Resume(dwell: Option<int>, at: int)
    | NativeRetired

  type Reaction = (Tracker, seq<Event>)

  function NoteBackground(t: Tracker, stamp: Option<int>): Reaction
  {
    if t.background then (t, [])
    else (t.(background := true, enteredAt := stamp), [BackgroundEdge(stamp)])
  }

  /** How long the app was away, when the edge that began it was stamped; never negative. */
  function Dwell(enteredAt: Option<int>, now: int): Option<int>
  {
    if enteredAt.None? then None
    else Some(if now - enteredAt.value < 0 then 0 else now - enteredAt.value)
  }

  function NoteForeground(t: Tracker, now: int): Reaction
  {
    if !t.background then (t, [])
    else
      (t.(background := false, enteredAt := None),
       (if t.hasListener then [EpochBoundary] else []) + [Resume(Dwell(t.enteredAt, now), now)])
  }

  function InstallDomPair(t: Tracker): Reaction
  {
    var installed := t.(pair := DomPair);
    if t.hidden then NoteBackground(installed, None) else (installed, [])
  }

  function React(t: Tracker, stimulus: Stimulus): Reaction
  {
    match stimulus
    case SetListener => (t.(hasListener := true), [])
    case EnsureTracking =>
      if t.listening then (t, [])
      else if t.mode == DomOnly then InstallDomPair(t.(listening := true))
      else
        (t.(listening := true, nativeOwnerToken := t.nativeOwnerToken + 1,
            token := t.nativeOwnerToken + 1, pair := NativePair), [])
    case Native(active, now) =>
      if t.token == 0 || t.token != t.nativeOwnerToken then (t, [])
      else if active then NoteForeground(t, now)
      else NoteBackground(t, Some(now))
    case RegistrationFailed =>
      if t.pair != NativePair then (t, [])
      else
        (t.(nativeOwnerToken := t.nativeOwnerToken + 1, background := false, enteredAt := None, pair := Removing),
         [NativeRetired])
    case RemovalsSettled =>
      if t.pair != Removing then (t, []) else InstallDomPair(t)
    case Visibility(hides, now) =>
      var seen := t.(hidden := hides);
      if t.pair != DomPair then (seen, [])
      else if hides then NoteBackground(seen, None)
      else NoteForeground(seen, now)
  }

  function Fresh(mode: Mode, hidden: bool): Tracker
  {
    Tracker(mode, false, false, None, 0, false, NoPair, 0, hidden)
  }

  /** The state after a run from a fresh start, and everything it announced. */
  function Run(mode: Mode, hidden: bool, run: seq<Stimulus>): Reaction
  {
    if run == [] then (Fresh(mode, hidden), [])
    else
      var (t, log) := Run(mode, hidden, run[..|run| - 1]);
      var (next, events) := React(t, run[|run| - 1]);
      (next, log + events)
  }

  // ---------------------------------------------------------------- the class

  class MobileSystemResume {
    const mode: Mode
    var listening: bool
    var background: bool
    var enteredAt: Option<int>
    var nativeOwnerToken: nat
    var epochBoundaryListener: bool
    var pair: Pair
    var token: nat
    var documentHidden: bool

    ghost function View(): Tracker
      reads this
    {
      Tracker(mode, listening, background, enteredAt, nativeOwnerToken, epochBoundaryListener, pair, token,
              documentHidden)
    }

    constructor (mode: Mode, hidden: bool)
      ensures View() == Fresh(mode, hidden)
    {
      this.mode := mode;
      listening, background, enteredAt := false, false, None;
      nativeOwnerToken, epochBoundaryListener := 0, false;
      pair, token, documentHidden := NoPair, 0, hidden;
    }

    function IsBackgrounded(): bool
      reads this
    {
      background
    }

    method SetEpochBoundaryListener()
      modifies this
      ensures View() == React(old(View()), SetListener).0
    {
      epochBoundaryListener := true;
    }

    /** The background edge; `stamp` is the time of a source that measures the dwell. */
    method EnterBackground(stamp: Option<int>) returns (events: seq<Event>)
      modifies this
      ensures (View(), events) == NoteBackground(old(View()), stamp)
    {
      if background {
        return [];
      }
      background := true;
      enteredAt := stamp;
      events := [BackgroundEdge(stamp)];
    }

    method EnterForeground(now: int) returns (events: seq<Event>)
      modifies this
      ensures (View(), events) == NoteForeground(old(View()), now)
    {
      if !background {
        return [];
      }
      background := false;
      var told := [];
      if epochBoundaryListener {
        told := [EpochBoundary];
      }
      var entered := enteredAt;
      enteredAt := None;
      var dwell := None;
      if entered.Some? {
        dwell := Some(if now - entered.value < 0 then 0 else now - entered.value);
      }
      events := told + [Resume(dwell, now)];
    }

    method InstallDom() returns (events: seq<Event>)
      modifies this
      ensures (View(), events) == InstallDomPair(old(View()))
    {
      events := [];
      pair := DomPair;
      if documentHidden {
        events := EnterBackground(None);
      }
    }

    method EnsureTracked() returns (events: seq<Event>)
      modifies this
      ensures (View(), events) == React(old(View()), EnsureTracking)
    {
      if listening {
        return [];
      }
      listening := true;
      if mode == DomOnly {
        events := InstallDom();
        return;
      }
      nativeOwnerToken := nativeOwnerToken + 1;
      token := nativeOwnerToken;
      pair := NativePair;
      events := [];
    }

    method OnNative(active: bool, now: int) returns (events: seq<Event>)
      modifies this
      ensures (View(), events) == React(old(View()), Native(active, now))
    {
      if token == 0 || token != nativeOwnerToken {
        return [];
      }
      if active {
        events := EnterForeground(now);
      } else {
        events := EnterBackground(Some(now));
      }
    }

    method OnRegistrationFailed() returns (events: seq<Event>)
      modifies this
      ensures (View(), events) == React(old(View()), RegistrationFailed)
    {
      if pair != NativePair {
        return [];
      }
      nativeOwnerToken := nativeOwnerToken + 1;
      background := false;
      enteredAt := None;
      pair := Removing;
      events := [NativeRetired];
    }

    method OnRemovalsSettled() returns (events: seq<Event>)
      modifies this
      ensures (View(), events) == React(old(View()), RemovalsSettled)
    {
      events := [];
      if pair == Removing {
        events := InstallDom();
      }
    }

    method OnVisibilityChange(hides: bool, now: int) returns (events: seq<Event>)
      modifies this
      ensures (View(), events) == React(old(View()), Visibility(hides, now))
    {
      documentHidden := hides;
      events := [];
      if pair == DomPair {
        if hides {
          events := EnterBackground(None);
        } else {
          events := EnterForeground(now);
        }
      }
    }
  }

  // --------------------------------------------------- what a run announces

  /** The background edge that no resume has answered yet, and its stamp. */
  function Open(log: seq<Event>): Option<Option<int>>
  {
    if log == [] then None
    else
      match log[|log| - 1]
      case BackgroundEdge(stamp) => Some(stamp)
      case EpochBoundary => Open(log[..|log| - 1])
      case Resume(_, _) => None
      case NativeRetired => None
  }

  predicate Retired(log: seq<Event>)
  {
    NativeRetired in log
  }

  /**
   Each resume answers a background edge that nothing answered before it and measures from that edge's
   stamp; edges alternate; and once the native pair is retired no edge carries a stamp.
  */
  ghost predicate Ordered(log: seq<Event>)
  {
    log == [] ||
    var before := log[..|log| - 1];
    && Ordered(before)
    && match log[|log| - 1]
       case BackgroundEdge(stamp) => Open(before).None? && (Retired(before) ==> stamp.None?)
       case EpochBoundary => Open(before).Some?
       case Resume(dwell, at) => Open(before).Some? && dwell == Dwell(Open(before).value, at)
       case NativeRetired => !Retired(before)
  }

  /** The state agrees with what was announced so far. */
  ghost predicate Agrees(t: Tracker, log: seq<Event>)
  {
    && Ordered(log)
    && Open(log) == (if t.background then Some(t.enteredAt) else None)
    && (!t.background ==> t.enteredAt.None?)
    && (t.background ==> t.listening)
    && (Retired(log) <==> t.token != t.nativeOwnerToken)
    && (Retired(log) <==> t.pair == Removing || (t.pair == DomPair && t.mode != DomOnly))
    && (t.pair == NativePair <==> t.token != 0 && t.token == t.nativeOwnerToken)
    && (t.pair == NoPair <==> !t.listening)
    && (t.mode == DomOnly ==> t.pair == NoPair || t.pair == DomPair)
    && (t.pair == NoPair ==> t.token == 0 && t.nativeOwnerToken == 0)
    && (t.mode == DomOnly ==> t.token == 0 && t.nativeOwnerToken == 0)
  }

  lemma Announce(log: seq<Event>, event: Event)
    ensures (log + [event])[..|log|] == log
    ensures Retired(log + [event]) <==> Retired(log) || event == NativeRetired
  {
  }

  lemma BackgroundAgrees(t: Tracker, log: seq<Event>, stamp: Option<int>)
    requires Agrees(t, log) && t.listening && (Retired(log) ==> stamp.None?)
    ensures Agrees(NoteBackground(t, stamp).0, log + NoteBackground(t, stamp).1)
  {
    if t.background {
      assert log + [] == log;
    } else {
      Announce(log, BackgroundEdge(stamp));
    }
  }

  lemma ForegroundAgrees(t: Tracker, log: seq<Event>, now: int)
    requires Agrees(t, log)
    ensures Agrees(NoteForeground(t, now).0, log + NoteForeground(t, now).1)
  {
    if !t.background {
      assert log + [] == log;
    } else if t.hasListener {
      var told, resumed := log + [EpochBoundary], Resume(Dwell(t.enteredAt, now), now);
      Announce(log, EpochBoundary);
      Announce(told, resumed);
      assert log + [EpochBoundary, resumed] == told + [resumed];
      assert Open(told) == Open(log);
      assert NoteForeground(t, now).1 == [EpochBoundary, resumed];
    } else {
      Announce(log, Resume(Dwell(t.enteredAt, now), now));
      assert NoteForeground(t, now).1 == [Resume(Dwell(t.enteredAt, now), now)];
    }
  }

  lemma ReactAgrees(t: Tracker, log: seq<Event>, stimulus: Stimulus)
    requires Agrees(t, log)
    ensures Agrees(React(t, stimulus).0, log + React(t, stimulus).1)
  {
    assert log + [] == log;
    match stimulus
    case SetListener =>
    case EnsureTracking =>
      if !t.listening && t.mode == DomOnly && t.hidden {
        BackgroundAgrees(t.(listening := true, pair := DomPair), log, None);
      }
    case Native(active, now) =>
      if t.token != 0 && t.token == t.nativeOwnerToken {
        if active { ForegroundAgrees(t, log, now); } else { BackgroundAgrees(t, log, Some(now)); }
      }
    case RegistrationFailed =>
      Announce(log, NativeRetired);
    case RemovalsSettled =>
      if t.pair == Removing && t.hidden { BackgroundAgrees(t.(pair := DomPair), log, None); }
    case Visibility(hides, now) =>
      if t.pair == DomPair {
        if hides { BackgroundAgrees(t.(hidden := hides), log, None); }
        else { ForegroundAgrees(t.(hidden := hides), log, now); }
      }
  }

  lemma {:induction false} RunAgrees(mode: Mode, hidden: bool, run: seq<Stimulus>)
    ensures Agrees(Run(mode, hidden, run).0, Run(mode, hidden, run).1)
  {
    if run != [] {
      RunAgrees(mode, hidden, run[..|run| - 1]);
      var (t, log) := Run(mode, hidden, run[..|run| - 1]);
      ReactAgrees(t, log, run[|run| - 1]);
    }
  }

  // ------------------------------------------------------------ main results

  /** The last edge still open in `log` is at `j`: only epoch boundaries follow it. */
  lemma {:induction false} OpenEdge(log: seq<Event>) returns (j: nat)
    requires Open(log).Some?
    ensures j < |log| && log[j] == BackgroundEdge(Open(log).value)
    ensures forall k :: j < k < |log| ==> log[k] == EpochBoundary
  {
    if log[|log| - 1].BackgroundEdge? {
      j := |log| - 1;
    } else {
      j := OpenEdge(log[..|log| - 1]);
    }
  }

  lemma {:induction false} OrderedPrefix(log: seq<Event>, i: nat)
    requires Ordered(log) && i <= |log|
    ensures Ordered(log[..i])
  {
    if i < |log| {
      OrderedPrefix(log[..|log| - 1], i);
      assert log[..|log| - 1][..i] == log[..i];
    } else {
      assert log[..i] == log;
    }
  }

  /**
   In every run, each resume answers a background edge with only epoch boundaries in between, so no two
   resumes share one; and its dwell is the time from that very edge, never less than zero, and unknown
   exactly when the edge has no stamp.
  */
  lemma ResumeAnswersBackground(mode: Mode, hidden: bool, run: seq<Stimulus>, i: nat) returns (j: nat)
    requires i < |Run(mode, hidden, run).1| && Run(mode, hidden, run).1[i].Resume?
    ensures var log := Run(mode, hidden, run).1;
      && j < i && log[j].BackgroundEdge?
      && (forall k :: j < k < i ==> log[k] == EpochBoundary)
      && (if log[j].stamp.None? then log[i].dwell.None?
          else log[i].dwell == Some(if log[i].at < log[j].stamp.value then 0 else log[i].at - log[j].stamp.value))
  {
    var log := Run(mode, hidden, run).1;
    RunAgrees(mode, hidden, run);
    OrderedPrefix(log, i + 1);
    assert log[..i + 1][..i] == log[..i];
    j := OpenEdge(log[..i]);
    assert forall k :: 0 <= k < i ==> log[..i][k] == log[k];
  }

  /** In every run, once the native pair is retired no edge is stamped and no resume reports a number. */
  lemma {:induction false} RetiredReportsNoDwell(mode: Mode, hidden: bool, run: seq<Stimulus>, i: nat)
    requires i < |Run(mode, hidden, run).1| && Retired(Run(mode, hidden, run).1[..i])
    ensures Run(mode, hidden, run).1[i].BackgroundEdge? ==> Run(mode, hidden, run).1[i].stamp.None?
    ensures Run(mode, hidden, run).1[i].Resume? ==> Run(mode, hidden, run).1[i].dwell.None?
  {
    var log := Run(mode, hidden, run).1;
    RunAgrees(mode, hidden, run);
    OrderedPrefix(log, i + 1);
    assert log[..i + 1][..i] == log[..i];
    if log[i].Resume? { OpenAfterRetirement(log[..i]); }
  }

  lemma {:induction false} OpenAfterRetirement(log: seq<Event>)
    requires Ordered(log) && Retired(log) && Open(log).Some?
    ensures Open(log) == Some(None)
  {
    var n := |log| - 1;
    Announce(log[..n], log[n]);
    assert log == log[..n] + [log[n]];
    if log[n] == EpochBoundary { OpenAfterRetirement(log[..n]); }
  }

  /** After retirement a native callback, however late, changes nothing and announces nothing. */
  lemma {:induction false} RetiredNativeIsInert(mode: Mode, hidden: bool, run: seq<Stimulus>, active: bool, now: int)
    requires Retired(Run(mode, hidden, run).1)
    ensures Run(mode, hidden, run + [Native(active, now)]) == Run(mode, hidden, run)
  {
    RunAgrees(mode, hidden, run);
    assert (run + [Native(active, now)])[..|run|] == run;
    assert Run(mode, hidden, run).1 + [] == Run(mode, hidden, run).1;
  }

  /** From `from` on, every resume in `log` comes right after an epoch boundary. */
  ghost predicate Told(log: seq<Event>, from: nat)
  {
    forall i :: from <= i < |log| && log[i].Resume? ==> from < i && log[i - 1] == EpochBoundary
  }

  lemma ReactTells(t: Tracker, stimulus: Stimulus)
    ensures t.hasListener ==> React(t, stimulus).0.hasListener && Told(React(t, stimulus).1, 0)
  {
  }

  lemma ToldTogether(log: seq<Event>, events: seq<Event>, from: nat)
    requires from <= |log| && Told(log, from) && Told(events, 0)
    ensures Told(log + events, from)
  {
  }

  lemma {:induction false} RunLast(mode: Mode, hidden: bool, start: seq<Stimulus>, rest: seq<Stimulus>)
    requires rest != []
    ensures var (t, log) := Run(mode, hidden, start + rest[..|rest| - 1]);
      Run(mode, hidden, start + rest) == (React(t, rest[|rest| - 1]).0, log + React(t, rest[|rest| - 1]).1)
  {
    assert (start + rest)[..|start + rest| - 1] == start + rest[..|rest| - 1];
  }

  /**
   In every run, once a listener is set (after `start`) every later resume is announced right after its epoch
   boundary, whatever `rest` does.
  */
  lemma {:induction false} EpochBeforeResume(mode: Mode, hidden: bool, start: seq<Stimulus>, rest: seq<Stimulus>)
    requires Run(mode, hidden, start).0.hasListener
    ensures Run(mode, hidden, start + rest).0.hasListener
    ensures |Run(mode, hidden, start).1| <= |Run(mode, hidden, start + rest).1|
    ensures Told(Run(mode, hidden, start + rest).1, |Run(mode, hidden, start).1|)
  {
    if rest == [] {
      assert start + rest == start;
    } else {
      var n := |rest| - 1;
      var (t, log) := Run(mode, hidden, start + rest[..n]);
      EpochBeforeResume(mode, hidden, start, rest[..n]);
      RunLast(mode, hidden, start, rest);
      ReactTells(t, rest[n]);
      ToldTogether(log, React(t, rest[n]).1, |Run(mode, hidden, start).1|);
    }
  }

  // ------------------------------------------ edges, from the stimuli alone

  /** The tracking starts with the pair the mode selects; a native pair that fails gives way to the document's. */
  function NextOwner(mode: Mode, owner: Pair, stimulus: Stimulus): Pair
  {
    match stimulus
    case EnsureTracking => if owner != NoPair then owner else if mode == DomOnly then DomPair else NativePair
    case RegistrationFailed => if owner == NativePair then Removing else owner
    case RemovalsSettled => if owner == Removing then DomPair else owner
    case _ => owner
  }

  /** Which pair listens after the run. */
  function Owner(mode: Mode, run: seq<Stimulus>): Pair
  {
    if run == [] then NoPair
    else
      NextOwner(mode, Owner(mode, run[..|run| - 1]), run[|run| - 1])
  }

  /** Whether the document is hidden after the run. */
  function Hidden(hidden: bool, run: seq<Stimulus>): bool
  {
    if run == [] then hidden
    else if run[|run| - 1].Visibility? then run[|run| - 1].hides
    else Hidden(hidden, run[..|run| - 1])
  }

  /** The pair that listens reports the foreground. */
  predicate ReportsForeground(owner: Pair, stimulus: Stimulus)
  {
    || (owner == NativePair && stimulus.Native? && stimulus.active)
    || (owner == DomPair && stimulus.Visibility? && !stimulus.hides)
  }

  /** The pair that listens reports the background, or the document pair is installed and finds the document hidden. */
  predicate ReportsBackground(mode: Mode, owner: Pair, hidden: bool, stimulus: Stimulus)
  {
    || (owner == NativePair && stimulus.Native? && !stimulus.active)
    || (owner == DomPair && stimulus.Visibility? && stimulus.hides)
    || (owner == NoPair && stimulus.EnsureTracking? && mode == DomOnly && hidden)
    || (owner == Removing && stimulus.RemovalsSettled? && hidden)
  }

  lemma ReactOwns(t: Tracker, stimulus: Stimulus)
    requires t.pair == NoPair <==> !t.listening
    ensures var next := React(t, stimulus).0;
      && next.mode == t.mode && next.pair == NextOwner(t.mode, t.pair, stimulus)
      && next.hidden == (if stimulus.Visibility? then stimulus.hides else t.hidden)
      && (next.hasListener <==> t.hasListener || stimulus == SetListener)
  {
  }

  ghost predicate Owned(t: Tracker, mode: Mode, hidden: bool, run: seq<Stimulus>)
  {
    && t.mode == mode && t.pair == Owner(mode, run) && t.hidden == Hidden(hidden, run)
    && (t.hasListener <==> SetListener in run)
  }

  lemma OwnedGoesOn(t: Tracker, mode: Mode, hidden: bool, run: seq<Stimulus>, stimulus: Stimulus)
    requires Owned(t, mode, hidden, run) && (t.pair == NoPair <==> !t.listening)
    ensures Owned(React(t, stimulus).0, mode, hidden, run + [stimulus])
  {
    ReactOwns(t, stimulus);
    assert (run + [stimulus])[..|run|] == run;
  }

  lemma {:induction false} RunIsOwned(mode: Mode, hidden: bool, run: seq<Stimulus>)
    ensures Owned(Run(mode, hidden, run).0, mode, hidden, run)
  {
    if run != [] {
      var front, last := run[..|run| - 1], run[|run| - 1];
      RunIsOwned(mode, hidden, front);
      RunAgrees(mode, hidden, front);
      OwnedGoesOn(Run(mode, hidden, front).0, mode, hidden, front, last);
      assert run == front + [last];
    }
  }

  /** What the last stimulus of a run announces. */
  function Announced(mode: Mode, hidden: bool, run: seq<Stimulus>, stimulus: Stimulus): seq<Event>
  {
    React(Run(mode, hidden, run).0, stimulus).1
  }

  /**
   In every run a resume is announced exactly when the pair that listens reports the foreground while a background
   edge is unanswered, and with a listener set its epoch boundary exactly then too.
  */
  lemma {:induction false} ResumesIff(mode: Mode, hidden: bool, run: seq<Stimulus>, stimulus: Stimulus)
    ensures var open, events := Open(Run(mode, hidden, run).1), Announced(mode, hidden, run, stimulus);
      && ((exists i :: 0 <= i < |events| && events[i].Resume?)
          <==> open.Some? && ReportsForeground(Owner(mode, run), stimulus))
      && (EpochBoundary in events
          <==> open.Some? && ReportsForeground(Owner(mode, run), stimulus) && SetListener in run)
      && (NativeRetired in events <==> Owner(mode, run) == NativePair && stimulus == RegistrationFailed)
  {
    RunAgrees(mode, hidden, run);
    RunIsOwned(mode, hidden, run);
    var events := Announced(mode, hidden, run, stimulus);
    if |events| > 0 { assert events[|events| - 1] in events && events[0] in events; }
  }

  /**
   In every run a background edge is announced exactly when the pair that listens reports the background while none
   is unanswered; it is stamped with the time of a native report, and not otherwise.
  */
  lemma {:induction false} BackgroundsIff(mode: Mode, hidden: bool, run: seq<Stimulus>, stimulus: Stimulus)
    ensures var open, events := Open(Run(mode, hidden, run).1), Announced(mode, hidden, run, stimulus);
      && ((exists i :: 0 <= i < |events| && events[i].BackgroundEdge?)
          <==> open.None? && ReportsBackground(mode, Owner(mode, run), Hidden(hidden, run), stimulus))
      && (forall i :: 0 <= i < |events| && events[i].BackgroundEdge? ==>
            events[i].stamp == if stimulus.Native? then Some(stimulus.now) else None)
  {
    RunAgrees(mode, hidden, run);
    RunIsOwned(mode, hidden, run);
    var events := Announced(mode, hidden, run, stimulus);
    if |events| > 0 { assert events[0] in events; }
  }

  /** The app comes to the foreground only by a resume, or by the silent reset when the native pair is retired. */
  lemma LeavingBackground(t: Tracker, stimulus: Stimulus)
    ensures var (next, events) := React(t, stimulus);
      && (next.hasListener <==> t.hasListener || stimulus == SetListener) && (t.listening ==> next.listening)
      && (EpochBoundary in events ==> t.background && !next.background && t.hasListener)
      && (t.background && !next.background && t.hasListener && EpochBoundary !in events
          ==> stimulus == RegistrationFailed && NativeRetired in events)
  {
  }
}
