/**
 When push registration asks, sends and repairs, told from the log: a resume repairs at most every fifteen minutes
 and otherwise always, and an attempt that finds what it needs registers unless that is already under way.
*/
module PushRepairs {
  import opened Wrappers
  import opened PushRegistration
  import opened PushRegistrationLog
  import opened PushRegistrationProofs

  const FIFTEEN_MINUTES_MS := 900000

  /** The provider was asked for an address, and has neither delivered one nor failed, nor did a sign-out end it. */
  predicate AskPending(log: seq<Event>)
  {
    if log == [] then false
    else
      match log[|log| - 1]
      case ProviderAsked => true
      case ProviderFailed => false
      case Delivered(_) => false
      case LoggedOut(_) => false
      case _ => AskPending(log[..|log| - 1])
  }

  /** When the last repair since the last sign-out began. */
  function LastRepair(log: seq<Event>): Option<int>
  {
    if log == [] then None
    else
      match log[|log| - 1]
      case Repairs(now) => Some(now)
      case LoggedOut(_) => None
      case _ => LastRepair(log[..|log| - 1])
  }

  /** Event `i` is a repair, and no sign-out follows it. */
  predicate RepairedAt(log: seq<Event>, i: nat)
    requires i < |log|
  {
    log[i].Repairs? && forall j :: i < j < |log| ==> !log[j].LoggedOut?
  }

  /** Some repair since the last sign-out began less than fifteen minutes before `now`. */
  ghost predicate RepairedLately(log: seq<Event>, now: int)
  {
    exists i :: 0 <= i < |log| && RepairedAt(log, i) && now - log[i].now < FIFTEEN_MINUTES_MS
  }

  /** Each repair began at least fifteen minutes after the one before it, as long as nobody signed out. */
  ghost predicate Spaced(log: seq<Event>)
  {
    log == [] ||
    var before, event := log[..|log| - 1], log[|log| - 1];
    Spaced(before)
    && (event.Repairs? && LastRepair(before).Some? ==>
          event.now - LastRepair(before).value >= FIFTEEN_MINUTES_MS)
  }

  lemma {:induction false} Appended(log: seq<Event>, event: Event)
    ensures AskPending(log + [event])
         == (event.ProviderAsked?
             || (!event.ProviderFailed? && !event.Delivered? && !event.LoggedOut? && AskPending(log)))
    ensures LastRepair(log + [event])
         == if event.Repairs? then Some(event.now) else if event.LoggedOut? then None else LastRepair(log)
    ensures Spaced(log + [event])
         == (Spaced(log)
             && (event.Repairs? && LastRepair(log).Some? ==>
                   event.now - LastRepair(log).value >= FIFTEEN_MINUTES_MS))
  {
    assert (log + [event])[..|log|] == log;
  }

  // ------------------------------------------------------------- every run

  ghost predicate Tracks(p: Phone, log: seq<Event>)
  {
    && p.providerTimer == AskPending(log)
    && p.lastResumeRevalidationAt == LastRepair(log)
    && Spaced(log)
  }

  ghost predicate Tracked(log: seq<Event>, reaction: Reaction)
  {
    Tracks(reaction.0, log + reaction.1) == true
  }

  lemma TrackedQuietly(p: Phone, log: seq<Event>)
    requires Tracks(p, log)
    ensures Tracked(log, (p, []))
  {
    assert log + [] == log;
  }

  lemma TrackedAfter(log: seq<Event>, first: Event, reaction: Reaction)
    requires Tracked(log + [first], reaction)
    ensures Tracked(log, (reaction.0, [first] + reaction.1))
  {
    assert log + ([first] + reaction.1) == (log + [first]) + reaction.1;
  }

  /** An event that is about neither the provider's answer nor a repair nor a sign-out. */
  predicate Aside(event: Event)
  {
    || event.Sent? || event.Settled? || event.LoggedIn?
    || event.Saved? || event.Began? || event.Armed? || event.Fired? || event.Declined? || event.Faulted?
  }

  lemma AsideTracks(p: Phone, log: seq<Event>, next: Phone, event: Event)
    requires Tracks(p, log) && Aside(event)
    requires next.providerTimer == p.providerTimer && next.lastResumeRevalidationAt == p.lastResumeRevalidationAt
    ensures Tracks(next, log + [event])
  {
    Appended(log, event);
  }

  lemma TwoTrack(log: seq<Event>, next: Phone, events: seq<Event>)
    requires 0 < |events| <= 2 && Tracks(next, log + [events[0]]) && (|events| == 2 ==> Aside(events[1]))
    ensures Tracked(log, (next, events))
  {
    if |events| == 2 {
      AsideTracks(next, log + [events[0]], next, events[1]);
      assert log + events == log + [events[0]] + [events[1]];
    } else {
      assert events == [events[0]];
    }
  }

  lemma ProviderTracks(p: Phone, log: seq<Event>)
    requires Tracks(p, log)
    ensures Tracked(log, RegisterWithProvider(p)) && Tracked(log, FailProvider(p))
  {
    TrackedQuietly(p, log);
    Appended(log, ProviderAsked);
    Appended(log, ProviderFailed);
  }

  lemma CurrentTracks(p: Phone, log: seq<Event>)
    requires Tracks(p, log)
    ensures Tracked(log, RegisterCurrentToken(p))
  {
    var (next, events) := RegisterCurrentToken(p);
    if events == [] { TrackedQuietly(p, log); } else { AsideTracks(p, log, next, events[0]); }
  }

  lemma RegisterTracks(p: Phone, log: seq<Event>, refresh: bool)
    requires Tracks(p, log)
    ensures Tracked(log, Register(p, refresh))
  {
    ProviderTracks(p, log);
    CurrentTracks(p, log);
  }

  lemma LogInAndRegisterTracks(p: Phone, log: seq<Event>, credentials: Credentials, refresh: bool)
    requires Tracks(p, log)
    ensures Tracked(log, LogInAndRegister(p, credentials, refresh))
  {
    var event := LoggedIn(credentials.token, credentials.userId);
    AsideTracks(p, log, LogIn(p, credentials), event);
    RegisterTracks(LogIn(p, credentials), log + [event], refresh);
    TrackedAfter(log, event, Register(LogIn(p, credentials), refresh));
  }

  lemma AttemptCredentialsTracks(p: Phone, log: seq<Event>, attempt: Attempt, answer: Answer<Option<Credentials>>)
    requires Tracks(p, log)
    ensures Tracked(log, OnAttemptCredentials(p, attempt, answer))
  {
    var left := p.(attempts := p.attempts - multiset{attempt});
    var (next, events) := OnAttemptCredentials(p, attempt, answer);
    if attempt in p.attempts && attempt.GrantCredentials? && attempt.known && answer.Came? && answer.value.Some? {
      LogInAndRegisterTracks(left, log, answer.value.value, attempt.refresh);
    } else if events == [] {
      TrackedQuietly(next, log);
    } else {
      AsideTracks(p, log, next, events[0]);
    }
  }

  lemma AttemptPermissionTracks(p: Phone, log: seq<Event>, attempt: Attempt, answer: Answer<bool>)
    requires Tracks(p, log)
    ensures Tracked(log, OnAttemptPermission(p, attempt, answer))
  {
    var left := p.(attempts := p.attempts - multiset{attempt});
    var (next, events) := OnAttemptPermission(p, attempt, answer);
    if attempt !in p.attempts || !(attempt.EnsurePermission? || attempt.GrantPermission?) {
      TrackedQuietly(p, log);
    } else if answer.Threw? || !answer.value {
      AsideTracks(p, log, next, events[0]);
    } else if attempt.EnsurePermission? {
      RegisterTracks(left, log, false);
    } else {
      LogInAndRegisterTracks(left, log, attempt.credentials, attempt.refresh);
    }
  }

  lemma ErrandTracks(p: Phone, log: seq<Event>, errand: Errand, answer: Answer<Option<Credentials>>)
    requires Tracks(p, log)
    ensures Tracked(log, OnErrandCredentials(p, errand, answer))
  {
    var (next, events) := OnErrandCredentials(p, errand, answer);
    if events == [] {
      TrackedQuietly(next, log);
    } else {
      AsideTracks(p, log, next, events[0]);
      TwoTrack(log, next, events);
    }
  }

  lemma {:induction false} RepairTracks(p: Phone, log: seq<Event>, now: int)
    requires p.providerTimer == AskPending(log) && Spaced(log)
    requires LastRepair(log).Some? ==> now - LastRepair(log).value >= FIFTEEN_MINUTES_MS
    ensures Tracked(log, (Begin(p.(lastResumeRevalidationAt := Some(now)), GrantCredentials(true, true)).0,
                          [Repairs(now)] + [Began]))
  {
    var repairing := p.(lastResumeRevalidationAt := Some(now));
    var begun := Begin(repairing, GrantCredentials(true, true));
    Appended(log, Repairs(now));
    AsideTracks(repairing, log + [Repairs(now)], begun.0, Began);
    TrackedAfter(log, Repairs(now), begun);
  }

  lemma ResumeCheckedTracks(p: Phone, log: seq<Event>, answer: Answer<bool>, now: int)
    requires Tracks(p, log)
    ensures Tracked(log, OnResumeChecked(p, answer, now))
  {
    var left := p.(errands := p.errands - multiset{ResumePermission});
    var (next, events) := OnResumeChecked(p, answer, now);
    if events == [] {
      TrackedQuietly(next, log);
    } else if answer.Threw? {
      AsideTracks(p, log, next, Faulted);
    } else {
      RepairTracks(left, log, now);
    }
  }

  lemma DeliveredTracks(p: Phone, log: seq<Event>, token: nat)
    requires Tracks(p, log)
    ensures Tracked(log, OnTokenDelivered(p, token))
  {
    var held := p.(providerTimer := false, deviceToken := Some(token), cleanupToken := Some(token));
    Appended(log, Delivered(token));
    CurrentTracks(held, log + [Delivered(token)]);
    TrackedAfter(log, Delivered(token), RegisterCurrentToken(held));
  }

  lemma UploadTracks(p: Phone, log: seq<Event>, upload: Upload, outcome: UploadOutcome)
    requires Tracks(p, log)
    ensures Tracked(log, OnUploadSettles(p, upload, outcome))
  {
    var (next, events) := OnUploadSettles(p, upload, outcome);
    AsideTracks(p, log, next, events[0]);
    TwoTrack(log, next, events);
  }

  lemma ScheduledTracks(p: Phone, log: seq<Event>)
    requires Tracks(p, log)
    ensures Tracked(log, OnScheduledFires(p))
  {
    var (next, events) := OnScheduledFires(p);
    if events == [] {
      TrackedQuietly(next, log);
    } else {
      AsideTracks(p, log, next, Fired);
      TwoTrack(log, next, events);
    }
  }

  lemma ProviderStepTracks(p: Phone, log: seq<Event>, step: Step)
    requires Tracks(p, log) && (step.ProviderCallSettles? || step.ProviderTimesOut? || step.ProviderErrors?)
    ensures Tracked(log, Take(p, step))
  {
    var (next, events) := Take(p, step);
    if events == [] { TrackedQuietly(next, log); } else { Appended(log, ProviderFailed); }
  }

  lemma OtherTracks(p: Phone, log: seq<Event>, step: Step)
    requires Tracks(p, log)
    requires step.SignedIn? || step.SystemResumed? || step.Retry? || step.PermissionGranted? || step.SetMuted?
    ensures Tracked(log, Take(p, step))
  {
    var (next, events) := Take(p, step);
    if events == [] { TrackedQuietly(next, log); } else { AsideTracks(p, log, next, Began); }
  }

  lemma TakeTracks(p: Phone, log: seq<Event>, step: Step)
    requires Tracks(p, log)
    ensures Tracked(log, Take(p, step))
  {
    match step
    case SignedOut => Appended(log, OnSignedOut(p).1[0]);
    case ScheduledFires => ScheduledTracks(p, log);
    case AttemptCredentials(attempt, answer) => AttemptCredentialsTracks(p, log, attempt, answer);
    case AttemptPermission(attempt, answer) => AttemptPermissionTracks(p, log, attempt, answer);
    case ErrandCredentials(errand, answer) => ErrandTracks(p, log, errand, answer);
    case ResumeChecked(answer, now) => ResumeCheckedTracks(p, log, answer, now);
    case ProviderCallSettles(_) => ProviderStepTracks(p, log, step);
    case ProviderTimesOut => ProviderStepTracks(p, log, step);
    case ProviderErrors => ProviderStepTracks(p, log, step);
    case TokenDelivered(token) => DeliveredTracks(p, log, token);
    case UploadSettles(upload, outcome) =>
      if upload in p.uploads { UploadTracks(p, log, upload, outcome); } else { TrackedQuietly(p, log); }
    case _ => OtherTracks(p, log, step);
  }

  lemma {:induction false} RunTracks(stored: map<nat, set<nat>>, run: seq<Step>)
    ensures Tracks(Run(stored, run).0, Run(stored, run).1)
  {
    if run != [] {
      var (p, log) := Run(stored, run[..|run| - 1]);
      RunTracks(stored, run[..|run| - 1]);
      TakeTracks(p, log, run[|run| - 1]);
    }
  }

  lemma ReachableTracks(p: Phone, log: seq<Event>)
    requires Reachable(p, log)
    ensures Tracks(p, log)
  {
    var stored: map<nat, set<nat>>, run: seq<Step> :| Run(stored, run) == (p, log);
    RunTracks(stored, run);
  }

  /** The last repair since the last sign-out is the latest. */
  lemma {:induction false} LastIsLatest(log: seq<Event>, i: nat)
    requires Spaced(log) && i < |log| && RepairedAt(log, i)
    ensures LastRepair(log).Some? && log[i].now <= LastRepair(log).value
    ensures LastRepair(log).value == log[i].now || LastRepair(log).value - log[i].now >= FIFTEEN_MINUTES_MS
  {
    var n := |log| - 1;
    if i < n { LastIsLatest(log[..n], i); }
  }

  lemma {:induction false} LastRepairIsThere(log: seq<Event>) returns (i: nat)
    requires LastRepair(log).Some?
    ensures i < |log| && RepairedAt(log, i) && log[i].now == LastRepair(log).value
  {
    var n := |log| - 1;
    if log[n].Repairs? { i := n; } else { i := LastRepairIsThere(log[..n]); }
  }

  lemma {:induction false} LatelyIsLast(log: seq<Event>, now: int)
    requires Spaced(log)
    ensures RepairedLately(log, now)
       <==> LastRepair(log).Some? && now - LastRepair(log).value < FIFTEEN_MINUTES_MS
  {
    if RepairedLately(log, now) {
      var i :| 0 <= i < |log| && RepairedAt(log, i) && now - log[i].now < FIFTEEN_MINUTES_MS;
      LastIsLatest(log, i);
    }
    if LastRepair(log).Some? {
      var i := LastRepairIsThere(log);
    }
  }

  // ----------------------------------------------------------- main results

  /**
   In every run, a resume check that finds permission while no provider request is pending begins a repair if and
   only if no repair since the last sign-out began less than fifteen minutes before. With no permission, with a
   request pending, or when the check throws, it begins none.
  */
  lemma {:induction false} ResumeRepairsIff(p: Phone, log: seq<Event>, answer: Answer<bool>, now: int)
    requires Reachable(p, log) && ResumePermission in p.errands
    ensures var (next, events) := Take(p, ResumeChecked(answer, now));
      && (Repairs(now) in events
          <==> answer == Came(true) && !AskPending(log) && !RepairedLately(log, now))
      && (Repairs(now) in events ==> GrantCredentials(true, true) in next.attempts)
  {
    ReachableTracks(p, log);
    LatelyIsLast(log, now);
    var (next, events) := Take(p, ResumeChecked(answer, now));
    if events != [] && answer.Came? {
      assert events == [Repairs(now), Began];
      assert events[0] == Repairs(now);
    }
  }

  /** In every run any two repairs with no sign-out in between begin at least fifteen minutes apart. */
  lemma RepairsAreSpaced(p: Phone, log: seq<Event>, i: nat, j: nat)
    requires Reachable(p, log) && i < j < |log| && log[i].Repairs? && log[j].Repairs?
    requires forall k :: i < k < j ==> !log[k].LoggedOut?
    ensures log[j].now - log[i].now >= FIFTEEN_MINUTES_MS
  {
    ReachableTracks(p, log);
    SpacedAt(log, i, j);
  }

  lemma {:induction false} SpacedAt(log: seq<Event>, i: nat, j: nat)
    requires Spaced(log) && i < j < |log| && log[i].Repairs? && log[j].Repairs?
    requires forall k :: i < k < j ==> !log[k].LoggedOut?
    ensures log[j].now - log[i].now >= FIFTEEN_MINUTES_MS
  {
    var n := |log| - 1;
    if j < n {
      SpacedAt(log[..n], i, j);
    } else {
      assert RepairedAt(log[..n], i);
      LastIsLatest(log[..n], i);
    }
  }

  /** The step lets an attempt go on with a login and permission: for whom, and whether the address is to be renewed. */
  predicate GoesThrough(p: Phone, step: Step, login: Option<Credentials>, renew: bool)
  {
    match step
    case AttemptCredentials(attempt, stored) =>
      attempt in p.attempts && attempt == GrantCredentials(true, renew) && login.Some? && stored == Came(login)
    case AttemptPermission(attempt, granted) =>
      && attempt in p.attempts && granted == Came(true)
      && (if login.Some? then attempt == GrantPermission(renew, login.value) else attempt == EnsurePermission && !renew)
    case _ => false
  }

  /** What the phone wants once the login is adopted. */
  function WantedThen(p: Phone, login: Option<Credentials>): Option<Key>
  {
    Wanted(if login.None? then p else p.(bearerToken := Some(login.value.token), userId := Some(login.value.userId)))
  }

  /**
   In every run, an attempt that goes through asks the provider, if the address is to be renewed or there is none,
   exactly when no request is pending; and otherwise sends what is wanted, exactly when nothing is on the wire and
   that is not what the server is known to hold.
  */
  lemma {:induction false} AttemptRegistersIff(p: Phone, log: seq<Event>, step: Step, login: Option<Credentials>,
                                               renew: bool)
    requires Reachable(p, log) && GoesThrough(p, step, login, renew)
    ensures var events := Take(p, step).1;
      && (ProviderAsked in events <==> (renew || p.deviceToken.None?) && !AskPending(log))
      && ((exists i :: 0 <= i < |events| && events[i].Sent?)
          <==> !renew && WantedThen(p, login).Some? && !OnTheWire(log) && Standing(log) != WantedThen(p, login))
      && (forall i :: 0 <= i < |events| && events[i].Sent? ==> Some(events[i].key) == WantedThen(p, login))
  {
    ReachableTracks(p, log);
    ReachableKeeps(p, log);
    GoneThrough(p, step, login, renew);
  }

  lemma GoneThrough(p: Phone, step: Step, login: Option<Credentials>, renew: bool)
    requires GoesThrough(p, step, login, renew) && (p.bearerToken.None? <==> p.userId.None?)
    ensures var events := Take(p, step).1;
      && (ProviderAsked in events <==> (renew || p.deviceToken.None?) && !p.providerTimer)
      && ((exists i :: 0 <= i < |events| && events[i].Sent?)
          <==> !renew && WantedThen(p, login).Some? && !p.registrationInFlight
               && p.lastRegisteredKey != WantedThen(p, login))
      && (forall i :: 0 <= i < |events| && events[i].Sent? ==> Some(events[i].key) == WantedThen(p, login))
  {
    var events := Take(p, step).1;
    if |events| > 0 { assert events[|events| - 1] in events; }
  }
}
