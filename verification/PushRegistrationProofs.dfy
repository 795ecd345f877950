/**
 What every run of push registration keeps: one upload at a time, a recorded key that never lies, and no want
 that is quietly forgotten.
*/
module PushRegistrationProofs {
  import opened Wrappers
  import opened PushRegistration
  import opened PushRegistrationLog

  // ---------------------------------------------------------- the invariant

  /** The want is met, or something still on its way will meet it, or the last try failed or was turned away. */
  ghost predicate Covered(p: Phone, log: seq<Event>)
  {
    || Wanted(p).None?
    || Wanted(p) == p.lastRegisteredKey
    || p.registrationInFlight
    || p.scheduledTimer
    || p.attempts != multiset{}
    || p.status == Failed
    || Rebuffed(log)
  }

  /** Everything but the cover; it also holds while an attempt is being carried out. */
  ghost predicate Sane(p: Phone, log: seq<Event>)
  {
    && OneAtATime(log)
    && (p.registrationInFlight <==> OnTheWire(log))
    && (!p.registrationInFlight ==> p.uploads == multiset{})
    && (p.registrationInFlight ==>
          |p.uploads| == 1 && p.lastRegisteredKey.None?
          && forall u :: u in p.uploads ==>
               LastSent(log) == Some((u.key, u.bearer)) && u.revision <= p.registrationRevision
               && (u.revision == p.registrationRevision <==> Undisturbed(log)))
    && p.bearerToken == Bearer(log)
    && (p.bearerToken.None? <==> p.userId.None?)
    && p.cleanupToken == LastDelivered(log)
    && p.lastRegisteredKey == Standing(log)
    && (p.providerTimer ==> p.deviceToken.None?)
    && (p.deviceToken.Some? ==> p.cleanupToken == p.deviceToken)
    && (p.status == Registered ==> p.lastRegisteredKey.Some?)
    && (p.lastRegisteredKey.Some? ==>
          && (p.status == Registered <==> Announced(log))
          && LastAccepted(log) == Some(p.lastRegisteredKey.value.deviceToken))
  }

  ghost predicate Inv(p: Phone, log: seq<Event>)
  {
    Sane(p, log) && Covered(p, log)
  }

  /** The invariant after a reaction, as one claim rather than a conjunction of many. */
  ghost predicate Kept(log: seq<Event>, reaction: Reaction)
  {
    Inv(reaction.0, log + reaction.1) == true
  }

  lemma KeptQuietly(p: Phone, log: seq<Event>)
    requires Inv(p, log)
    ensures Kept(log, (p, []))
  {
    assert log + [] == log;
  }

  lemma KeptAfter(log: seq<Event>, first: Event, reaction: Reaction)
    requires Kept(log + [first], reaction)
    ensures Kept(log, (reaction.0, [first] + reaction.1))
  {
    assert log + ([first] + reaction.1) == (log + [first]) + reaction.1;
  }

  // ------------------------------------------------------------- the steps

  lemma FailKeeps(p: Phone, log: seq<Event>)
    requires Sane(p, log)
    ensures Kept(log, FailProvider(p))
  {
    Append(log, ProviderFailed);
  }

  lemma ProviderKeeps(p: Phone, log: seq<Event>)
    requires Sane(p, log)
    ensures Kept(log, RegisterWithProvider(p))
  {
    Append(log, ProviderAsked);
    assert log + [] == log;
  }

  lemma CurrentKeeps(p: Phone, log: seq<Event>)
    requires Sane(p, log)
    ensures Kept(log, RegisterCurrentToken(p))
  {
    assert log + [] == log;
    if RegisterCurrentToken(p).1 != [] {
      Append(log, RegisterCurrentToken(p).1[0]);
    }
  }

  lemma RegisterKeeps(p: Phone, log: seq<Event>, refresh: bool)
    requires Sane(p, log)
    ensures Kept(log, Register(p, refresh))
  {
    if refresh || p.deviceToken.None? { ProviderKeeps(p, log); } else { CurrentKeeps(p, log); }
  }

  lemma LogInKeeps(p: Phone, log: seq<Event>, credentials: Credentials)
    requires Sane(p, log)
    ensures Sane(LogIn(p, credentials), log + [LoggedIn(credentials.token, credentials.userId)])
  {
    Append(log, LoggedIn(credentials.token, credentials.userId));
  }

  lemma LogInAndRegisterKeeps(p: Phone, log: seq<Event>, credentials: Credentials, refresh: bool)
    requires Sane(p, log)
    ensures Kept(log, LogInAndRegister(p, credentials, refresh))
  {
    var event := LoggedIn(credentials.token, credentials.userId);
    LogInKeeps(p, log, credentials);
    RegisterKeeps(LogIn(p, credentials), log + [event], refresh);
    KeptAfter(log, event, Register(LogIn(p, credentials), refresh));
  }

  lemma BeginKeeps(p: Phone, log: seq<Event>, attempt: Attempt)
    requires Sane(p, log)
    ensures Kept(log, Begin(p, attempt))
  {
    Append(log, Began);
    assert attempt in p.attempts + multiset{attempt};
  }

  lemma DeclineKeeps(p: Phone, log: seq<Event>)
    requires Sane(p, log)
    ensures Kept(log, (p, [Declined]))
  {
    Append(log, Declined);
  }

  lemma ThrowKeeps(p: Phone, log: seq<Event>)
    requires Sane(p, log)
    ensures Kept(log, (p.(status := Failed), [Faulted]))
  {
    Append(log, Faulted);
  }

  lemma AttemptCredentialsKeeps(p: Phone, log: seq<Event>, attempt: Attempt, answer: Answer<Option<Credentials>>)
    requires Inv(p, log)
    ensures Kept(log, OnAttemptCredentials(p, attempt, answer))
  {
    var left := p.(attempts := p.attempts - multiset{attempt});
    if attempt !in p.attempts || !(attempt.EnsureCredentials? || attempt.GrantCredentials?) {
      KeptQuietly(p, log);
    } else if answer.Threw? {
      ThrowKeeps(left, log);
    } else if answer.value.None? {
      DeclineKeeps(left, log);
    } else if attempt.EnsureCredentials? {
      EnsureGoesOn(left, log, answer.value.value);
    } else if attempt.known {
      LogInAndRegisterKeeps(left, log, answer.value.value, attempt.refresh);
    } else {
      GoesOn(left, log, GrantPermission(attempt.refresh, answer.value.value));
    }
  }

  lemma GoesOn(p: Phone, log: seq<Event>, attempt: Attempt)
    requires Sane(p, log)
    ensures Kept(log, (p.(attempts := p.attempts + multiset{attempt}), []))
  {
    assert attempt in p.attempts + multiset{attempt};
    assert log + [] == log;
  }

  lemma EnsureGoesOn(p: Phone, log: seq<Event>, credentials: Credentials)
    requires Sane(p, log)
    ensures Kept(log, (LogIn(p, credentials).(attempts := p.attempts + multiset{EnsurePermission}),
                       [LoggedIn(credentials.token, credentials.userId)]))
  {
    var event := LoggedIn(credentials.token, credentials.userId);
    LogInKeeps(p, log, credentials);
    GoesOn(LogIn(p, credentials), log + [event], EnsurePermission);
    assert log + [event] + [] == log + [event];
  }

  lemma AttemptPermissionKeeps(p: Phone, log: seq<Event>, attempt: Attempt, answer: Answer<bool>)
    requires Inv(p, log)
    ensures Kept(log, OnAttemptPermission(p, attempt, answer))
  {
    var left := p.(attempts := p.attempts - multiset{attempt});
    if attempt !in p.attempts || !(attempt.EnsurePermission? || attempt.GrantPermission?) {
      KeptQuietly(p, log);
    } else if answer.Threw? {
      ThrowKeeps(left, log);
    } else if !answer.value {
      DeclineKeeps(left, log);
    } else if attempt.EnsurePermission? {
      RegisterKeeps(left, log, false);
    } else {
      LogInAndRegisterKeeps(left, log, attempt.credentials, attempt.refresh);
    }
  }

  lemma ScheduleKeeps(p: Phone, log: seq<Event>)
    requires Sane(p, log)
    ensures Kept(log, Schedule(p))
  {
    Append(log, Armed);
  }

  /** Errands and the revalidation clock touch nothing the invariant speaks of. */
  lemma ErrandsKeep(p: Phone, log: seq<Event>, errands: multiset<Errand>, at: Option<int>)
    requires Inv(p, log)
    ensures Inv(p.(errands := errands, lastResumeRevalidationAt := at), log)
  {
  }

  lemma MutedKeeps(p: Phone, log: seq<Event>, userId: nat, muted: set<nat>)
    requires Inv(p, log)
    ensures Kept(log, (Schedule(p.(stored := p.stored[userId := muted])).0, [Saved(userId, muted)] + [Armed]))
  {
    var saved := p.(stored := p.stored[userId := muted]);
    Append(log, Saved(userId, muted));
    ScheduleKeeps(saved, log + [Saved(userId, muted)]);
    KeptAfter(log, Saved(userId, muted), Schedule(saved));
  }

  lemma ErrandCredentialsKeeps(p: Phone, log: seq<Event>, errand: Errand, answer: Answer<Option<Credentials>>)
    requires Inv(p, log)
    ensures Kept(log, OnErrandCredentials(p, errand, answer))
  {
    var left := p.(errands := p.errands - multiset{errand});
    ErrandsKeep(p, log, left.errands, p.lastResumeRevalidationAt);
    if errand !in p.errands || !(errand.ResumeCredentials? || errand.MutedUser?) {
      KeptQuietly(p, log);
    } else if errand.ResumeCredentials? && answer.Threw? {
      ThrowKeeps(left, log);
    } else if answer.Threw? || answer.value.None? {
      KeptQuietly(left, log);
    } else if errand.ResumeCredentials? {
      ErrandsKeep(left, log, left.errands + multiset{ResumePermission}, left.lastResumeRevalidationAt);
      KeptQuietly(left.(errands := left.errands + multiset{ResumePermission}), log);
    } else {
      MutedKeeps(left, log, answer.value.value.userId, errand.muted);
    }
  }

  lemma RepairKeeps(p: Phone, log: seq<Event>, now: int)
    requires Sane(p, log)
    ensures Kept(log, (Begin(p, GrantCredentials(true, true)).0, [Repairs(now)] + [Began]))
  {
    Append(log, Repairs(now));
    BeginKeeps(p, log + [Repairs(now)], GrantCredentials(true, true));
    KeptAfter(log, Repairs(now), Begin(p, GrantCredentials(true, true)));
  }

  lemma ResumeCheckedKeeps(p: Phone, log: seq<Event>, answer: Answer<bool>, now: int)
    requires Inv(p, log)
    ensures Kept(log, OnResumeChecked(p, answer, now))
  {
    var left := p.(errands := p.errands - multiset{ResumePermission});
    ErrandsKeep(p, log, left.errands, p.lastResumeRevalidationAt);
    if ResumePermission !in p.errands {
      KeptQuietly(p, log);
    } else if answer.Threw? {
      ThrowKeeps(left, log);
    } else {
      KeptQuietly(left, log);
      ErrandsKeep(left, log, left.errands, Some(now));
      RepairKeeps(left.(lastResumeRevalidationAt := Some(now)), log, now);
    }
  }

  lemma SignedOutKeeps(p: Phone, log: seq<Event>)
    requires Inv(p, log)
    ensures Kept(log, OnSignedOut(p))
  {
    Append(log, OnSignedOut(p).1[0]);
  }

  lemma ScheduledFiresKeeps(p: Phone, log: seq<Event>)
    requires Inv(p, log)
    ensures Kept(log, OnScheduledFires(p))
  {
    var fired := p.(scheduledTimer := false);
    Append(log, Fired);
    if Wanted(p).Some? && Wanted(p) == p.lastRegisteredKey {
      assert Inv(fired, log + [Fired]);
    } else if p.scheduledTimer {
      BeginKeeps(fired, log + [Fired], GrantCredentials(false, false));
      KeptAfter(log, Fired, Begin(fired, GrantCredentials(false, false)));
    }
    KeptQuietly(p, log);
  }

  lemma TokenDeliveredKeeps(p: Phone, log: seq<Event>, token: nat)
    requires Inv(p, log)
    ensures Kept(log, OnTokenDelivered(p, token))
  {
    var held := p.(providerTimer := false, deviceToken := Some(token), cleanupToken := Some(token));
    Append(log, Delivered(token));
    CurrentKeeps(held, log + [Delivered(token)]);
    KeptAfter(log, Delivered(token), RegisterCurrentToken(held));
  }

  lemma {:induction false} OnlyUpload(p: Phone, log: seq<Event>, upload: Upload)
    requires Inv(p, log) && upload in p.uploads
    ensures p.registrationInFlight && p.uploads - multiset{upload} == multiset{}
    ensures upload.revision == p.registrationRevision <==> Undisturbed(log)
    ensures LastSent(log) == Some((upload.key, upload.bearer))
  {
    assert |p.uploads - multiset{upload}| == 0;
  }

  function Settlement(p: Phone, upload: Upload, outcome: UploadOutcome): Event
  {
    Settled(upload.key, upload.bearer, outcome, Wanted(p) == Some(upload.key))
  }

  lemma WrittenKeeps(p: Phone, log: seq<Event>, upload: Upload, outcome: UploadOutcome)
    requires Inv(p, log) && upload in p.uploads
    ensures var landed := p.(uploads := p.uploads - multiset{upload}, registrationInFlight := false);
      Sane(Recorded(landed, upload, outcome), log + [Settlement(p, upload, outcome)])
  {
    OnlyUpload(p, log, upload);
    Append(log, Settlement(p, upload, outcome));
  }

  lemma UploadSettlesKeeps(p: Phone, log: seq<Event>, upload: Upload, outcome: UploadOutcome)
    requires Inv(p, log) && upload in p.uploads
    ensures Kept(log, OnUploadSettles(p, upload, outcome))
  {
    var settled := Settlement(p, upload, outcome);
    var landed := p.(uploads := p.uploads - multiset{upload}, registrationInFlight := false);
    var written := Recorded(landed, upload, outcome);
    WrittenKeeps(p, log, upload, outcome);
    SettleIsFollowedUp(p, upload, outcome);
    if |OnUploadSettles(p, upload, outcome).1| == 2 {
      ScheduleKeeps(written, log + [settled]);
      KeptAfter(log, settled, Schedule(written));
      assert [settled] + [Armed] == [settled, Armed];
    }
  }

  /**
   Once an upload settles, whatever the outcome and whatever came in between: nothing is wanted, or the wanted
   key is the recorded one, or a trailing send is armed, or the state is "failed".
  */
  lemma SettleIsFollowedUp(p: Phone, upload: Upload, outcome: UploadOutcome)
    ensures var next := OnUploadSettles(p, upload, outcome).0;
      Wanted(next).None? || Wanted(next) == next.lastRegisteredKey || next.scheduledTimer || next.status == Failed
  {
  }

  lemma UploadAnswerKeeps(p: Phone, log: seq<Event>, upload: Upload, outcome: UploadOutcome)
    requires Inv(p, log)
    ensures Kept(log, Take(p, UploadSettles(upload, outcome)))
  {
    if upload in p.uploads { UploadSettlesKeeps(p, log, upload, outcome); } else { KeptQuietly(p, log); }
  }

  lemma ErrandKeeps(p: Phone, log: seq<Event>, errand: Errand)
    requires Inv(p, log)
    ensures Kept(log, (p.(errands := p.errands + multiset{errand}), []))
  {
    KeptQuietly(p.(errands := p.errands + multiset{errand}), log);
  }

  lemma TakeKeeps(p: Phone, log: seq<Event>, step: Step)
    requires Inv(p, log)
    ensures Kept(log, Take(p, step))
  {
    match step
    case SignedIn => BeginKeeps(p, log, EnsureCredentials);
    case SignedOut => SignedOutKeeps(p, log);
    case SystemResumed => ErrandKeeps(p, log, ResumeCredentials);
    case Retry => BeginKeeps(p, log, GrantCredentials(false, true));
    case PermissionGranted => BeginKeeps(p, log, GrantCredentials(true, true));
    case SetMuted(muted) => ErrandKeeps(p, log, MutedUser(muted));
    case ScheduledFires => ScheduledFiresKeeps(p, log);
    case AttemptCredentials(attempt, answer) => AttemptCredentialsKeeps(p, log, attempt, answer);
    case AttemptPermission(attempt, answer) => AttemptPermissionKeeps(p, log, attempt, answer);
    case ErrandCredentials(errand, answer) => ErrandCredentialsKeeps(p, log, errand, answer);
    case ResumeChecked(answer, now) => ResumeCheckedKeeps(p, log, answer, now);
    case ProviderCallSettles(ok) => ProviderCallKeeps(p, log, ok);
    case ProviderTimesOut => TimeoutKeeps(p, log);
    case ProviderErrors => FailKeeps(p, log);
    case TokenDelivered(token) => TokenDeliveredKeeps(p, log, token);
    case UploadSettles(upload, outcome) => UploadAnswerKeeps(p, log, upload, outcome);
  }

  lemma ProviderCallKeeps(p: Phone, log: seq<Event>, ok: bool)
    requires Inv(p, log)
    ensures Kept(log, Take(p, ProviderCallSettles(ok)))
  {
    var left := p.(errands := p.errands - multiset{ProviderCall});
    ErrandsKeep(p, log, left.errands, p.lastResumeRevalidationAt);
    KeptQuietly(p, log);
    KeptQuietly(left, log);
    FailKeeps(left, log);
  }

  lemma TimeoutKeeps(p: Phone, log: seq<Event>)
    requires Inv(p, log)
    ensures Kept(log, Take(p, ProviderTimesOut))
  {
    assert log + [] == log;
    FailKeeps(p, log);
  }

  lemma {:induction false} RunKeeps(stored: map<nat, set<nat>>, run: seq<Step>)
    ensures Inv(Run(stored, run).0, Run(stored, run).1)
  {
    if run != [] {
      var (p, log) := Run(stored, run[..|run| - 1]);
      RunKeeps(stored, run[..|run| - 1]);
      TakeKeeps(p, log, run[|run| - 1]);
    }
  }

  // ----------------------------------------------------------- main results

  /** A phone that some run leads to from a fresh start, with what that run showed. */
  ghost predicate Reachable(p: Phone, log: seq<Event>)
  {
    exists stored: map<nat, set<nat>>, run: seq<Step> :: Run(stored, run) == (p, log)
  }

  lemma ReachableKeeps(p: Phone, log: seq<Event>)
    requires Reachable(p, log)
    ensures Inv(p, log)
  {
    var stored: map<nat, set<nat>>, run: seq<Step> :| Run(stored, run) == (p, log);
    RunKeeps(stored, run);
  }

  /**
   In every run the recorded key is exactly the one the server is known to hold: `key` is recorded if and only
   if some upload of it was accepted for the login that sent it, that login is still there at the settle, and
   since that upload left there was no other upload or settle, no sign-out, no provider refresh and no provider
   failure. While an upload is out nothing is recorded.
  */
  lemma RecordedKeyNeverLies(p: Phone, log: seq<Event>, key: Key)
    requires Reachable(p, log)
    ensures p.lastRegisteredKey == Some(key) <==> Stands(log, key)
    ensures p.registrationInFlight ==> p.lastRegisteredKey.None?
  {
    ReachableKeeps(p, log);
    if p.lastRegisteredKey == Some(key) {
      var s, i := StandingStands(log);
    }
    if Stands(log, key) {
      var s: nat, i: nat :| StandsSince(log, key, s, i);
      StandsIsStanding(log, key, s, i);
    }
  }

  /** In every run "registered" is answered only when the phone wants exactly what the server is known to hold. */
  lemma RegisteredMeansAccepted(p: Phone, log: seq<Event>)
    requires Reachable(p, log) && RegistrationState(p) == Registered
    ensures Wanted(p).Some? && Stands(log, Wanted(p).value) && !p.registrationInFlight
  {
    ReachableKeeps(p, log);
    RecordedKeyNeverLies(p, log, Wanted(p).value);
  }

  /**
   The other half, exactly. In every run, when the wanted key is the recorded one, "registered" is answered if
   and only if the settle that recorded it found it still wanted and no attempt or resume check threw since.
  */
  lemma MetWantIsRegisteredIff(p: Phone, log: seq<Event>) returns (s: nat, i: nat)
    requires Reachable(p, log) && Wanted(p).Some? && Wanted(p) == p.lastRegisteredKey
    ensures StandsSince(log, Wanted(p).value, s, i)
    ensures RegistrationState(p) == Registered
       <==> log[i].stillWanted && forall j :: i < j < |log| ==> !log[j].Faulted?
  {
    ReachableKeeps(p, log);
    s, i := StandingStands(log);
    StandsIsStanding(log, Wanted(p).value, s, i);
  }

  /**
   In every run, a want that is neither met nor on the wire still has a trailing send armed or an attempt under
   way, unless the state is "failed" or the newest attempt was turned away for want of credential or permission.
  */
  lemma {:induction false} NoWantIsForgotten(p: Phone, log: seq<Event>)
    requires Reachable(p, log)
    requires Wanted(p).Some? && Wanted(p) != p.lastRegisteredKey && !p.registrationInFlight
    ensures p.scheduledTimer || p.attempts != multiset{} || p.status == Failed || Rebuffed(log)
  {
    ReachableKeeps(p, log);
  }

  /** In every run there is at most one upload on the wire, and the flag says so. */
  lemma OneUploadAtATime(p: Phone, log: seq<Event>)
    requires Reachable(p, log)
    ensures |p.uploads| == if p.registrationInFlight then 1 else 0
  {
    ReachableKeeps(p, log);
  }

  /** Between two uploads the first one settles. */
  lemma {:induction false} SettlesBetween(log: seq<Event>, i: nat, j: nat) returns (k: nat)
    requires OneAtATime(log) && i < j < |log| && log[i].Sent? && log[j].Sent?
    ensures i < k < j && log[k].Settled?
  {
    if j == |log| - 1 {
      k := SettledSince(log[..j], i);
    } else {
      k := SettlesBetween(log[..|log| - 1], i, j);
    }
  }

  lemma {:induction false} SettledSince(log: seq<Event>, i: nat) returns (k: nat)
    requires i < |log| && log[i].Sent? && !OnTheWire(log)
    ensures i < k < |log| && log[k].Settled?
  {
    k := |log| - 1;
    if !log[k].Settled? { k := SettledSince(log[..|log| - 1], i); }
  }

  /** In every run two uploads never overlap: before the second is sent the first has settled. */
  lemma UploadsNeverOverlap(p: Phone, log: seq<Event>, i: nat, j: nat) returns (k: nat)
    requires Reachable(p, log) && i < j < |log| && log[i].Sent? && log[j].Sent?
    ensures i < k < j && log[k].Settled?
  {
    ReachableKeeps(p, log);
    k := SettlesBetween(log, i, j);
  }

  /** Signing out asks the server to drop the address the provider delivered last, registered or not. */
  lemma {:induction false} SignOutRemovesLastDelivered(p: Phone, log: seq<Event>)
    requires Reachable(p, log)
    ensures OnSignedOut(p).1 == [LoggedOut(if Bearer(log).Some? && LastDelivered(log).Some?
                                           then Some((Bearer(log).value, LastDelivered(log).value)) else None)]
  {
    ReachableKeeps(p, log);
  }

  /**
   In every run with someone signed in and an address accepted, sign-out drops the address accepted last if and
   only if it is also the one delivered last.
  */
  lemma {:induction false} SignOutDropsAcceptedIff(p: Phone, log: seq<Event>)
    requires Reachable(p, log) && p.bearerToken.Some? && LastAccepted(log).Some?
    ensures OnSignedOut(p).1 == [LoggedOut(Some((p.bearerToken.value, LastAccepted(log).value)))]
       <==> LastDelivered(log) == LastAccepted(log)
  {
    ReachableKeeps(p, log);
  }

  /** While the row is told "registered", sign-out drops the very address the server is known to hold. */
  lemma {:induction false} RegisteredSignOutDropsAccepted(p: Phone, log: seq<Event>)
    requires Reachable(p, log) && RegistrationState(p) == Registered
    ensures p.bearerToken.Some? && p.lastRegisteredKey.Some? && Stands(log, p.lastRegisteredKey.value)
    ensures OnSignedOut(p).1 == [LoggedOut(Some((p.bearerToken.value, p.lastRegisteredKey.value.deviceToken)))]
    ensures LastAccepted(log) == Some(p.lastRegisteredKey.value.deviceToken)
  {
    ReachableKeeps(p, log);
    RegisteredMeansAccepted(p, log);
  }
}
