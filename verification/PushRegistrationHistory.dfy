/**
 Push registration without a field of its own: whatever the phone does next is decided by what it has shown so far,
 and by the activations that wait. The proof is that the code, with its flags, counters and timers, does the same in
 every run, and that each of its fields is what the history says.
*/
module PushRegistrationHistory {
  import opened Wrappers
  import opened PushRegistration
  import opened PushRegistrationLog
  import PushRegistrationProofs
  import opened PushRepairs

  // ------------------------------------------------------ reading the history

  function Login(log: seq<Event>): Option<Credentials>
  {
    if log == [] then None
    else
      match log[|log| - 1]
      case LoggedIn(bearer, userId) => Some(Credentials(bearer, userId))
      case LoggedOut(_) => None
      case _ => Login(log[..|log| - 1])
  }

  /** The address in use: the last one delivered, unless the provider was asked anew or failed since. */
  function Address(log: seq<Event>): Option<nat>
  {
    if log == [] then None
    else
      match log[|log| - 1]
      case Delivered(token) => Some(token)
      case ProviderAsked => None
      case ProviderFailed => None
      case _ => Address(log[..|log| - 1])
  }

  /** What each account has muted, starting from what was in storage. */
  function Choices(stored: map<nat, set<nat>>, log: seq<Event>): map<nat, set<nat>>
  {
    if log == [] then stored
    else
      var before, event := Choices(stored, log[..|log| - 1]), log[|log| - 1];
      if event.Saved? then before[event.userId := event.muted] else before
  }

  /** A trailing send is armed, and has neither fired nor been cancelled by a sign-out. */
  predicate TimerRuns(log: seq<Event>)
  {
    log != [] &&
    var event := log[|log| - 1];
    event.Armed? || (!event.Fired? && !event.LoggedOut? && TimerRuns(log[..|log| - 1]))
  }

  /** How many sign-outs, provider requests and provider failures there were. */
  function Disturbances(log: seq<Event>): nat
  {
    if log == [] then 0
    else Disturbances(log[..|log| - 1]) + if Disturbs(log[|log| - 1]) then 1 else 0
  }

  function LastUpload(log: seq<Event>): Option<Upload>
  {
    if log == [] then None
    else
      var before, event := log[..|log| - 1], log[|log| - 1];
      if event.Sent? then Some(Upload(event.key, event.bearer, Disturbances(before))) else LastUpload(before)
  }

  /** The login an upload was sent for is still there, and nothing disturbed since. */
  predicate Counts(log: seq<Event>, bearer: nat)
  {
    Login(log).Some? && Login(log).value.token == bearer && Undisturbed(log)
  }

  /** What the settings row shows, apart from whether the want has moved on. */
  function Mood(log: seq<Event>): Status
  {
    if log == [] then Pending
    else
      var before, event := log[..|log| - 1], log[|log| - 1];
      if event.Sent? || event.ProviderAsked? || event.LoggedOut? then Pending
      else if event.ProviderFailed? || event.Faulted? then Failed
      else if event.Settled? && Counts(before, event.bearer) then
        if event.outcome != Accepted then Failed else if event.stillWanted then Registered else Mood(before)
      else Mood(before)
  }

  /** The signed-in user, the address in use, and what that user has muted. */
  function Want(stored: map<nat, set<nat>>, log: seq<Event>): Option<Key>
  {
    if Login(log).None? || Address(log).None? then None
    else
      var userId, choices := Login(log).value.userId, Choices(stored, log);
      Some(Key(userId, Address(log).value, if userId in choices then choices[userId] else {}))
  }

  // ------------------------------------------------------- what it decides

  /** The history, and the activations that wait. */
  datatype History = History(log: seq<Event>, attempts: multiset<Attempt>, errands: multiset<Errand>)

  function Asks(log: seq<Event>): seq<Event>
  {
    if AskPending(log) then [] else [ProviderAsked]
  }

  /** What is wanted goes out, unless something is on the wire or the server is known to hold it. */
  function Sends(stored: map<nat, set<nat>>, log: seq<Event>): seq<Event>
  {
    var want := Want(stored, log);
    if OnTheWire(log) || want.None? || want == Standing(log) then []
    else [Sent(want.value, Login(log).value.token)]
  }

  function Registers(stored: map<nat, set<nat>>, log: seq<Event>, renew: bool): seq<Event>
  {
    if renew || Address(log).None? then Asks(log) else Sends(stored, log)
  }

  function Enters(stored: map<nat, set<nat>>, log: seq<Event>, login: Credentials, renew: bool): seq<Event>
  {
    var event := LoggedIn(login.token, login.userId);
    [event] + Registers(stored, log + [event], renew)
  }

  /** What the step answers is really waiting. */
  predicate Waits(h: History, step: Step)
  {
    match step
    case ScheduledFires => TimerRuns(h.log)
    case AttemptCredentials(attempt, _) =>
      attempt in h.attempts && (attempt.EnsureCredentials? || attempt.GrantCredentials?)
    case AttemptPermission(attempt, _) =>
      attempt in h.attempts && (attempt.EnsurePermission? || attempt.GrantPermission?)
    case ErrandCredentials(errand, _) => errand in h.errands && (errand.ResumeCredentials? || errand.MutedUser?)
    case ResumeChecked(_, _) => ResumePermission in h.errands
    case ProviderCallSettles(_) => ProviderCall in h.errands
    case ProviderTimesOut => AskPending(h.log)
    case UploadSettles(upload, _) => OnTheWire(h.log) && LastUpload(h.log) == Some(upload)
    case _ => true
  }

  predicate RepairIsDue(log: seq<Event>, now: int)
  {
    !AskPending(log) && (LastRepair(log).Some? ==> now - LastRepair(log).value >= FIFTEEN_MINUTES_MS)
  }

  /** An attempt has its credentials: it enters at once where permission is known, and else asks for it. */
  function ShowsCredentials(stored: map<nat, set<nat>>, log: seq<Event>, attempt: Attempt,
                            answer: Answer<Option<Credentials>>): seq<Event>
  {
    if answer.Threw? then [Faulted]
    else if answer.value.None? then [Declined]
    else if attempt.GrantCredentials? then
      if attempt.known then Enters(stored, log, answer.value.value, attempt.refresh) else []
    else [LoggedIn(answer.value.value.token, answer.value.value.userId)]
  }

  function ShowsPermission(stored: map<nat, set<nat>>, log: seq<Event>, attempt: Attempt, answer: Answer<bool>)
    : seq<Event>
  {
    if answer.Threw? then [Faulted]
    else if !answer.value then [Declined]
    else if attempt.GrantPermission? then Enters(stored, log, attempt.credentials, attempt.refresh)
    else Registers(stored, log, false)
  }

  function ShowsErrand(errand: Errand, answer: Answer<Option<Credentials>>): seq<Event>
  {
    if answer.Threw? then if errand.ResumeCredentials? then [Faulted] else []
    else if errand.MutedUser? && answer.value.Some? then [Saved(answer.value.value.userId, errand.muted)] + [Armed]
    else []
  }

  function ShowsCheck(log: seq<Event>, answer: Answer<bool>, now: int): seq<Event>
  {
    if answer.Threw? then [Faulted]
    else if answer.value && RepairIsDue(log, now) then [Repairs(now)] + [Began]
    else []
  }

  function ShowsFire(stored: map<nat, set<nat>>, log: seq<Event>): seq<Event>
  {
    if Want(stored, log).Some? && Want(stored, log) == Standing(log) then [Fired] else [Fired] + [Began]
  }

  function ShowsSignOut(log: seq<Event>): seq<Event>
  {
    [LoggedOut(if Login(log).Some? && LastDelivered(log).Some?
               then Some((Login(log).value.token, LastDelivered(log).value)) else None)]
  }

  function ShowsSettle(stored: map<nat, set<nat>>, log: seq<Event>, upload: Upload, outcome: UploadOutcome): seq<Event>
  {
    var want := Want(stored, log);
    [Settled(upload.key, upload.bearer, outcome, want == Some(upload.key))]
    + if want.Some? && (want != Some(upload.key) || !Counts(log, upload.bearer)) then [Armed] else []
  }

  function Shows(stored: map<nat, set<nat>>, log: seq<Event>, step: Step): seq<Event>
  {
    match step
    case SignedIn => [Began]
    case Retry => [Began]
    case PermissionGranted => [Began]
    case SystemResumed => []
    case SetMuted(_) => []
    case SignedOut => ShowsSignOut(log)
    case ScheduledFires => ShowsFire(stored, log)
    case AttemptCredentials(attempt, answer) => ShowsCredentials(stored, log, attempt, answer)
    case AttemptPermission(attempt, answer) => ShowsPermission(stored, log, attempt, answer)
    case ErrandCredentials(errand, answer) => ShowsErrand(errand, answer)
    case ResumeChecked(answer, now) => ShowsCheck(log, answer, now)
    case ProviderCallSettles(ok) => if ok then [] else [ProviderFailed]
    case ProviderTimesOut => [ProviderFailed]
    case ProviderErrors => [ProviderFailed]
    case TokenDelivered(token) => [Delivered(token)] + Sends(stored, log + [Delivered(token)])
    case UploadSettles(upload, outcome) => ShowsSettle(stored, log, upload, outcome)
  }

  /** What an attempt with its credentials waits for next, if anything. */
  function Further(attempt: Attempt, answer: Answer<Option<Credentials>>): multiset<Attempt>
  {
    if answer.Threw? || answer.value.None? then multiset{}
    else if attempt.EnsureCredentials? then multiset{EnsurePermission}
    else if attempt.GrantCredentials? && !attempt.known
    then multiset{GrantPermission(attempt.refresh, answer.value.value)}
    else multiset{}
  }

  /** The attempts that wait after the step: one that begins asks for credentials, then for permission if need be. */
  function AttemptsAfter(h: History, step: Step, shown: seq<Event>): multiset<Attempt>
  {
    match step
    case SignedIn => h.attempts + multiset{EnsureCredentials}
    case Retry => h.attempts + multiset{GrantCredentials(false, true)}
    case PermissionGranted => h.attempts + multiset{GrantCredentials(true, true)}
    case ScheduledFires => if |shown| == 2 then h.attempts + multiset{GrantCredentials(false, false)} else h.attempts
    case ResumeChecked(_, _) => if |shown| == 2 then h.attempts + multiset{GrantCredentials(true, true)} else h.attempts
    case AttemptCredentials(attempt, answer) => h.attempts - multiset{attempt} + Further(attempt, answer)
    case AttemptPermission(attempt, _) => h.attempts - multiset{attempt}
    case _ => h.attempts
  }

  /** The other activations: a resume checks credentials, then permission; a provider call is out once it is asked. */
  function ErrandsAfter(h: History, step: Step, shown: seq<Event>): multiset<Errand>
  {
    var errands :=
      match step
      case SystemResumed => h.errands + multiset{ResumeCredentials}
      case SetMuted(muted) => h.errands + multiset{MutedUser(muted)}
      case ErrandCredentials(errand, answer) =>
        if errand.ResumeCredentials? && answer.Came? && answer.value.Some?
        then h.errands - multiset{errand} + multiset{ResumePermission} else h.errands - multiset{errand}
      case ResumeChecked(_, _) => h.errands - multiset{ResumePermission}
      case ProviderCallSettles(_) => h.errands - multiset{ProviderCall}
      case _ => h.errands;
    if ProviderAsked in shown then errands + multiset{ProviderCall} else errands
  }

  function Next(stored: map<nat, set<nat>>, h: History, step: Step): History
  {
    if !Waits(h, step) then h
    else
      var shown := Shows(stored, h.log, step);
      History(h.log + shown, AttemptsAfter(h, step, shown), ErrandsAfter(h, step, shown))
  }

  function Story(stored: map<nat, set<nat>>, run: seq<Step>): History
  {
    if run == [] then History([], multiset{EnsureCredentials}, multiset{})
    else Next(stored, Story(stored, run[..|run| - 1]), run[|run| - 1])
  }

  // --------------------------------------------------- the code's fields, told

  /** The phone a history leaves, activations aside: every field is an answer to a question about it. */
  function Told(stored: map<nat, set<nat>>, log: seq<Event>): Phone
  {
    var login := Login(log);
    Phone(Mood(log), AskPending(log), Disturbances(log), LastRepair(log), Address(log), LastDelivered(log),
          if login.Some? then Some(login.value.token) else None,
          if login.Some? then Some(login.value.userId) else None,
          Standing(log), OnTheWire(log), TimerRuns(log), Choices(stored, log),
          if OnTheWire(log) && LastUpload(log).Some? then multiset{LastUpload(log).value} else multiset{},
          multiset{}, multiset{})
  }

  /** The phone's fields are what the history says. */
  ghost predicate Fits(p: Phone, stored: map<nat, set<nat>>, log: seq<Event>)
  {
    p.(attempts := multiset{}, errands := multiset{}) == Told(stored, log)
  }

  lemma {:induction false} Grows(stored: map<nat, set<nat>>, log: seq<Event>, event: Event)
    ensures var after := log + [event];
      && Login(after) == (if event.LoggedIn? then Some(Credentials(event.bearer, event.userId))
                          else if event.LoggedOut? then None else Login(log))
      && Address(after) == (if event.Delivered? then Some(event.token)
                            else if event.ProviderAsked? || event.ProviderFailed? then None else Address(log))
      && Choices(stored, after)
           == (if event.Saved? then Choices(stored, log)[event.userId := event.muted] else Choices(stored, log))
      && TimerRuns(after) == (event.Armed? || (!event.Fired? && !event.LoggedOut? && TimerRuns(log)))
      && Disturbances(after) == Disturbances(log) + (if Disturbs(event) then 1 else 0)
      && LastUpload(after)
           == (if event.Sent? then Some(Upload(event.key, event.bearer, Disturbances(log))) else LastUpload(log))
  {
    assert (log + [event])[..|log|] == log;
  }

  lemma {:induction false} MoodGrows(log: seq<Event>, event: Event)
    ensures Mood(log + [event])
         == if event.Sent? || event.ProviderAsked? || event.LoggedOut? then Pending
            else if event.ProviderFailed? || event.Faulted? then Failed
            else if event.Settled? && Counts(log, event.bearer) then
              if event.outcome != Accepted then Failed else if event.stillWanted then Registered else Mood(log)
            else Mood(log)
  {
    assert (log + [event])[..|log|] == log;
  }

  lemma {:induction false} BearerIsLogin(log: seq<Event>)
    ensures Bearer(log) == if Login(log).Some? then Some(Login(log).value.token) else None
  {
    if log != [] { BearerIsLogin(log[..|log| - 1]); }
  }

  /** An upload that is out is current by its number exactly when nothing disturbed since it left. */
  lemma {:induction false} NumberIsUndisturbed(log: seq<Event>)
    requires OnTheWire(log)
    ensures LastUpload(log).Some? && LastUpload(log).value.revision <= Disturbances(log)
    ensures LastUpload(log).value.revision == Disturbances(log) <==> Undisturbed(log)
  {
    var n := |log| - 1;
    if !log[n].Sent? { NumberIsUndisturbed(log[..n]); }
  }

  // --------------------------------------------------------- event by event

  /** What an event other than a settle does to the fields. */
  function Effect(p: Phone, event: Event): Phone
    requires !event.Settled?
  {
    match event
    case Sent(key, bearer) =>
      p.(status := Pending, lastRegisteredKey := None, registrationInFlight := true,
         uploads := multiset{Upload(key, bearer, p.registrationRevision)})
    case LoggedIn(bearer, userId) => p.(bearerToken := Some(bearer), userId := Some(userId))
    case LoggedOut(_) =>
      p.(status := Pending, registrationRevision := p.registrationRevision + 1, providerTimer := false,
         lastResumeRevalidationAt := None, bearerToken := None, userId := None, lastRegisteredKey := None,
         scheduledTimer := false)
    case ProviderAsked =>
      p.(status := Pending, registrationRevision := p.registrationRevision + 1, providerTimer := true,
         deviceToken := None, lastRegisteredKey := None)
    case ProviderFailed =>
      p.(status := Failed, registrationRevision := p.registrationRevision + 1, providerTimer := false,
         deviceToken := None, lastRegisteredKey := None)
    case Delivered(token) => p.(providerTimer := false, deviceToken := Some(token), cleanupToken := Some(token))
    case Repairs(now) => p.(lastResumeRevalidationAt := Some(now))
    case Saved(userId, muted) => p.(stored := p.stored[userId := muted])
    case Armed => p.(scheduledTimer := true)
    case Fired => p.(scheduledTimer := false)
    case Faulted => p.(status := Failed)
    case Began => p
    case Declined => p
  }

  lemma {:induction false} FitsSent(p: Phone, stored: map<nat, set<nat>>, log: seq<Event>, key: Key, bearer: nat)
    requires Fits(p, stored, log)
    ensures Fits(Effect(p, Sent(key, bearer)), stored, log + [Sent(key, bearer)]) == true
  {
    var event := Sent(key, bearer);
    Append(log, event);
    Appended(log, event);
    Grows(stored, log, event);
    MoodGrows(log, event);
  }

  lemma {:induction false} FitsDisturbed(p: Phone, stored: map<nat, set<nat>>, log: seq<Event>, event: Event)
    requires Fits(p, stored, log) && Disturbs(event)
    ensures Fits(Effect(p, event), stored, log + [event]) == true
  {
    Append(log, event);
    Appended(log, event);
    Grows(stored, log, event);
    MoodGrows(log, event);
  }

  lemma {:induction false} FitsTold(p: Phone, stored: map<nat, set<nat>>, log: seq<Event>, event: Event)
    requires Fits(p, stored, log) && (event.LoggedIn? || event.Delivered? || event.Saved?)
    ensures Fits(Effect(p, event), stored, log + [event]) == true
  {
    Append(log, event);
    Appended(log, event);
    Grows(stored, log, event);
    MoodGrows(log, event);
  }

  lemma {:induction false} FitsTimed(p: Phone, stored: map<nat, set<nat>>, log: seq<Event>, event: Event)
    requires Fits(p, stored, log) && (event.Repairs? || event.Armed? || event.Fired?)
    ensures Fits(Effect(p, event), stored, log + [event]) == true
  {
    Append(log, event);
    Appended(log, event);
    Grows(stored, log, event);
    MoodGrows(log, event);
  }

  lemma {:induction false} FitsTried(p: Phone, stored: map<nat, set<nat>>, log: seq<Event>, event: Event)
    requires Fits(p, stored, log) && (event.Began? || event.Declined? || event.Faulted?)
    ensures Fits(Effect(p, event), stored, log + [event]) == true
  {
    Append(log, event);
    Appended(log, event);
    Grows(stored, log, event);
    MoodGrows(log, event);
  }

  lemma FitsOne(p: Phone, stored: map<nat, set<nat>>, log: seq<Event>, event: Event)
    requires Fits(p, stored, log) == true && !event.Settled?
    ensures Fits(Effect(p, event), stored, log + [event]) == true
  {
    if event.Sent? {
      FitsSent(p, stored, log, event.key, event.bearer);
    } else if Disturbs(event) {
      FitsDisturbed(p, stored, log, event);
    } else if event.LoggedIn? || event.Delivered? || event.Saved? {
      FitsTold(p, stored, log, event);
    } else if event.Repairs? || event.Armed? || event.Fired? {
      FitsTimed(p, stored, log, event);
    } else {
      FitsTried(p, stored, log, event);
    }
  }

  /** What the history says of a phone that fits it. */
  lemma {:induction false} FitsSays(p: Phone, stored: map<nat, set<nat>>, log: seq<Event>)
    requires Fits(p, stored, log) == true
    ensures p.providerTimer == AskPending(log) && p.lastResumeRevalidationAt == LastRepair(log)
    ensures p.registrationInFlight == OnTheWire(log) && p.lastRegisteredKey == Standing(log)
    ensures p.deviceToken == Address(log) && p.cleanupToken == LastDelivered(log)
    ensures p.bearerToken == if Login(log).Some? then Some(Login(log).value.token) else None
    ensures p.userId == if Login(log).Some? then Some(Login(log).value.userId) else None
    ensures Wanted(p) == Want(stored, log) && p.scheduledTimer == TimerRuns(log)
    ensures p.registrationRevision == Disturbances(log)
    ensures p.uploads == if OnTheWire(log) && LastUpload(log).Some? then multiset{LastUpload(log).value} else multiset{}
  {
  }

  /** The reaction shows `shown`, fits what the history then says, and leaves activations but for a provider call. */
  ghost predicate Follows(p: Phone, stored: map<nat, set<nat>>, log: seq<Event>, shown: seq<Event>, reaction: Reaction)
  {
    && reaction.1 == shown && Fits(reaction.0, stored, log + shown) == true
    && reaction.0.attempts == p.attempts
    && reaction.0.errands == if ProviderAsked in shown then p.errands + multiset{ProviderCall} else p.errands
  }

  lemma NothingFollows(p: Phone, stored: map<nat, set<nat>>, log: seq<Event>)
    requires Fits(p, stored, log) == true
    ensures Follows(p, stored, log, [], (p, [])) == true
  {
    assert log + [] == log;
  }

  lemma AsksFollow(p: Phone, stored: map<nat, set<nat>>, log: seq<Event>)
    requires Fits(p, stored, log) == true
    ensures Follows(p, stored, log, Asks(log), RegisterWithProvider(p)) == true
  {
    FitsSays(p, stored, log);
    NothingFollows(p, stored, log);
    FitsOne(p, stored, log, ProviderAsked);
    var errands := p.errands + multiset{ProviderCall};
    ErrandsAside(Effect(p, ProviderAsked), stored, log + [ProviderAsked], p.attempts, errands);
  }

  lemma ErrandsAside(p: Phone, stored: map<nat, set<nat>>, log: seq<Event>, attempts: multiset<Attempt>,
                     errands: multiset<Errand>)
    requires Fits(p, stored, log) == true
    ensures Fits(p.(attempts := attempts, errands := errands), stored, log) == true
  {
  }

  /** What the code sends it sends whole: the wanted key, for the login. */
  lemma SendTakes(p: Phone)
    requires !p.registrationInFlight ==> p.uploads == multiset{}
    ensures var want := Wanted(p);
      RegisterCurrentToken(p)
        == if p.registrationInFlight || want.None? || p.bearerToken.None? || want == p.lastRegisteredKey then (p, [])
           else (Effect(p, Sent(want.value, p.bearerToken.value)), [Sent(want.value, p.bearerToken.value)])
  {
    if Wanted(p).Some? && p.bearerToken.Some? && !p.registrationInFlight {
      var upload := Upload(Wanted(p).value, p.bearerToken.value, p.registrationRevision);
      assert p.uploads + multiset{upload} == multiset{upload};
    }
  }

  lemma SendsFollow(p: Phone, stored: map<nat, set<nat>>, log: seq<Event>)
    requires Fits(p, stored, log) == true
    ensures Follows(p, stored, log, Sends(stored, log), RegisterCurrentToken(p)) == true
  {
    FitsSays(p, stored, log);
    SendTakes(p);
    if Sends(stored, log) == [] {
      NothingFollows(p, stored, log);
    } else {
      FitsOne(p, stored, log, Sent(Want(stored, log).value, Login(log).value.token));
    }
  }

  lemma RegistersFollow(p: Phone, stored: map<nat, set<nat>>, log: seq<Event>, renew: bool)
    requires Fits(p, stored, log) == true
    ensures Follows(p, stored, log, Registers(stored, log, renew), Register(p, renew)) == true
  {
    FitsSays(p, stored, log);
    AsksFollow(p, stored, log);
    SendsFollow(p, stored, log);
  }

  /** An event first, then the rest. */
  lemma FollowsAfter(p: Phone, stored: map<nat, set<nat>>, log: seq<Event>, event: Event, next: Phone,
                     shown: seq<Event>, reaction: Reaction)
    requires event != ProviderAsked && Follows(next, stored, log + [event], shown, reaction) == true
    requires next.attempts == p.attempts && next.errands == p.errands
    ensures Follows(p, stored, log, [event] + shown, (reaction.0, [event] + reaction.1)) == true
  {
    assert log + ([event] + shown) == log + [event] + shown;
  }

  lemma EntersFollow(p: Phone, stored: map<nat, set<nat>>, log: seq<Event>, login: Credentials, renew: bool)
    requires Fits(p, stored, log) == true
    ensures Follows(p, stored, log, Enters(stored, log, login, renew), LogInAndRegister(p, login, renew)) == true
  {
    var event := LoggedIn(login.token, login.userId);
    FitsOne(p, stored, log, event);
    RegistersFollow(LogIn(p, login), stored, log + [event], renew);
    FollowsAfter(p, stored, log, event, LogIn(p, login), Registers(stored, log + [event], renew),
                 Register(LogIn(p, login), renew));
  }

  lemma OneFollows(p: Phone, stored: map<nat, set<nat>>, log: seq<Event>, event: Event)
    requires Fits(p, stored, log) == true && !event.Settled? && event != ProviderAsked
    ensures Follows(p, stored, log, [event], (Effect(p, event), [event])) == true
  {
    FitsOne(p, stored, log, event);
  }

  lemma TwoFollow(p: Phone, stored: map<nat, set<nat>>, log: seq<Event>, first: Event, second: Event)
    requires Fits(p, stored, log) == true && !first.Settled? && !second.Settled?
    requires first != ProviderAsked && second != ProviderAsked
    ensures Follows(p, stored, log, [first] + [second], (Effect(Effect(p, first), second), [first] + [second])) == true
  {
    FitsOne(p, stored, log, first);
    OneFollows(Effect(p, first), stored, log + [first], second);
    FollowsAfter(p, stored, log, first, Effect(p, first), [second], (Effect(Effect(p, first), second), [second]));
  }

  // ---------------------------------------------------------- step by step

  /** The phone is what the history leaves. */
  ghost predicate Is(p: Phone, stored: map<nat, set<nat>>, h: History)
  {
    Fits(p, stored, h.log) == true && p.attempts == h.attempts && p.errands == h.errands
  }

  /** The code's reaction is the history's next page. */
  ghost predicate Agrees(stored: map<nat, set<nat>>, h: History, step: Step, reaction: Reaction)
  {
    Is(reaction.0, stored, Next(stored, h, step)) && Next(stored, h, step).log == h.log + reaction.1
  }

  lemma UnaskedAgrees(p: Phone, stored: map<nat, set<nat>>, h: History, step: Step)
    requires Is(p, stored, h) && !Waits(h, step)
    ensures Agrees(stored, h, step, (p, [])) == true
  {
    assert h.log + [] == h.log;
  }

  lemma ShownAgrees(stored: map<nat, set<nat>>, h: History, step: Step, reaction: Reaction)
    requires Waits(h, step) && reaction.1 == Shows(stored, h.log, step)
    requires Fits(reaction.0, stored, h.log + reaction.1) == true
    requires reaction.0.attempts == AttemptsAfter(h, step, reaction.1)
    requires reaction.0.errands == ErrandsAfter(h, step, reaction.1)
    ensures Agrees(stored, h, step, reaction) == true
  {
  }

  lemma BeganFits(p: Phone, stored: map<nat, set<nat>>, log: seq<Event>, attempt: Attempt)
    requires Fits(p, stored, log) == true
    ensures Fits(Begin(p, attempt).0, stored, log + [Began]) == true
  {
    FitsOne(p, stored, log, Began);
    ErrandsAside(p, stored, log + [Began], p.attempts + multiset{attempt}, p.errands);
  }

  lemma SignInAgrees(p: Phone, stored: map<nat, set<nat>>, h: History)
    requires Is(p, stored, h)
    ensures Agrees(stored, h, SignedIn, Begin(p, EnsureCredentials)) == true
  {
    BeganFits(p, stored, h.log, EnsureCredentials);
  }

  lemma RetryAgrees(p: Phone, stored: map<nat, set<nat>>, h: History)
    requires Is(p, stored, h)
    ensures Agrees(stored, h, Retry, Begin(p, GrantCredentials(false, true))) == true
  {
    BeganFits(p, stored, h.log, GrantCredentials(false, true));
  }

  lemma GrantAgrees(p: Phone, stored: map<nat, set<nat>>, h: History)
    requires Is(p, stored, h)
    ensures Agrees(stored, h, PermissionGranted, Begin(p, GrantCredentials(true, true))) == true
  {
    BeganFits(p, stored, h.log, GrantCredentials(true, true));
  }

  lemma WithErrand(p: Phone, stored: map<nat, set<nat>>, log: seq<Event>, errands: multiset<Errand>)
    requires Fits(p, stored, log) == true
    ensures Fits(p.(errands := errands), stored, log + []) == true
  {
    assert log + [] == log;
  }

  lemma SystemResumeAgrees(p: Phone, stored: map<nat, set<nat>>, h: History)
    requires Is(p, stored, h)
    ensures Agrees(stored, h, SystemResumed, (p.(errands := p.errands + multiset{ResumeCredentials}), [])) == true
  {
    WithErrand(p, stored, h.log, p.errands + multiset{ResumeCredentials});
    ShownAgrees(stored, h, SystemResumed, (p.(errands := p.errands + multiset{ResumeCredentials}), []));
  }

  lemma SetMutedAgrees(p: Phone, stored: map<nat, set<nat>>, h: History, muted: set<nat>)
    requires Is(p, stored, h)
    ensures Agrees(stored, h, SetMuted(muted), (p.(errands := p.errands + multiset{MutedUser(muted)}), [])) == true
  {
    WithErrand(p, stored, h.log, p.errands + multiset{MutedUser(muted)});
    ShownAgrees(stored, h, SetMuted(muted), (p.(errands := p.errands + multiset{MutedUser(muted)}), []));
  }

  lemma SigningOutAgrees(p: Phone, stored: map<nat, set<nat>>, h: History)
    requires Is(p, stored, h)
    ensures Agrees(stored, h, SignedOut, OnSignedOut(p)) == true
  {
    FitsSays(p, stored, h.log);
    FitsOne(p, stored, h.log, OnSignedOut(p).1[0]);
  }

  /** An event, and an attempt that begins with it. */
  lemma BeganAfter(p: Phone, stored: map<nat, set<nat>>, log: seq<Event>, event: Event, attempt: Attempt)
    requires Fits(p, stored, log) == true && !event.Settled?
    ensures Fits(Begin(Effect(p, event), attempt).0, stored, log + ([event] + [Began])) == true
  {
    FitsOne(p, stored, log, event);
    BeganFits(Effect(p, event), stored, log + [event], attempt);
    assert log + ([event] + [Began]) == log + [event] + [Began];
  }

  lemma FiringIdlyAgrees(p: Phone, stored: map<nat, set<nat>>, h: History)
    requires Is(p, stored, h) && TimerRuns(h.log) && Want(stored, h.log).Some?
    requires Want(stored, h.log) == Standing(h.log)
    ensures Agrees(stored, h, ScheduledFires, (p.(scheduledTimer := false), [Fired])) == true
  {
    FitsOne(p, stored, h.log, Fired);
    assert [Fired] + [] == [Fired] && Began !in [Fired];
    ShownAgrees(stored, h, ScheduledFires, (p.(scheduledTimer := false), [Fired]));
  }

  lemma FiringSendsAgrees(p: Phone, stored: map<nat, set<nat>>, h: History)
    requires Is(p, stored, h) && TimerRuns(h.log)
    requires Want(stored, h.log).None? || Want(stored, h.log) != Standing(h.log)
    ensures var begun := Begin(p.(scheduledTimer := false), GrantCredentials(false, false));
      Agrees(stored, h, ScheduledFires, (begun.0, [Fired] + [Began])) == true
  {
    var begun := Begin(p.(scheduledTimer := false), GrantCredentials(false, false));
    BeganAfter(p, stored, h.log, Fired, GrantCredentials(false, false));
    assert ([Fired] + [Began])[1] == Began;
    ShownAgrees(stored, h, ScheduledFires, (begun.0, [Fired] + [Began]));
  }

  lemma FiringAgrees(p: Phone, stored: map<nat, set<nat>>, h: History)
    requires Is(p, stored, h)
    ensures Agrees(stored, h, ScheduledFires, OnScheduledFires(p)) == true
  {
    FitsSays(p, stored, h.log);
    if !TimerRuns(h.log) {
      UnaskedAgrees(p, stored, h, ScheduledFires);
    } else if Wanted(p).Some? && Wanted(p) == p.lastRegisteredKey {
      FiringIdlyAgrees(p, stored, h);
    } else {
      FiringSendsAgrees(p, stored, h);
    }
  }

  lemma DeliveryAgrees(p: Phone, stored: map<nat, set<nat>>, h: History, token: nat)
    requires Is(p, stored, h)
    ensures Agrees(stored, h, TokenDelivered(token), OnTokenDelivered(p, token)) == true
  {
    var event, held := Delivered(token), Effect(p, Delivered(token));
    FitsOne(p, stored, h.log, event);
    SendsFollow(held, stored, h.log + [event]);
    FollowsAfter(p, stored, h.log, event, held, Sends(stored, h.log + [event]), RegisterCurrentToken(held));
    ShownAgrees(stored, h, TokenDelivered(token), OnTokenDelivered(p, token));
  }

  lemma ProviderAgrees(p: Phone, stored: map<nat, set<nat>>, h: History, step: Step)
    requires Is(p, stored, h) && (step.ProviderTimesOut? || step.ProviderErrors?)
    ensures Agrees(stored, h, step, Take(p, step)) == true
  {
    FitsSays(p, stored, h.log);
    FitsOne(p, stored, h.log, ProviderFailed);
    if !Waits(h, step) { UnaskedAgrees(p, stored, h, step); } else { ShownAgrees(stored, h, step, FailProvider(p)); }
  }

  lemma ProviderCallAgrees(p: Phone, stored: map<nat, set<nat>>, h: History, ok: bool)
    requires Is(p, stored, h)
    ensures Agrees(stored, h, ProviderCallSettles(ok), Take(p, ProviderCallSettles(ok))) == true
  {
    var step := ProviderCallSettles(ok);
    if !Waits(h, step) {
      UnaskedAgrees(p, stored, h, step);
    } else {
      var left := p.(errands := p.errands - multiset{ProviderCall});
      ErrandsAside(p, stored, h.log, p.attempts, left.errands);
      FitsOne(left, stored, h.log, ProviderFailed);
      assert h.log + [] == h.log;
      ShownAgrees(stored, h, step, Take(p, step));
    }
  }

  lemma ResumeThrowsAgrees(p: Phone, stored: map<nat, set<nat>>, h: History, now: int)
    requires Is(p, stored, h) && ResumePermission in h.errands
    ensures Agrees(stored, h, ResumeChecked(Threw, now), OnResumeChecked(p, Threw, now)) == true
  {
    var left := p.(errands := p.errands - multiset{ResumePermission});
    ErrandsAside(p, stored, h.log, p.attempts, left.errands);
    FitsOne(left, stored, h.log, Faulted);
    ShownAgrees(stored, h, ResumeChecked(Threw, now), (Effect(left, Faulted), [Faulted]));
  }

  lemma {:induction false} RepairTakes(p: Phone, log: seq<Event>, now: int)
    requires ResumePermission in p.errands && RepairIsDue(log, now)
    requires p.providerTimer == AskPending(log) && p.lastResumeRevalidationAt == LastRepair(log)
    ensures var left := p.(errands := p.errands - multiset{ResumePermission});
      OnResumeChecked(p, Came(true), now)
        == (Begin(Effect(left, Repairs(now)), GrantCredentials(true, true)).0, [Repairs(now)] + [Began])
  {
  }

  lemma ResumeRepairsAgrees(p: Phone, stored: map<nat, set<nat>>, h: History, now: int)
    requires Is(p, stored, h) && ResumePermission in h.errands && RepairIsDue(h.log, now)
    ensures Agrees(stored, h, ResumeChecked(Came(true), now), OnResumeChecked(p, Came(true), now)) == true
  {
    var left := p.(errands := p.errands - multiset{ResumePermission});
    FitsSays(p, stored, h.log);
    RepairTakes(p, h.log, now);
    ErrandsAside(p, stored, h.log, p.attempts, left.errands);
    BeganAfter(left, stored, h.log, Repairs(now), GrantCredentials(true, true));
    assert ProviderAsked !in [Repairs(now)] + [Began];
    ShownAgrees(stored, h, ResumeChecked(Came(true), now),
                (Begin(Effect(left, Repairs(now)), GrantCredentials(true, true)).0, [Repairs(now)] + [Began]));
  }

  lemma ResumeIdlesAgrees(p: Phone, stored: map<nat, set<nat>>, h: History, granted: bool, now: int)
    requires Is(p, stored, h) && ResumePermission in h.errands && !(granted && RepairIsDue(h.log, now))
    ensures Agrees(stored, h, ResumeChecked(Came(granted), now), OnResumeChecked(p, Came(granted), now)) == true
  {
    var left := p.(errands := p.errands - multiset{ResumePermission});
    FitsSays(p, stored, h.log);
    ErrandsAside(p, stored, h.log, p.attempts, left.errands);
    assert h.log + [] == h.log;
    ShownAgrees(stored, h, ResumeChecked(Came(granted), now), (left, []));
  }

  lemma ResumeCheckAgrees(p: Phone, stored: map<nat, set<nat>>, h: History, answer: Answer<bool>, now: int)
    requires Is(p, stored, h)
    ensures Agrees(stored, h, ResumeChecked(answer, now), OnResumeChecked(p, answer, now)) == true
  {
    if ResumePermission !in h.errands {
      UnaskedAgrees(p, stored, h, ResumeChecked(answer, now));
    } else if answer.Threw? {
      ResumeThrowsAgrees(p, stored, h, now);
    } else if answer.value && RepairIsDue(h.log, now) {
      ResumeRepairsAgrees(p, stored, h, now);
    } else {
      ResumeIdlesAgrees(p, stored, h, answer.value, now);
    }
  }

  /** What the credentials of an attempt that is no longer counted do. */
  function CredentialsTake(p: Phone, attempt: Attempt, answer: Answer<Option<Credentials>>): Reaction
    requires attempt.EnsureCredentials? || attempt.GrantCredentials?
  {
    if answer.Threw? then (Effect(p, Faulted), [Faulted])
    else if answer.value.None? then (p, [Declined])
    else if attempt.EnsureCredentials? then
      (LogIn(p, answer.value.value), [LoggedIn(answer.value.value.token, answer.value.value.userId)])
    else if attempt.known then LogInAndRegister(p, answer.value.value, attempt.refresh)
    else (p, [])
  }

  lemma AttemptCredentialsTakes(p: Phone, attempt: Attempt, answer: Answer<Option<Credentials>>)
    requires attempt in p.attempts && (attempt.EnsureCredentials? || attempt.GrantCredentials?)
    ensures var left := p.(attempts := p.attempts - multiset{attempt});
      var (next, shown) := CredentialsTake(left, attempt, answer);
      OnAttemptCredentials(p, attempt, answer)
        == (next.(attempts := next.attempts + Further(attempt, answer)), shown)
  {
    var left := p.(attempts := p.attempts - multiset{attempt});
    var next := CredentialsTake(left, attempt, answer).0;
    assert next.attempts + multiset{} == next.attempts;
  }

  lemma CredentialsFollow(p: Phone, stored: map<nat, set<nat>>, log: seq<Event>, attempt: Attempt,
                          answer: Answer<Option<Credentials>>)
    requires Fits(p, stored, log) == true && (attempt.EnsureCredentials? || attempt.GrantCredentials?)
    ensures Follows(p, stored, log, ShowsCredentials(stored, log, attempt, answer),
                    CredentialsTake(p, attempt, answer)) == true
  {
    if answer.Threw? {
      OneFollows(p, stored, log, Faulted);
    } else if answer.value.None? {
      OneFollows(p, stored, log, Declined);
    } else if attempt.EnsureCredentials? {
      OneFollows(p, stored, log, LoggedIn(answer.value.value.token, answer.value.value.userId));
    } else if attempt.known {
      EntersFollow(p, stored, log, answer.value.value, attempt.refresh);
    } else {
      NothingFollows(p, stored, log);
    }
  }

  lemma AttemptCredentialsAgrees(p: Phone, stored: map<nat, set<nat>>, h: History, attempt: Attempt,
                                 answer: Answer<Option<Credentials>>)
    requires Is(p, stored, h)
    ensures Agrees(stored, h, AttemptCredentials(attempt, answer), OnAttemptCredentials(p, attempt, answer)) == true
  {
    var step := AttemptCredentials(attempt, answer);
    if !Waits(h, step) {
      UnaskedAgrees(p, stored, h, step);
    } else {
      var left := p.(attempts := p.attempts - multiset{attempt});
      var (next, shown) := CredentialsTake(left, attempt, answer);
      ErrandsAside(p, stored, h.log, left.attempts, p.errands);
      CredentialsFollow(left, stored, h.log, attempt, answer);
      AttemptCredentialsTakes(p, attempt, answer);
      ErrandsAside(next, stored, h.log + shown, next.attempts + Further(attempt, answer), next.errands);
      ShownAgrees(stored, h, step, (next.(attempts := next.attempts + Further(attempt, answer)), shown));
    }
  }

  /** What the permission of an attempt that is no longer counted does. */
  function PermissionTake(p: Phone, attempt: Attempt, answer: Answer<bool>): Reaction
    requires attempt.EnsurePermission? || attempt.GrantPermission?
  {
    if answer.Threw? then (Effect(p, Faulted), [Faulted])
    else if !answer.value then (p, [Declined])
    else if attempt.EnsurePermission? then Register(p, false)
    else LogInAndRegister(p, attempt.credentials, attempt.refresh)
  }

  lemma PermissionFollows(p: Phone, stored: map<nat, set<nat>>, log: seq<Event>, attempt: Attempt, answer: Answer<bool>)
    requires Fits(p, stored, log) == true && (attempt.EnsurePermission? || attempt.GrantPermission?)
    ensures Follows(p, stored, log, ShowsPermission(stored, log, attempt, answer), PermissionTake(p, attempt, answer))
         == true
  {
    if answer.Threw? {
      OneFollows(p, stored, log, Faulted);
    } else if !answer.value {
      OneFollows(p, stored, log, Declined);
    } else if attempt.EnsurePermission? {
      RegistersFollow(p, stored, log, false);
    } else {
      EntersFollow(p, stored, log, attempt.credentials, attempt.refresh);
    }
  }

  lemma AttemptPermissionAgrees(p: Phone, stored: map<nat, set<nat>>, h: History, attempt: Attempt,
                                answer: Answer<bool>)
    requires Is(p, stored, h)
    ensures Agrees(stored, h, AttemptPermission(attempt, answer), OnAttemptPermission(p, attempt, answer)) == true
  {
    var step := AttemptPermission(attempt, answer);
    if !Waits(h, step) {
      UnaskedAgrees(p, stored, h, step);
    } else {
      var left := p.(attempts := p.attempts - multiset{attempt});
      ErrandsAside(p, stored, h.log, left.attempts, p.errands);
      PermissionFollows(left, stored, h.log, attempt, answer);
      ShownAgrees(stored, h, step, PermissionTake(left, attempt, answer));
    }
  }

  /** What an errand's credentials do to the fields, errands aside. */
  function ErrandEffect(p: Phone, errand: Errand, answer: Answer<Option<Credentials>>): Phone
    requires errand.ResumeCredentials? || errand.MutedUser?
  {
    if answer.Threw? then if errand.ResumeCredentials? then Effect(p, Faulted) else p
    else if errand.MutedUser? && answer.value.Some?
    then Effect(Effect(p, Saved(answer.value.value.userId, errand.muted)), Armed)
    else p
  }

  function ErrandsLeft(errands: multiset<Errand>, errand: Errand, answer: Answer<Option<Credentials>>): multiset<Errand>
  {
    if errand.ResumeCredentials? && answer.Came? && answer.value.Some?
    then errands - multiset{errand} + multiset{ResumePermission} else errands - multiset{errand}
  }

  lemma ErrandTakes(p: Phone, errand: Errand, answer: Answer<Option<Credentials>>)
    requires errand in p.errands && (errand.ResumeCredentials? || errand.MutedUser?)
    ensures OnErrandCredentials(p, errand, answer)
         == (ErrandEffect(p, errand, answer).(errands := ErrandsLeft(p.errands, errand, answer)),
             ShowsErrand(errand, answer))
  {
  }

  lemma ErrandFits(p: Phone, stored: map<nat, set<nat>>, log: seq<Event>, errand: Errand,
                   answer: Answer<Option<Credentials>>)
    requires Fits(p, stored, log) == true && (errand.ResumeCredentials? || errand.MutedUser?)
    ensures Fits(ErrandEffect(p, errand, answer), stored, log + ShowsErrand(errand, answer)) == true
    ensures ErrandEffect(p, errand, answer).attempts == p.attempts && ProviderAsked !in ShowsErrand(errand, answer)
  {
    if answer.Threw? && errand.ResumeCredentials? {
      FitsOne(p, stored, log, Faulted);
    } else if errand.MutedUser? && answer.Came? && answer.value.Some? {
      TwoFollow(p, stored, log, Saved(answer.value.value.userId, errand.muted), Armed);
    } else {
      NothingFollows(p, stored, log);
    }
  }

  lemma ErrandAgrees(p: Phone, stored: map<nat, set<nat>>, h: History, errand: Errand,
                     answer: Answer<Option<Credentials>>)
    requires Is(p, stored, h)
    ensures Agrees(stored, h, ErrandCredentials(errand, answer), OnErrandCredentials(p, errand, answer)) == true
  {
    var step := ErrandCredentials(errand, answer);
    if !Waits(h, step) {
      UnaskedAgrees(p, stored, h, step);
    } else {
      var next, shown := ErrandEffect(p, errand, answer), ShowsErrand(errand, answer);
      ErrandTakes(p, errand, answer);
      ErrandFits(p, stored, h.log, errand, answer);
      ErrandsAside(next, stored, h.log + shown, next.attempts, ErrandsLeft(p.errands, errand, answer));
      ShownAgrees(stored, h, step, (next.(errands := ErrandsLeft(p.errands, errand, answer)), shown));
    }
  }

  /** The upload that is out has landed; what is recorded is what the history then says. */
  lemma {:induction false} SettledFits(p: Phone, stored: map<nat, set<nat>>, log: seq<Event>, upload: Upload,
                                       outcome: UploadOutcome)
    requires Fits(p, stored, log) == true && OnTheWire(log) && LastUpload(log) == Some(upload)
    ensures var landed := p.(uploads := p.uploads - multiset{upload}, registrationInFlight := false);
      Fits(Recorded(landed, upload, outcome), stored,
           log + [Settled(upload.key, upload.bearer, outcome, Want(stored, log) == Some(upload.key))]) == true
  {
    var settled := Settled(upload.key, upload.bearer, outcome, Want(stored, log) == Some(upload.key));
    FitsSays(p, stored, log);
    NumberIsUndisturbed(log);
    NothingStandsMeanwhile(log);
    BearerIsLogin(log);
    Append(log, settled);
    Appended(log, settled);
    Grows(stored, log, settled);
    MoodGrows(log, settled);
    assert p.uploads - multiset{upload} == multiset{};
  }

  lemma RecordedKeepsWant(p: Phone, upload: Upload, outcome: UploadOutcome)
    ensures var written := Recorded(p, upload, outcome);
      && Wanted(written) == Wanted(p) && written.attempts == p.attempts && written.errands == p.errands
      && (outcome == Accepted && StillCurrent(p, upload) ==> written.lastRegisteredKey == Some(upload.key))
  {
  }

  /** The code's second reason to try again never holds without its first. */
  lemma {:induction false} SettlementIs(p: Phone, stored: map<nat, set<nat>>, log: seq<Event>, upload: Upload,
                                        outcome: UploadOutcome)
    requires Fits(p, stored, log) == true && OnTheWire(log) && LastUpload(log) == Some(upload)
    ensures var landed := p.(uploads := p.uploads - multiset{upload}, registrationInFlight := false);
      var written, shown := Recorded(landed, upload, outcome), ShowsSettle(stored, log, upload, outcome);
      OnUploadSettles(p, upload, outcome)
        == (if |shown| == 2 then written.(scheduledTimer := true) else written, shown)
  {
    var landed := p.(uploads := p.uploads - multiset{upload}, registrationInFlight := false);
    FitsSays(p, stored, log);
    NumberIsUndisturbed(log);
    BearerIsLogin(log);
    RecordedKeepsWant(landed, upload, outcome);
    assert StillCurrent(landed, upload) <==> Counts(log, upload.bearer);
    var settled := Settled(upload.key, upload.bearer, outcome, Want(stored, log) == Some(upload.key));
    assert [settled] + [] == [settled] && [settled] + [Armed] == [settled, Armed];
  }

  lemma ArmedFits(p: Phone, stored: map<nat, set<nat>>, log: seq<Event>, settled: Event, shown: seq<Event>)
    requires Fits(p, stored, log + [settled]) == true && (shown == [settled] || shown == [settled] + [Armed])
    ensures Fits(if |shown| == 2 then p.(scheduledTimer := true) else p, stored, log + shown) == true
  {
    FitsOne(p, stored, log + [settled], Armed);
    assert log + ([settled] + [Armed]) == log + [settled] + [Armed];
  }

  lemma SettlingAgrees(p: Phone, stored: map<nat, set<nat>>, h: History, upload: Upload, outcome: UploadOutcome)
    requires Is(p, stored, h) && OnTheWire(h.log) && LastUpload(h.log) == Some(upload)
    ensures Agrees(stored, h, UploadSettles(upload, outcome), OnUploadSettles(p, upload, outcome)) == true
  {
    var landed := p.(uploads := p.uploads - multiset{upload}, registrationInFlight := false);
    var written, shown := Recorded(landed, upload, outcome), ShowsSettle(stored, h.log, upload, outcome);
    SettledFits(p, stored, h.log, upload, outcome);
    SettlementIs(p, stored, h.log, upload, outcome);
    RecordedKeepsWant(landed, upload, outcome);
    ArmedFits(written, stored, h.log, shown[0], shown);
    ShownAgrees(stored, h, UploadSettles(upload, outcome),
                (if |shown| == 2 then written.(scheduledTimer := true) else written, shown));
  }

  lemma UploadAgrees(p: Phone, stored: map<nat, set<nat>>, h: History, upload: Upload, outcome: UploadOutcome)
    requires Is(p, stored, h)
    ensures Agrees(stored, h, UploadSettles(upload, outcome), Take(p, UploadSettles(upload, outcome))) == true
  {
    FitsSays(p, stored, h.log);
    if OnTheWire(h.log) { NumberIsUndisturbed(h.log); }
    if upload in p.uploads {
      SettlingAgrees(p, stored, h, upload, outcome);
    } else {
      UnaskedAgrees(p, stored, h, UploadSettles(upload, outcome));
    }
  }

  lemma TakeAgrees(p: Phone, stored: map<nat, set<nat>>, h: History, step: Step)
    requires Is(p, stored, h)
    ensures Agrees(stored, h, step, Take(p, step)) == true
  {
    match step
    case SignedIn => SignInAgrees(p, stored, h);
    case SignedOut => SigningOutAgrees(p, stored, h);
    case SystemResumed => SystemResumeAgrees(p, stored, h);
    case Retry => RetryAgrees(p, stored, h);
    case PermissionGranted => GrantAgrees(p, stored, h);
    case SetMuted(muted) => SetMutedAgrees(p, stored, h, muted);
    case ScheduledFires => FiringAgrees(p, stored, h);
    case AttemptCredentials(attempt, answer) => AttemptCredentialsAgrees(p, stored, h, attempt, answer);
    case AttemptPermission(attempt, answer) => AttemptPermissionAgrees(p, stored, h, attempt, answer);
    case ErrandCredentials(errand, answer) => ErrandAgrees(p, stored, h, errand, answer);
    case ResumeChecked(answer, now) => ResumeCheckAgrees(p, stored, h, answer, now);
    case _ => AnswerAgrees(p, stored, h, step);
  }

  lemma AnswerAgrees(p: Phone, stored: map<nat, set<nat>>, h: History, step: Step)
    requires Is(p, stored, h)
    requires step.ProviderCallSettles? || step.ProviderTimesOut? || step.ProviderErrors? || step.TokenDelivered?
             || step.UploadSettles?
    ensures Agrees(stored, h, step, Take(p, step)) == true
  {
    match step
    case ProviderCallSettles(ok) => ProviderCallAgrees(p, stored, h, ok);
    case TokenDelivered(token) => DeliveryAgrees(p, stored, h, token);
    case UploadSettles(upload, outcome) => UploadAgrees(p, stored, h, upload, outcome);
    case _ => ProviderAgrees(p, stored, h, step);
  }

  // ---------------------------------------------------------- the whole run

  lemma {:induction false} StartIs(stored: map<nat, set<nat>>)
    ensures Is(Started(stored), stored, Story(stored, []))
  {
  }

  /**
   In every run, whatever came in between, the phone shows exactly what its history decides, and each of its fields
   is what the history says; the activations that wait are the same.
  */
  lemma {:induction false} HistoryDecides(stored: map<nat, set<nat>>, run: seq<Step>)
    ensures Run(stored, run).1 == Story(stored, run).log
    ensures Run(stored, run).0 == Told(stored, Story(stored, run).log).(attempts := Story(stored, run).attempts,
                                                                        errands := Story(stored, run).errands)
  {
    RunIs(stored, run);
    IsTold(Run(stored, run).0, stored, Story(stored, run));
  }

  lemma IsTold(p: Phone, stored: map<nat, set<nat>>, h: History)
    requires Is(p, stored, h) == true
    ensures p == Told(stored, h.log).(attempts := h.attempts, errands := h.errands)
  {
    var bare := p.(attempts := multiset{}, errands := multiset{});
    assert p == bare.(attempts := p.attempts, errands := p.errands);
  }

  lemma {:induction false} RunIs(stored: map<nat, set<nat>>, run: seq<Step>)
    ensures Is(Run(stored, run).0, stored, Story(stored, run)) == true && Run(stored, run).1 == Story(stored, run).log
  {
    if run == [] {
      StartIs(stored);
    } else {
      var front := run[..|run| - 1];
      RunIs(stored, front);
      TakeAgrees(Run(stored, front).0, stored, Story(stored, front), run[|run| - 1]);
    }
  }

  /**
   In every run the settings row is told "failed" exactly while the last thing that set the mood failed, "registered"
   exactly when that was an accepted settle of what was then wanted and the server is known to hold what is wanted now,
   and "pending" otherwise.
  */
  lemma {:induction false} RowIsTold(stored: map<nat, set<nat>>, run: seq<Step>)
    ensures var (p, log) := Run(stored, run);
      && (RegistrationState(p) == Failed <==> Mood(log) == Failed)
      && (RegistrationState(p) == Registered
          <==> Mood(log) == Registered && Want(stored, log).Some? && Stands(log, Want(stored, log).value))
  {
    var (p, log) := Run(stored, run);
    RunIs(stored, run);
    FitsSays(p, stored, log);
    PushRegistrationProofs.RunKeeps(stored, run);
    if Want(stored, log).Some? {
      assert PushRegistrationProofs.Reachable(p, log);
      PushRegistrationProofs.RecordedKeyNeverLies(p, log, Want(stored, log).value);
    }
  }
}
