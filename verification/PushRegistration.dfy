/**
 Push registration on the phone (push-registration.ts, MobilePushRegistration) as a transition system. One
 upload is on the wire at a time while sign-out, token rotation, provider refresh and muted-set changes race
 it; every await is a point where any other step may come in between.

 Each function gives the next state and what the step shows from the outside.
*/
module PushRegistration {
  import opened Wrappers

  /** `userId:deviceToken:<muted set>`, as a record; a normalized muted list is a set. */
  datatype Key = Key(userId: nat, deviceToken: nat, muted: set<nat>)

  datatype Status = Pending | Registered | Failed

  datatype Credentials = Credentials(token: nat, userId: nat)

  datatype Answer<T> = Came(value: T) | Threw

  /** An upload on the wire: what it carries, whose it is, and the revision it left at. */
  datatype Upload = Upload(key: Key, bearer: nat, revision: nat)

  datatype UploadOutcome = Accepted | Refused | Lost

  /** An activation on its way to register what the phone wants, by what it waits for. */
  datatype Attempt =
    | EnsureCredentials
    | EnsurePermission
    | GrantCredentials(known: bool, refresh: bool)
    | GrantPermission(refresh: bool, credentials: Credentials)

  /** Any other activation that waits. */
  datatype Errand =
    | ResumeCredentials
    | ResumePermission
    | MutedUser(muted: set<nat>)
    | ProviderCall

  datatype Phone = Phone(
    status: Status,
    providerTimer: bool,
    registrationRevision: nat,
    lastResumeRevalidationAt: Option<int>,
    deviceToken: Option<nat>,
    cleanupToken: Option<nat>,
    bearerToken: Option<nat>,
    userId: Option<nat>,
    lastRegisteredKey: Option<Key>,
    registrationInFlight: bool,
    scheduledTimer: bool,
    stored: map<nat, set<nat>>,       // the muted set in storage, by account
    uploads: multiset<Upload>,
    attempts: multiset<Attempt>,
    errands: multiset<Errand>)

  datatype Step =
    | SignedIn                                            // the token store announces a credential
    | SignedOut                                           // ... or that it is gone
    | SystemResumed
    | Retry
    | PermissionGranted                                   // the Enable button's prompt was answered "granted"
    | SetMuted(muted: set<nat>)
    | ScheduledFires
    | AttemptCredentials(attempt: Attempt, stored: Answer<Option<Credentials>>)
    | AttemptPermission(attempt: Attempt, granted: Answer<bool>)
    | ErrandCredentials(errand: Errand, credentials: Answer<Option<Credentials>>)
    | ResumeChecked(granted: Answer<bool>, now: int)
    | ProviderCallSettles(ok: bool)
    | ProviderTimesOut
    | ProviderErrors
    | TokenDelivered(token: nat)
    | UploadSettles(upload: Upload, outcome: UploadOutcome)

  datatype Event =
    | Sent(key: Key, bearer: nat)
    | Settled(key: Key, bearer: nat, outcome: UploadOutcome, stillWanted: bool)   // whether the sent key is wanted now
    | LoggedIn(bearer: nat, userId: nat)
    | LoggedOut(removed: Option<(nat, nat)>)   // the address the server is asked to drop, and the bearer used
    | ProviderAsked
    | ProviderFailed
    | Delivered(token: nat)
    | Repairs(now: int)                        // a resume begins a repair, and when
    | Saved(userId: nat, muted: set<nat>)      // a switch's choice is stored
    | Began
    | Armed
    | Fired                                    // the trailing send's timer
    | Declined                                 // no credential, or no permission
    | Faulted                                  // an attempt's or a resume check's await threw

  type Reaction = (Phone, seq<Event>)

  const RESUME_REVALIDATION_INTERVAL_MS := 15 * 60000

  function Muted(p: Phone, userId: nat): set<nat>
  {
    if userId in p.stored then p.stored[userId] else {}
  }

  /** User, address and muted severities as they stand; none without a login or an address. */
  function Wanted(p: Phone): Option<Key>
  {
    if p.userId.None? || p.deviceToken.None? then None
    else Some(Key(p.userId.value, p.deviceToken.value, Muted(p, p.userId.value)))
  }

  /** What the Settings row is told. */
  function RegistrationState(p: Phone): Status
  {
    if p.status == Registered && Wanted(p) != p.lastRegisteredKey then Pending else p.status
  }

  function FailProvider(p: Phone): Reaction
  {
    (p.(providerTimer := false, registrationRevision := p.registrationRevision + 1, deviceToken := None,
        lastRegisteredKey := None, status := Failed), [ProviderFailed])
  }

  function RegisterWithProvider(p: Phone): Reaction
  {
    if p.providerTimer then (p, [])
    else
      (p.(registrationRevision := p.registrationRevision + 1, lastRegisteredKey := None, deviceToken := None,
          status := Pending, providerTimer := true, errands := p.errands + multiset{ProviderCall}), [ProviderAsked])
  }

  function RegisterCurrentToken(p: Phone): Reaction
  {
    if p.registrationInFlight || p.deviceToken.None? || p.bearerToken.None? || p.userId.None? then (p, [])
    else
      var key := Key(p.userId.value, p.deviceToken.value, Muted(p, p.userId.value));
      if p.lastRegisteredKey == Some(key) then (p, [])
      else
        (p.(lastRegisteredKey := None, status := Pending, registrationInFlight := true,
            uploads := p.uploads + multiset{Upload(key, p.bearerToken.value, p.registrationRevision)}),
         [Sent(key, p.bearerToken.value)])
  }

  function Schedule(p: Phone): Reaction
  {
    (p.(scheduledTimer := true), [Armed])
  }

  /** Whether the login and the provider state an upload left under still stand. */
  predicate StillCurrent(p: Phone, upload: Upload)
  {
    p.bearerToken == Some(upload.bearer) && upload.revision == p.registrationRevision
  }

  /** What an upload's outcome writes: the recorded key and the status. */
  function Recorded(p: Phone, upload: Upload, outcome: UploadOutcome): Phone
  {
    if !StillCurrent(p, upload) then p
    else if outcome != Accepted then p.(status := Failed)
    else
      p.(lastRegisteredKey := Some(upload.key),
         status := if Wanted(p) == Some(upload.key) then Registered else p.status)
  }

  function OnUploadSettles(p: Phone, upload: Upload, outcome: UploadOutcome): Reaction
  {
    var landed := p.(uploads := p.uploads - multiset{upload}, registrationInFlight := false);
    var written := Recorded(landed, upload, outcome);
    var wanted := Wanted(p);
    var moved := wanted.Some? && (wanted != Some(upload.key) || !StillCurrent(p, upload));
    var missed := outcome == Accepted && wanted.Some? && wanted != written.lastRegisteredKey;
    var settled := Settled(upload.key, upload.bearer, outcome, wanted == Some(upload.key));
    if moved || missed then (written.(scheduledTimer := true), [settled, Armed]) else (written, [settled])
  }

  function Begin(p: Phone, attempt: Attempt): Reaction
  {
    (p.(attempts := p.attempts + multiset{attempt}), [Began])
  }

  function LogIn(p: Phone, credentials: Credentials): Phone
  {
    p.(bearerToken := Some(credentials.token), userId := Some(credentials.userId))
  }

  /** Register what the phone wants, or ask the provider for an address first. */
  function Register(p: Phone, refresh: bool): Reaction
  {
    if refresh || p.deviceToken.None? then RegisterWithProvider(p) else RegisterCurrentToken(p)
  }

  function LogInAndRegister(p: Phone, credentials: Credentials, refresh: bool): Reaction
  {
    var (next, events) := Register(LogIn(p, credentials), refresh);
    (next, [LoggedIn(credentials.token, credentials.userId)] + events)
  }

  function OnAttemptCredentials(p: Phone, attempt: Attempt, answer: Answer<Option<Credentials>>): Reaction
  {
    if attempt !in p.attempts || !(attempt.EnsureCredentials? || attempt.GrantCredentials?) then (p, [])
    else
      var left := p.(attempts := p.attempts - multiset{attempt});
      if answer.Threw? then (left.(status := Failed), [Faulted])
      else if answer.value.None? then (left, [Declined])
      else
        var credentials := answer.value.value;
        if attempt.EnsureCredentials? then
          (LogIn(left, credentials).(attempts := left.attempts + multiset{EnsurePermission}),
           [LoggedIn(credentials.token, credentials.userId)])
        else if attempt.known then LogInAndRegister(left, credentials, attempt.refresh)
        else (left.(attempts := left.attempts + multiset{GrantPermission(attempt.refresh, credentials)}), [])
  }

  function OnAttemptPermission(p: Phone, attempt: Attempt, answer: Answer<bool>): Reaction
  {
    if attempt !in p.attempts || !(attempt.EnsurePermission? || attempt.GrantPermission?) then (p, [])
    else
      var left := p.(attempts := p.attempts - multiset{attempt});
      if answer.Threw? then (left.(status := Failed), [Faulted])
      else if !answer.value then (left, [Declined])
      else if attempt.EnsurePermission? then Register(left, false)
      else LogInAndRegister(left, attempt.credentials, attempt.refresh)
  }

  function OnErrandCredentials(p: Phone, errand: Errand, answer: Answer<Option<Credentials>>): Reaction
  {
    if errand !in p.errands || !(errand.ResumeCredentials? || errand.MutedUser?) then (p, [])
    else
      var left := p.(errands := p.errands - multiset{errand});
      if errand.ResumeCredentials? then
        if answer.Threw? then (left.(status := Failed), [Faulted])
        else if answer.value.None? then (left, [])
        else (left.(errands := left.errands + multiset{ResumePermission}), [])
      else if answer.Threw? || answer.value.None? then (left, [])
      else
        var userId := answer.value.value.userId;
        var (next, events) := Schedule(left.(stored := left.stored[userId := errand.muted]));
        (next, [Saved(userId, errand.muted)] + events)
  }

  function OnResumeChecked(p: Phone, answer: Answer<bool>, now: int): Reaction
  {
    if ResumePermission !in p.errands then (p, [])
    else
      var left := p.(errands := p.errands - multiset{ResumePermission});
      if answer.Threw? then (left.(status := Failed), [Faulted])
      else if !answer.value || p.providerTimer then (left, [])
      else if p.lastResumeRevalidationAt.Some?
              && now - p.lastResumeRevalidationAt.value < RESUME_REVALIDATION_INTERVAL_MS then (left, [])
      else
        var (next, events) := Begin(left.(lastResumeRevalidationAt := Some(now)), GrantCredentials(true, true));
        (next, [Repairs(now)] + events)
  }

  function OnSignedOut(p: Phone): Reaction
  {
    (p.(registrationRevision := p.registrationRevision + 1, providerTimer := false, lastResumeRevalidationAt := None,
        status := Pending, bearerToken := None, userId := None, lastRegisteredKey := None, scheduledTimer := false),
     [LoggedOut(if p.bearerToken.Some? && p.cleanupToken.Some?
                then Some((p.bearerToken.value, p.cleanupToken.value)) else None)])
  }

  function OnScheduledFires(p: Phone): Reaction
  {
    if !p.scheduledTimer then (p, [])
    else
      var fired := p.(scheduledTimer := false);
      if Wanted(p).Some? && Wanted(p) == p.lastRegisteredKey then (fired, [Fired])
      else
        var (next, events) := Begin(fired, GrantCredentials(false, false));
        (next, [Fired] + events)
  }

  function OnTokenDelivered(p: Phone, token: nat): Reaction
  {
    var (next, events) :=
      RegisterCurrentToken(p.(providerTimer := false, deviceToken := Some(token), cleanupToken := Some(token)));
    (next, [Delivered(token)] + events)
  }

  function Take(p: Phone, step: Step): Reaction
  {
    match step
    case SignedIn => Begin(p, EnsureCredentials)
    case SignedOut => OnSignedOut(p)
    case SystemResumed => (p.(errands := p.errands + multiset{ResumeCredentials}), [])
    case Retry => Begin(p, GrantCredentials(false, true))
    case PermissionGranted => Begin(p, GrantCredentials(true, true))
    case SetMuted(muted) => (p.(errands := p.errands + multiset{MutedUser(muted)}), [])
    case ScheduledFires => OnScheduledFires(p)
    case AttemptCredentials(attempt, answer) => OnAttemptCredentials(p, attempt, answer)
    case AttemptPermission(attempt, answer) => OnAttemptPermission(p, attempt, answer)
    case ErrandCredentials(errand, answer) => OnErrandCredentials(p, errand, answer)
    case ResumeChecked(answer, now) => OnResumeChecked(p, answer, now)
    case ProviderCallSettles(ok) =>
      if ProviderCall !in p.errands then (p, [])
      else
        var left := p.(errands := p.errands - multiset{ProviderCall});
        if ok then (left, []) else FailProvider(left)
    case ProviderTimesOut => if p.providerTimer then FailProvider(p) else (p, [])
    case ProviderErrors => FailProvider(p)
    case TokenDelivered(token) => OnTokenDelivered(p, token)
    case UploadSettles(upload, outcome) =>
      if upload in p.uploads then OnUploadSettles(p, upload, outcome) else (p, [])
  }

  /** Right after `start`: the first ensure is on its way. */
  function Started(stored: map<nat, set<nat>>): Phone
  {
    Phone(Pending, false, 0, None, None, None, None, None, None, false, false, stored,
          multiset{}, multiset{EnsureCredentials}, multiset{})
  }

  function Run(stored: map<nat, set<nat>>, run: seq<Step>): Reaction
  {
    if run == [] then (Started(stored), [])
    else
      var (p, log) := Run(stored, run[..|run| - 1]);
      var (next, events) := Take(p, run[|run| - 1]);
      (next, log + events)
  }
}
