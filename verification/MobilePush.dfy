/**
 Push registration as the object it is (push-registration.ts, MobilePushRegistration): its fields, changed by
 plugin events, timers and the continuations of its awaits. Every method is proved against the transition
 system of `PushRegistration`.

 A suspended activation is an element of `uploads`, `attempts` or `errands`; the method named after its
 settling is what runs when its await comes back.
*/
module MobilePush {
  import opened Wrappers
  import opened PushRegistration

  class MobilePushRegistration {
    var state: Status
    var providerRegistrationTimer: bool
    var registrationRevision: nat
    var lastResumeRevalidationAt: Option<int>
    var deviceToken: Option<nat>
    var cleanupToken: Option<nat>
    var bearerToken: Option<nat>
    var userId: Option<nat>
    var lastRegisteredKey: Option<Key>
    var registrationInFlight: bool
    var scheduledRegistrationTimer: bool
    var stored: map<nat, set<nat>>
    var uploads: multiset<Upload>
    var attempts: multiset<Attempt>
    var errands: multiset<Errand>

    ghost function View(): Phone
      reads this
    {
      Phone(state, providerRegistrationTimer, registrationRevision, lastResumeRevalidationAt, deviceToken, cleanupToken,
            bearerToken, userId, lastRegisteredKey, registrationInFlight, scheduledRegistrationTimer, stored, uploads,
            attempts, errands)
    }

    constructor (stored: map<nat, set<nat>>)
      ensures View() == Started(stored)
    {
      state, providerRegistrationTimer, registrationRevision, lastResumeRevalidationAt := Pending, false, 0, None;
      deviceToken, cleanupToken, bearerToken, userId := None, None, None, None;
      lastRegisteredKey, registrationInFlight, scheduledRegistrationTimer := None, false, false;
      this.stored := stored;
      uploads, attempts, errands := multiset{}, multiset{EnsureCredentials}, multiset{};
    }

    function ReadMutedSeverities(user: nat): set<nat>
      reads this
    {
      if user in stored then stored[user] else {}
    }

    function WantedRegistrationKey(): Option<Key>
      reads this
    {
      if userId.None? || deviceToken.None? then None
      else Some(Key(userId.value, deviceToken.value, ReadMutedSeverities(userId.value)))
    }

    method RegistrationStateNow() returns (answer: Status)
      ensures answer == RegistrationState(View())
    {
      if state == Registered && WantedRegistrationKey() != lastRegisteredKey {
        return Pending;
      }
      answer := state;
    }

    /** What the provider gave, and what the server holds for it, no longer stands. */
    method DropProviderState()
      modifies this
      ensures View() == old(View()).(registrationRevision := old(registrationRevision) + 1, deviceToken := None,
                                     lastRegisteredKey := None)
    {
      registrationRevision := registrationRevision + 1;
      deviceToken := None;
      lastRegisteredKey := None;
    }

    method FailProviderRegistration() returns (events: seq<Event>)
      modifies this
      ensures (View(), events) == FailProvider(old(View()))
    {
      providerRegistrationTimer := false;
      DropProviderState();
      state := Failed;
      events := [ProviderFailed];
    }

    method AskProvider() returns (events: seq<Event>)
      modifies this
      ensures (View(), events) == RegisterWithProvider(old(View()))
    {
      if providerRegistrationTimer {
        return [];
      }
      DropProviderState();
      state := Pending;
      providerRegistrationTimer := true;
      errands := errands + multiset{ProviderCall};
      events := [ProviderAsked];
    }

    /** Starts an upload of the wanted key, if there is one, none is out and it is not the recorded one. */
    method SendCurrentToken() returns (events: seq<Event>)
      modifies this
      ensures (View(), events) == RegisterCurrentToken(old(View()))
    {
      if registrationInFlight {
        return [];
      }
      if deviceToken.None? || bearerToken.None? || userId.None? {
        return [];
      }
      var key := Key(userId.value, deviceToken.value, ReadMutedSeverities(userId.value));
      if lastRegisteredKey == Some(key) {
        return [];
      }
      lastRegisteredKey := None;
      state := Pending;
      registrationInFlight := true;
      uploads := uploads + multiset{Upload(key, bearerToken.value, registrationRevision)};
      events := [Sent(key, bearerToken.value)];
    }

    /** What an outcome writes, when the login and the provider state it was sent under still stand. */
    method RecordOutcome(upload: Upload, outcome: UploadOutcome)
      modifies this
      ensures View() == Recorded(old(View()), upload, outcome)
    {
      if bearerToken != Some(upload.bearer) || upload.revision != registrationRevision {
        return;
      }
      if outcome != Accepted {
        state := Failed;
        return;
      }
      lastRegisteredKey := Some(upload.key);
      if WantedRegistrationKey() == Some(upload.key) {
        state := Registered;
      }
    }

    method TakeOffTheWire(upload: Upload)
      modifies this
      ensures View() == old(View()).(uploads := old(uploads) - multiset{upload}, registrationInFlight := false)
    {
      uploads := uploads - multiset{upload};
      registrationInFlight := false;
    }

    method ScheduleRegistration()
      modifies this
      ensures View() == old(View()).(scheduledTimer := true)
    {
      scheduledRegistrationTimer := true;
    }

    /** What runs when the upload's request is accepted, refused or lost. */
    method OnUploadSettled(upload: Upload, outcome: UploadOutcome) returns (events: seq<Event>)
      requires upload in uploads
      modifies this
      ensures (View(), events) == OnUploadSettles(old(View()), upload, outcome)
    {
      var current := bearerToken == Some(upload.bearer) && registrationRevision == upload.revision;
      var wanted := WantedRegistrationKey();
      ghost var before := View();
      assert current == StillCurrent(before, upload) && wanted == Wanted(before);
      TakeOffTheWire(upload);
      var moved := wanted.Some? && (wanted != Some(upload.key) || !current);
      RecordOutcome(upload, outcome);
      var missed := outcome == Accepted && wanted.Some? && wanted != lastRegisteredKey;
      var settled := Settled(upload.key, upload.bearer, outcome, wanted == Some(upload.key));
      events := [settled];
      if moved || missed {
        ScheduleRegistration();
        events := [settled, Armed];
      }
    }

    method RegisterNow(refresh: bool) returns (events: seq<Event>)
      modifies this
      ensures (View(), events) == Register(old(View()), refresh)
    {
      if refresh || deviceToken.None? {
        events := AskProvider();
      } else {
        events := SendCurrentToken();
      }
    }

    method AdoptLogin(credentials: Credentials)
      modifies this
      ensures View() == LogIn(old(View()), credentials)
    {
      bearerToken := Some(credentials.token);
      userId := Some(credentials.userId);
    }

    method AdoptAndRegister(credentials: Credentials, refresh: bool) returns (events: seq<Event>)
      modifies this
      ensures (View(), events) == LogInAndRegister(old(View()), credentials, refresh)
    {
      AdoptLogin(credentials);
      var next := RegisterNow(refresh);
      events := [LoggedIn(credentials.token, credentials.userId)] + next;
    }

    /** The token store answers an attempt. */
    method OnStoredCredentials(attempt: Attempt, answer: Answer<Option<Credentials>>) returns (events: seq<Event>)
      modifies this
      ensures (View(), events) == OnAttemptCredentials(old(View()), attempt, answer)
    {
      if attempt !in attempts || !(attempt.EnsureCredentials? || attempt.GrantCredentials?) {
        return [];
      }
      attempts := attempts - multiset{attempt};
      if answer.Threw? {
        state := Failed;
        return [Faulted];
      }
      if answer.value.None? {
        return [Declined];
      }
      var credentials := answer.value.value;
      if attempt.EnsureCredentials? {
        AdoptLogin(credentials);
        attempts := attempts + multiset{EnsurePermission};
        events := [LoggedIn(credentials.token, credentials.userId)];
      } else if attempt.known {
        events := AdoptAndRegister(credentials, attempt.refresh);
      } else {
        attempts := attempts + multiset{GrantPermission(attempt.refresh, credentials)};
        events := [];
      }
    }

    /** The OS answers an attempt. */
    method OnPermission(attempt: Attempt, answer: Answer<bool>) returns (events: seq<Event>)
      modifies this
      ensures (View(), events) == OnAttemptPermission(old(View()), attempt, answer)
    {
      if attempt !in attempts || !(attempt.EnsurePermission? || attempt.GrantPermission?) {
        return [];
      }
      attempts := attempts - multiset{attempt};
      if answer.Threw? {
        state := Failed;
        return [Faulted];
      }
      if !answer.value {
        return [Declined];
      }
      if attempt.EnsurePermission? {
        events := RegisterNow(false);
      } else {
        events := AdoptAndRegister(attempt.credentials, attempt.refresh);
      }
    }

    /** The token store answers a resume's check, or a switch waiting to be stored. */
    method OnErrandAnswered(errand: Errand, answer: Answer<Option<Credentials>>) returns (events: seq<Event>)
      modifies this
      ensures (View(), events) == OnErrandCredentials(old(View()), errand, answer)
    {
      if errand !in errands || !(errand.ResumeCredentials? || errand.MutedUser?) {
        return [];
      }
      errands := errands - multiset{errand};
      if errand.ResumeCredentials? {
        if answer.Threw? {
          state := Failed;
          return [Faulted];
        }
        if answer.value.Some? {
          errands := errands + multiset{ResumePermission};
        }
        return [];
      }
      if answer.Threw? || answer.value.None? {
        return [];
      }
      stored := stored[answer.value.value.userId := errand.muted];
      ScheduleRegistration();
      events := [Saved(answer.value.value.userId, errand.muted)] + [Armed];
    }

    method RevalidateOnResume(answer: Answer<bool>, now: int) returns (events: seq<Event>)
      modifies this
      ensures (View(), events) == OnResumeChecked(old(View()), answer, now)
    {
      events := [];
      if ResumePermission !in errands {
        return;
      }
      errands := errands - multiset{ResumePermission};
      if answer.Threw? {
        state := Failed;
        return [Faulted];
      }
      if !answer.value || providerRegistrationTimer {
        return;
      }
      if lastResumeRevalidationAt.Some? && now - lastResumeRevalidationAt.value < RESUME_REVALIDATION_INTERVAL_MS {
        return;
      }
      lastResumeRevalidationAt := Some(now);
      attempts := attempts + multiset{GrantCredentials(true, true)};
      events := [Repairs(now)] + [Began];
    }

    method ForgetLogin()
      modifies this
      ensures View() == old(View()).(bearerToken := None, userId := None, lastRegisteredKey := None)
    {
      bearerToken := None;
      userId := None;
      lastRegisteredKey := None;
    }

    method CancelTimers()
      modifies this
      ensures View() == old(View()).(providerTimer := false, scheduledTimer := false, lastResumeRevalidationAt := None)
    {
      providerRegistrationTimer := false;
      scheduledRegistrationTimer := false;
      lastResumeRevalidationAt := None;
    }

    method UnregisterAfterSignOut() returns (events: seq<Event>)
      modifies this
      ensures (View(), events) == OnSignedOut(old(View()))
    {
      var bearer, token := bearerToken, cleanupToken;
      registrationRevision := registrationRevision + 1;
      state := Pending;
      CancelTimers();
      ForgetLogin();
      var removed := None;
      if bearer.Some? && token.Some? {
        removed := Some((bearer.value, token.value));
      }
      events := [LoggedOut(removed)];
    }

    method OnScheduledTimer() returns (events: seq<Event>)
      modifies this
      ensures (View(), events) == OnScheduledFires(old(View()))
    {
      if !scheduledRegistrationTimer {
        return [];
      }
      scheduledRegistrationTimer := false;
      var wanted := WantedRegistrationKey();
      if wanted.Some? && wanted == lastRegisteredKey {
        return [Fired];
      }
      attempts := attempts + multiset{GrantCredentials(false, false)};
      events := [Fired] + [Began];
    }

    /** The plugin's `registration` event. */
    method OnRegistration(token: nat) returns (events: seq<Event>)
      modifies this
      ensures (View(), events) == OnTokenDelivered(old(View()), token)
    {
      providerRegistrationTimer := false;
      deviceToken := Some(token);
      cleanupToken := Some(token);
      var next := SendCurrentToken();
      events := [Delivered(token)] + next;
    }
  }
}
