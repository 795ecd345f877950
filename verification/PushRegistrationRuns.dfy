/**
 Short runs of push registration that reach each side of its exact conditions: a met want reported as pending
 and one reported as failed, with nothing under way; and a sign-out that leaves the accepted address behind.
*/
module PushRegistrationRuns {
  import opened Wrappers
  import opened PushRegistration
  import opened PushRegistrationLog

  /** One more step of a run. */
  lemma {:induction false} RunOn(run: seq<Step>, step: Step, p: Phone, log: seq<Event>)
    requires Run(map[], run) == (p, log)
    ensures Run(map[], run + [step]) == (Take(p, step).0, log + Take(p, step).1)
  {
    assert (run + [step])[..|run|] == run;
  }

  /** The upload that is out settles. */
  lemma {:induction false} Lands(run: seq<Step>, p: Phone, log: seq<Event>, upload: Upload, outcome: UploadOutcome)
    requires Run(map[], run) == (p, log) && upload in p.uploads
    ensures var (next, events) := OnUploadSettles(p, upload, outcome);
      Run(map[], run + [UploadSettles(upload, outcome)]) == (next, log + events)
  {
    RunOn(run, UploadSettles(upload, outcome), p, log);
  }

  /** The first address, or a new one, arrives and goes out at once. */
  lemma {:induction false} Arrives(run: seq<Step>, p: Phone, log: seq<Event>, token: nat)
    requires Run(map[], run) == (p, log)
    requires p.(status := Pending, providerTimer := false, lastRegisteredKey := None, deviceToken := Some(token),
                cleanupToken := Some(token)) == Holding(token)
    requires p.lastRegisteredKey != Some(Key(1, token, {}))
    ensures Run(map[], run + [TokenDelivered(token)])
         == (Uploading(token), log + [Delivered(token), Sent(Key(1, token, {}), 7)])
  {
    Delivers(p, token);
    RunOn(run, TokenDelivered(token), p, log);
  }

  const LOGIN := Credentials(7, 1)

  function Address(token: nat, revision: nat): Upload
  {
    Upload(Key(1, token, {}), 7, revision)
  }

  /** A signed-in phone with one address, at revision 1. */
  function Holding(token: nat): Phone
  {
    Phone(Pending, false, 1, None, Some(token), Some(token), Some(7), Some(1), None, false, false, map[],
          multiset{}, multiset{}, multiset{})
  }

  /** ... while the upload of that address is out. */
  function Uploading(token: nat): Phone
  {
    Holding(token).(registrationInFlight := true, uploads := multiset{Address(token, 1)})
  }

  /** A sign-in that asks the provider for an address, and gets one. */
  const ENSURED := [AttemptCredentials(EnsureCredentials, Came(Some(LOGIN)))]
  const ASKING := ENSURED + [AttemptPermission(EnsurePermission, Came(true))]
  const ASKED := ASKING + [ProviderCallSettles(true)]
  const FIRST := ASKED + [TokenDelivered(10)]

  const FIRST_LOG := [LoggedIn(7, 1), ProviderAsked] + [Delivered(10), Sent(Key(1, 10, {}), 7)]

  lemma Ensured()
    ensures Run(map[], ENSURED)
         == (LogIn(Started(map[]), LOGIN).(attempts := multiset{EnsurePermission}), [LoggedIn(7, 1)])
  {
    RunOn([], AttemptCredentials(EnsureCredentials, Came(Some(LOGIN))), Started(map[]), []);
    assert [] + ENSURED == ENSURED;
    assert multiset{EnsureCredentials} - multiset{EnsureCredentials} + multiset{EnsurePermission}
        == multiset{EnsurePermission};
    assert [] + [LoggedIn(7, 1)] == [LoggedIn(7, 1)];
  }

  function Awaiting(): Phone
  {
    Holding(10).(deviceToken := None, cleanupToken := None, providerTimer := true)
  }

  lemma Asks()
    ensures Run(map[], ASKING) == (Awaiting().(errands := multiset{ProviderCall}), [LoggedIn(7, 1), ProviderAsked])
  {
    Ensured();
    RunOn(ENSURED, AttemptPermission(EnsurePermission, Came(true)), Run(map[], ENSURED).0, [LoggedIn(7, 1)]);
    assert multiset{EnsurePermission} - multiset{EnsurePermission} == multiset{};
    assert multiset{} + multiset{ProviderCall} == multiset{ProviderCall};
    assert [LoggedIn(7, 1)] + [ProviderAsked] == [LoggedIn(7, 1), ProviderAsked];
  }

  lemma CallReturns()
    ensures Take(Awaiting().(errands := multiset{ProviderCall}), ProviderCallSettles(true)) == (Awaiting(), [])
  {
    assert multiset{ProviderCall} - multiset{ProviderCall} == multiset{};
  }

  lemma Asked()
    ensures Run(map[], ASKED) == (Awaiting(), [LoggedIn(7, 1), ProviderAsked])
  {
    Asks();
    var p, log := Awaiting().(errands := multiset{ProviderCall}), [LoggedIn(7, 1), ProviderAsked];
    CallReturns();
    RunOn(ASKING, ProviderCallSettles(true), p, log);
    assert log + [] == log;
  }

  /** A delivered address goes out at once when nothing else is out. */
  lemma Delivers(p: Phone, token: nat)
    requires p.(status := Pending, providerTimer := false, lastRegisteredKey := None, deviceToken := Some(token),
                cleanupToken := Some(token)) == Holding(token)
    requires p.lastRegisteredKey != Some(Key(1, token, {}))
    ensures OnTokenDelivered(p, token) == (Uploading(token), [Delivered(token), Sent(Key(1, token, {}), 7)])
  {
    assert multiset{} + multiset{Address(token, 1)} == multiset{Address(token, 1)};
    assert [Delivered(token)] + [Sent(Key(1, token, {}), 7)] == [Delivered(token), Sent(Key(1, token, {}), 7)];
  }

  lemma FirstSent()
    ensures Run(map[], FIRST) == (Uploading(10), FIRST_LOG)
  {
    Asked();
    Arrives(ASKED, Awaiting(), [LoggedIn(7, 1), ProviderAsked], 10);
  }

  const REGISTERED := FIRST + [UploadSettles(Address(10, 1), Accepted)]

  const ACCEPTED := Settled(Key(1, 10, {}), 7, Accepted, true)

  /** An accepted upload of the only address: recorded, and registered when it is what is wanted. */
  lemma IsAccepted(token: nat, stored: map<nat, set<nat>>, timer: bool)
    ensures var p := Uploading(token).(stored := stored, scheduledTimer := timer);
      OnUploadSettles(p, Address(token, 1), Accepted).0
        == Holding(token).(stored := stored, lastRegisteredKey := Some(Key(1, token, {})),
                           scheduledTimer := timer || Muted(p, 1) != {},
                           status := if Muted(p, 1) == {} then Registered else Pending)
  {
    var p := Uploading(token).(stored := stored, scheduledTimer := timer);
    assert p.uploads - multiset{Address(token, 1)} == multiset{};
    assert StillCurrent(p, Address(token, 1));
    assert Wanted(p) == Some(Key(1, token, Muted(p, 1)));
  }

  lemma FirstRegistered()
    ensures Run(map[], REGISTERED)
         == (Holding(10).(status := Registered, lastRegisteredKey := Some(Key(1, 10, {}))), FIRST_LOG + [ACCEPTED])
  {
    FirstSent();
    IsAccepted(10, map[], false);
    Lands(FIRST, Uploading(10), FIRST_LOG, Address(10, 1), Accepted);
  }

  /** The provider rotates the address. */
  const ROTATED := REGISTERED + [TokenDelivered(11)]

  const ROTATED_LOG := FIRST_LOG + [ACCEPTED] + [Delivered(11)] + [Sent(Key(1, 11, {}), 7)]

  lemma Rotates()
    ensures Run(map[], ROTATED) == (Uploading(11), ROTATED_LOG)
  {
    FirstRegistered();
    var p := Holding(10).(status := Registered, lastRegisteredKey := Some(Key(1, 10, {})));
    Arrives(REGISTERED, p, FIRST_LOG + [ACCEPTED], 11);
    assert [Delivered(11)] + [Sent(Key(1, 11, {}), 7)] == [Delivered(11), Sent(Key(1, 11, {}), 7)];
    Regroup(FIRST_LOG + [ACCEPTED], [Delivered(11)], [Sent(Key(1, 11, {}), 7)]);
  }

  /** The new address's upload is lost. */
  const LOST := ROTATED + [UploadSettles(Address(11, 1), Lost)]

  lemma Loses()
    ensures Run(map[], LOST)
         == (Holding(11).(status := Failed), ROTATED_LOG + [Settled(Key(1, 11, {}), 7, UploadOutcome.Lost, true)])
  {
    Rotates();
    assert multiset{Address(11, 1)} - multiset{Address(11, 1)} == multiset{};
    Lands(ROTATED, Uploading(11), ROTATED_LOG, Address(11, 1), Lost);
  }

  lemma Regroup(a: seq<Event>, b: seq<Event>, c: seq<Event>)
    ensures a + b + c == a + (b + c)
  {
  }

  /**
   Sign-out then asks the server to drop address 11, which it never accepted, and leaves 10, which it did: the
   address kept for cleanup is overwritten by every delivered one, registered or not.
  */
  lemma SignOutLeavesAcceptedAddress()
    ensures var log := Run(map[], LOST + [SignedOut]).1;
      LastAccepted(log) == Some(10) && log[|log| - 1] == LoggedOut(Some((7, 11)))
  {
    Loses();
    var lost := Settled(Key(1, 11, {}), 7, UploadOutcome.Lost, true);
    RunOn(LOST, SignedOut, Holding(11).(status := Failed), ROTATED_LOG + [lost]);
    Append(FIRST_LOG, ACCEPTED);
    Append(FIRST_LOG + [ACCEPTED], Delivered(11));
    Append(FIRST_LOG + [ACCEPTED] + [Delivered(11)], Sent(Key(1, 11, {}), 7));
    Append(ROTATED_LOG, lost);
    Append(ROTATED_LOG + [lost], LoggedOut(Some((7, 11))));
  }

  /** A switch is set and its choice stored: the trailing send is armed. */
  lemma Switches(run: seq<Step>, p: Phone, log: seq<Event>, muted: set<nat>) returns (next: seq<Event>)
    requires Run(map[], run) == (p, log) && p.errands == multiset{}
    ensures Run(map[], run + [SetMuted(muted)] + [ErrandCredentials(MutedUser(muted), Came(Some(LOGIN)))])
         == (p.(stored := p.stored[1 := muted], scheduledTimer := true), next)
  {
    var asking := p.(errands := multiset{} + multiset{MutedUser(muted)});
    RunOn(run, SetMuted(muted), p, log);
    RunOn(run + [SetMuted(muted)], ErrandCredentials(MutedUser(muted), Came(Some(LOGIN))), asking, log + []);
    assert asking.errands - multiset{MutedUser(muted)} == multiset{};
    next := log + [] + ([Saved(1, muted)] + [Armed]);
  }

  /** While the first upload is out, a switch is turned on; the upload is accepted; the switch is turned off again. */
  const MUTED := FIRST + [SetMuted({3})] + [ErrandCredentials(MutedUser({3}), Came(Some(LOGIN)))]
  const KEPT := MUTED + [UploadSettles(Address(10, 1), Accepted)]
  const UNMUTED := KEPT + [SetMuted({})] + [ErrandCredentials(MutedUser({}), Came(Some(LOGIN)))]

  /** Address 10 accepted and recorded while the stored choice is `muted`, the trailing send armed. */
  function Accepting(muted: set<nat>): Phone
  {
    Holding(10).(stored := map[1 := muted], scheduledTimer := true, lastRegisteredKey := Some(Key(1, 10, {})))
  }

  lemma Accepts() returns (log: seq<Event>)
    ensures Run(map[], KEPT) == (Accepting({3}), log)
  {
    FirstSent();
    log := Switches(FIRST, Uploading(10), FIRST_LOG, {3});
    var p := Uploading(10).(stored := map[1 := {3}], scheduledTimer := true);
    assert Muted(p, 1) == {3};
    IsAccepted(10, map[1 := {3}], true);
    Lands(MUTED, p, log, Address(10, 1), Accepted);
    log := log + OnUploadSettles(p, Address(10, 1), Accepted).1;
  }

  lemma Unmutes() returns (log: seq<Event>)
    ensures Run(map[], UNMUTED) == (Accepting({}), log)
  {
    log := Accepts();
    log := Switches(KEPT, Accepting({3}), log, {});
    assert Accepting({3}).stored[1 := {}] == map[1 := {}];
  }

  /** The want is met and nothing is under way: no upload, no timer, no attempt, no errand. */
  predicate MetAndIdle(p: Phone)
  {
    && Wanted(p).Some? && Wanted(p) == p.lastRegisteredKey
    && !p.registrationInFlight && !p.scheduledTimer && !p.providerTimer
    && p.attempts == multiset{} && p.errands == multiset{}
  }

  /**
   Once the trailing send has fired, the want is met and nothing is under way, yet the row is told "pending":
   the settle found another key wanted, and the send that finds nothing to do does not say so.
  */
  lemma MetWantStaysPending()
    ensures var p := Run(map[], UNMUTED + [ScheduledFires]).0; MetAndIdle(p) && RegistrationState(p) == Pending
  {
    var log := Unmutes();
    RunOn(UNMUTED, ScheduledFires, Accepting({}), log);
  }

  /** A resume's check throws: the want is met and nothing is under way, yet the row is told "failed". */
  lemma MetWantTurnsFailed()
    ensures var p := Run(map[], REGISTERED + [SystemResumed] + [ErrandCredentials(ResumeCredentials, Threw)]).0;
      MetAndIdle(p) && RegistrationState(p) == Failed
  {
    FirstRegistered();
    var p := Holding(10).(status := Registered, lastRegisteredKey := Some(Key(1, 10, {})));
    var checking := p.(errands := multiset{} + multiset{ResumeCredentials});
    RunOn(REGISTERED, SystemResumed, p, FIRST_LOG + [ACCEPTED]);
    RunOn(REGISTERED + [SystemResumed], ErrandCredentials(ResumeCredentials, Threw), checking,
          FIRST_LOG + [ACCEPTED] + []);
    assert checking.errands - multiset{ResumeCredentials} == multiset{};
  }
}
