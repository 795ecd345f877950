/** What the log of push registration says: who is signed in, what is on the wire, what the server is known to hold. */
module PushRegistrationLog {
  import opened Wrappers
  import opened PushRegistration

  // ------------------------------------------------------- reading the log

  /** The bearer of the login the log ends in. */
  function Bearer(log: seq<Event>): Option<nat>
  {
    if log == [] then None
    else
      match log[|log| - 1]
      case LoggedIn(bearer, _) => Some(bearer)
      case LoggedOut(_) => None
      case _ => Bearer(log[..|log| - 1])
  }

  /** An upload was sent and has not settled. */
  predicate OnTheWire(log: seq<Event>)
  {
    log != [] && (log[|log| - 1].Sent? || (!log[|log| - 1].Settled? && OnTheWire(log[..|log| - 1])))
  }

  /** What the last upload carried, and for whom. */
  function LastSent(log: seq<Event>): Option<(Key, nat)>
  {
    if log == [] then None
    else match log[|log| - 1] case Sent(key, bearer) => Some((key, bearer)) case _ => LastSent(log[..|log| - 1])
  }

  /** What makes an earlier acceptance no longer stand: sign-out, a provider refresh, a provider failure. */
  predicate Disturbs(event: Event)
  {
    event.LoggedOut? || event.ProviderAsked? || event.ProviderFailed?
  }

  /** Nothing of the kind since the last upload was sent. */
  predicate Undisturbed(log: seq<Event>)
  {
    log == [] || log[|log| - 1].Sent? || (!Disturbs(log[|log| - 1]) && Undisturbed(log[..|log| - 1]))
  }

  /** A settle after `before` that the code records: accepted, for the login that is still there, undisturbed. */
  predicate Records(before: seq<Event>, event: Event)
  {
    event.Settled? && event.outcome == Accepted && Bearer(before) == Some(event.bearer) && Undisturbed(before)
  }

  /** The key the server is known to hold, kept step by step; `StandsSince` says what it means. */
  function Standing(log: seq<Event>): Option<Key>
  {
    if log == [] then None
    else
      var before, event := log[..|log| - 1], log[|log| - 1];
      if Records(before, event) then Some(event.key)
      else if event.Sent? || Disturbs(event) then None
      else Standing(before)
  }

  /** Whether the settle that recorded the standing key found it still wanted, and no await threw since. */
  predicate Announced(log: seq<Event>)
  {
    log != [] &&
    var before, event := log[..|log| - 1], log[|log| - 1];
    if Records(before, event) then event.stillWanted
    else !event.Sent? && !Disturbs(event) && !event.Faulted? && Announced(before)
  }

  function LastDelivered(log: seq<Event>): Option<nat>
  {
    if log == [] then None
    else match log[|log| - 1] case Delivered(token) => Some(token) case _ => LastDelivered(log[..|log| - 1])
  }

  /** The address of the last upload the server accepted. */
  function LastAccepted(log: seq<Event>): Option<nat>
  {
    if log == [] then None
    else
      var event := log[|log| - 1];
      if event.Settled? && event.outcome == Accepted then Some(event.key.deviceToken)
      else LastAccepted(log[..|log| - 1])
  }

  /** The newest attempt to register was turned away for want of a credential or a permission. */
  predicate Rebuffed(log: seq<Event>)
  {
    if log == [] then false
    else
      match log[|log| - 1]
      case Declined => true
      case Began => false
      case Armed => false
      case Sent(_, _) => false
      case _ => Rebuffed(log[..|log| - 1])
  }

  /** Uploads alternate: none is sent while one is out, and the one that settles is the one that was sent. */
  ghost predicate OneAtATime(log: seq<Event>)
  {
    log == [] ||
    var before, event := log[..|log| - 1], log[|log| - 1];
    && OneAtATime(before)
    && (event.Sent? ==> !OnTheWire(before))
    && (event.Settled? ==> OnTheWire(before) && LastSent(before) == Some((event.key, event.bearer)))
  }

  lemma {:induction false} Append(log: seq<Event>, event: Event)
    ensures Bearer(log + [event])
         == match event case LoggedIn(bearer, _) => Some(bearer) case LoggedOut(_) => None case _ => Bearer(log)
    ensures OnTheWire(log + [event]) == (event.Sent? || (!event.Settled? && OnTheWire(log)))
    ensures LastSent(log + [event]) == if event.Sent? then Some((event.key, event.bearer)) else LastSent(log)
    ensures Undisturbed(log + [event]) == (event.Sent? || (!Disturbs(event) && Undisturbed(log)))
    ensures Standing(log + [event])
         == if Records(log, event) then Some(event.key)
            else if event.Sent? || Disturbs(event) then None
            else Standing(log)
    ensures Announced(log + [event])
         == if Records(log, event) then event.stillWanted
            else !event.Sent? && !Disturbs(event) && !event.Faulted? && Announced(log)
    ensures LastDelivered(log + [event]) == if event.Delivered? then Some(event.token) else LastDelivered(log)
    ensures LastAccepted(log + [event])
         == if event.Settled? && event.outcome == Accepted then Some(event.key.deviceToken) else LastAccepted(log)
    ensures Rebuffed(log + [event])
         == (event.Declined? || (!event.Began? && !event.Armed? && !event.Sent? && Rebuffed(log)))
    ensures OneAtATime(log + [event])
         == (OneAtATime(log)
             && (event.Sent? ==> !OnTheWire(log))
             && (event.Settled? ==> OnTheWire(log) && LastSent(log) == Some((event.key, event.bearer))))
  {
    assert (log + [event])[..|log|] == log;
  }

  // ---------------------------------------------- what standing means

  /** From `from` on, but for `except`, no upload is sent or settles and nothing disturbs. */
  ghost predicate Still(log: seq<Event>, from: nat, except: nat)
  {
    forall j :: from <= j < |log| && j != except ==> !log[j].Sent? && !log[j].Settled? && !Disturbs(log[j])
  }

  /**
   The server is known to hold `key`: it was sent at `s` and accepted at `i`, for the login that was still there,
   and from `s` on there was no other upload, no other settle, no sign-out, no provider refresh and no failure.
  */
  ghost predicate StandsSince(log: seq<Event>, key: Key, s: nat, i: nat)
  {
    && s < i < |log|
    && log[s].Sent? && log[s].key == key
    && log[i].Settled? && log[i].key == key && log[i].outcome == Accepted
    && log[i].bearer == log[s].bearer && Bearer(log[..i]) == Some(log[i].bearer)
    && Still(log, s + 1, i)
  }

  ghost predicate Stands(log: seq<Event>, key: Key)
  {
    exists s: nat, i: nat :: StandsSince(log, key, s, i)
  }

  /** An upload that is out was sent at `s`, and nothing was sent or settled since. */
  lemma {:induction false} SentAt(log: seq<Event>) returns (s: nat)
    requires OnTheWire(log)
    ensures s < |log| && log[s].Sent? && LastSent(log) == Some((log[s].key, log[s].bearer))
    ensures Undisturbed(log) <==> Still(log, s + 1, |log|)
  {
    var n := |log| - 1;
    if log[n].Sent? {
      s := n;
    } else {
      s := SentAt(log[..n]);
      StillFront(log, s + 1, |log|);
    }
  }

  lemma StillFront(log: seq<Event>, from: nat, except: nat)
    requires log != [] && from < |log|
    ensures var n := |log| - 1;
      Still(log, from, except) <==>
        Still(log[..n], from, except) && (n != except ==> !log[n].Sent? && !log[n].Settled? && !Disturbs(log[n]))
  {
    var n := |log| - 1;
    assert forall j :: 0 <= j < n ==> log[..n][j] == log[j];
  }

  /** While an upload is out nothing is known to stand. */
  lemma {:induction false} NothingStandsMeanwhile(log: seq<Event>)
    requires OnTheWire(log)
    ensures Standing(log).None? && !Announced(log)
  {
    var n := |log| - 1;
    if !log[n].Sent? { NothingStandsMeanwhile(log[..n]); }
  }

  lemma BearerBefore(log: seq<Event>, i: nat)
    requires log != [] && i < |log|
    ensures log[..|log| - 1][..i] == log[..i]
  {
  }

  /** Whatever the step-by-step account says stands was sent and accepted, and has not been called into doubt since. */
  lemma {:induction false} StandingStands(log: seq<Event>) returns (s: nat, i: nat)
    requires OneAtATime(log) && Standing(log).Some?
    ensures StandsSince(log, Standing(log).value, s, i)
  {
    var n := |log| - 1;
    var before := log[..n];
    if log[n].Settled? {
      NothingStandsMeanwhile(before);
      s := SentAt(before);
      i := n;
      StillFront(log, s + 1, n);
    } else {
      s, i := StandingStands(before);
      StillFront(log, s + 1, i);
      BearerBefore(log, i);
    }
  }

  lemma {:induction false} StillIsUndisturbed(log: seq<Event>, s: nat)
    requires s < |log| && log[s].Sent? && Still(log, s + 1, |log|)
    ensures Undisturbed(log)
  {
    var n := |log| - 1;
    if s < n {
      StillFront(log, s + 1, |log|);
      StillIsUndisturbed(log[..n], s);
    }
  }

  /** And conversely; with it, what the account says of the row's "registered". */
  lemma {:induction false} StandsIsStanding(log: seq<Event>, key: Key, s: nat, i: nat)
    requires OneAtATime(log) && StandsSince(log, key, s, i)
    ensures Standing(log) == Some(key)
    ensures Announced(log) <==> log[i].stillWanted && forall j :: i < j < |log| ==> !log[j].Faulted?
  {
    var n := |log| - 1;
    var before := log[..n];
    StillFront(log, s + 1, i);
    if i == n {
      StillIsUndisturbed(before, s);
    } else {
      BearerBefore(log, i);
      StandsIsStanding(before, key, s, i);
      assert forall j :: 0 <= j < n ==> before[j] == log[j];
    }
  }
}
