/** Downloads are served in the order they were asked for: one search at a time, each ending in one grant. */
module DownloadOrder {
  import opened DownloadClaims
  import opened DownloadNames
  import opened FileNames
  import opened Wrappers

  /** The names asked for, in order. */
  function Requests(run: seq<Step>): seq<Name>
  {
    if run == [] then []
    else Requests(run[..|run| - 1]) + (if run[|run| - 1].Request? then [run[|run| - 1].name] else [])
  }

  /** The search that a step begins: none was under way before it, and one is after. */
  function Begins(before: Shell, after: Shell): seq<Name>
  {
    if before.active.None? && after.active.Some? then [after.active.value.name] else []
  }

  /** The names searched for, in the order the searches began. */
  function Searches(stamp: Name, files: set<Name>, run: seq<Step>): seq<Name>
  {
    if run == [] then []
    else
      Searches(stamp, files, run[..|run| - 1])
      + Begins(Run(stamp, files, run[..|run| - 1]).0, Run(stamp, files, run).0)
  }

  /** The paths granted, in order. */
  function Grants(log: seq<Event>): seq<Name>
  {
    if log == [] then []
    else Grants(log[..|log| - 1]) + (if log[|log| - 1].Granted? then [log[|log| - 1].path] else [])
  }

  /** A path a download of that name may be given. */
  ghost predicate PathFor(stamp: Name, name: Name, path: Name)
  {
    || (exists n: nat :: n <= MAX_NUMBERED_DOWNLOAD_ATTEMPTS && path == Candidate(name, n))
    || (exists k: nat :: path == Stamped(stamp, name, k))
  }

  /** The first of the names have their paths, each in its turn. */
  ghost predicate Served(stamp: Name, names: seq<Name>, paths: seq<Name>)
  {
    |paths| <= |names| && forall k :: 0 <= k < |paths| ==> PathFor(stamp, names[k], paths[k])
  }

  lemma {:induction false} AppendRequest(run: seq<Step>, step: Step)
    ensures Requests(run + [step]) == Requests(run) + (if step.Request? then [step.name] else [])
  {
    assert (run + [step])[..|run|] == run;
  }

  lemma {:induction false} AppendGrant(log: seq<Event>, events: seq<Event>)
    requires |events| <= 1
    ensures Grants(log + events) == Grants(log) + Grants(events)
  {
    if events == [] {
      assert log + events == log && Grants(log) + [] == Grants(log);
    } else {
      assert (log + events)[..|log|] == log && events[..0] == [];
      assert Grants(events) == [] + (if events[0].Granted? then [events[0].path] else []);
    }
  }

  /** Every search has its grant but the one under way; what waits is what has not been searched for. */
  ghost predicate InTurn(stamp: Name, s: Shell, requests: seq<Name>, searches: seq<Name>, grants: seq<Name>)
  {
    && requests == searches + s.queue
    && Served(stamp, searches, grants)
    && |searches| == |grants| + (if s.active.Some? then 1 else 0)
    && (s.active.Some? ==> s.active.value.name == searches[|grants|] && 1 <= s.active.value.n)
    && (s.active.Some? && s.active.value.Statting? ==> s.active.value.n <= MAX_NUMBERED_DOWNLOAD_ATTEMPTS)
  }

  /** What the step adds to each of the three. */
  ghost predicate StaysInTurn(stamp: Name, s: Shell, step: Step, requests: seq<Name>, searches: seq<Name>,
                              grants: seq<Name>)
  {
    var (next, events) := Take(stamp, s, step);
    && |events| <= 1
    && InTurn(stamp, next, requests + (if step.Request? then [step.name] else []), searches + Begins(s, next),
              grants + Grants(events))
  }

  lemma GrantOfOne(event: Event)
    ensures Grants([event]) == if event.Granted? then [event.path] else []
  {
    assert [event][..0] == [];
  }

  lemma NothingAdded<T>(a: seq<T>)
    ensures a + [] == a
  {
  }

  /** A claim ends the search that is under way. */
  lemma ClaimInTurn(stamp: Name, s: Shell, path: Name, requests: seq<Name>, searches: seq<Name>, grants: seq<Name>)
    requires InTurn(stamp, s, requests, searches, grants) && s.active.Some?
    requires PathFor(stamp, s.active.value.name, path)
    ensures InTurn(stamp, Claim(s, path).0, requests, searches, grants + [path])
  {
  }

  lemma QuietInTurn(stamp: Name, s: Shell, step: Step, requests: seq<Name>, searches: seq<Name>, grants: seq<Name>)
    requires InTurn(stamp, s, requests, searches, grants)
    requires step.WriteStarts? || step.WriteLands? || step.WriteSettles? || step.StageShare?
    ensures StaysInTurn(stamp, s, step, requests, searches, grants)
  {
    NothingAdded(requests);
    NothingAdded(searches);
    NothingAdded(grants);
    var (next, events) := Take(stamp, s, step);
    if events != [] {
      GrantOfOne(events[0]);
      assert events == [events[0]];
    }
  }

  lemma RequestInTurn(stamp: Name, s: Shell, name: Name, requests: seq<Name>, searches: seq<Name>, grants: seq<Name>)
    requires InTurn(stamp, s, requests, searches, grants)
    ensures StaysInTurn(stamp, s, Request(name), requests, searches, grants)
  {
    NothingAdded(searches);
    NothingAdded(grants);
    assert searches + s.queue + [name] == searches + (s.queue + [name]);
  }

  lemma BeginInTurn(stamp: Name, s: Shell, requests: seq<Name>, searches: seq<Name>, grants: seq<Name>)
    requires InTurn(stamp, s, requests, searches, grants)
    ensures StaysInTurn(stamp, s, BeginSearch, requests, searches, grants)
  {
    NothingAdded(requests);
    NothingAdded(searches);
    NothingAdded(grants);
    if s.active.None? && s.queue != [] {
      assert s.queue == [s.queue[0]] + s.queue[1..];
      assert searches + [s.queue[0]] + s.queue[1..] == requests;
    }
  }

  lemma LookInTurn(stamp: Name, s: Shell, requests: seq<Name>, searches: seq<Name>, grants: seq<Name>)
    requires InTurn(stamp, s, requests, searches, grants)
    ensures StaysInTurn(stamp, s, Look, requests, searches, grants)
  {
    NothingAdded(requests);
    NothingAdded(searches);
    NothingAdded(grants);
    if s.active.Some? && s.active.value.Checking? && s.active.value.n > MAX_NUMBERED_DOWNLOAD_ATTEMPTS {
      var k, path := FallbackGrant(stamp, s);
      ClaimInTurn(stamp, s.(stagedRequests := k), path, requests, searches, grants);
      GrantOfOne(Granted(path));
    }
  }

  lemma FallbackGrant(stamp: Name, s: Shell) returns (k: nat, path: Name)
    requires s.active.Some? && s.active.value.Checking? && s.active.value.n > MAX_NUMBERED_DOWNLOAD_ATTEMPTS
    ensures Take(stamp, s, Look) == Claim(s.(stagedRequests := k), path)
    ensures PathFor(stamp, s.active.value.name, path)
  {
    k := s.stagedRequests + 1;
    path := Stamped(stamp, s.active.value.name, k);
  }

  lemma StatGrant(stamp: Name, s: Shell) returns (path: Name)
    requires s.active.Some? && s.active.value.Statting? && s.active.value.absent
    requires s.active.value.n <= MAX_NUMBERED_DOWNLOAD_ATTEMPTS
    ensures Take(stamp, s, StatAnswers(NotFound)) == Claim(s, path)
    ensures PathFor(stamp, s.active.value.name, path)
  {
    path := Candidate(s.active.value.name, s.active.value.n);
  }

  lemma StatInTurn(stamp: Name, s: Shell, answer: Answer, requests: seq<Name>, searches: seq<Name>,
                   grants: seq<Name>)
    requires InTurn(stamp, s, requests, searches, grants)
    ensures StaysInTurn(stamp, s, StatAnswers(answer), requests, searches, grants)
  {
    NothingAdded(requests);
    NothingAdded(searches);
    NothingAdded(grants);
    if s.active.Some? && s.active.value.Statting? && answer == NotFound && s.active.value.absent {
      var path := StatGrant(stamp, s);
      ClaimInTurn(stamp, s, path, requests, searches, grants);
      GrantOfOne(Granted(path));
    }
  }

  lemma TakeInTurn(stamp: Name, s: Shell, step: Step, requests: seq<Name>, searches: seq<Name>, grants: seq<Name>)
    requires InTurn(stamp, s, requests, searches, grants)
    ensures StaysInTurn(stamp, s, step, requests, searches, grants)
  {
    match step
    case Request(name) => RequestInTurn(stamp, s, name, requests, searches, grants);
    case BeginSearch => BeginInTurn(stamp, s, requests, searches, grants);
    case Look => LookInTurn(stamp, s, requests, searches, grants);
    case StatAnswers(answer) => StatInTurn(stamp, s, answer, requests, searches, grants);
    case _ => QuietInTurn(stamp, s, step, requests, searches, grants);
  }

  /** In every run searches begin in the order of the requests, and each but the last has been given its path. */
  lemma {:induction false} ServedInOrder(stamp: Name, files: set<Name>, run: seq<Step>)
    ensures var (s, log) := Run(stamp, files, run);
      InTurn(stamp, s, Requests(run), Searches(stamp, files, run), Grants(log))
  {
    if run != [] {
      var front, last := run[..|run| - 1], run[|run| - 1];
      var (s, log) := Run(stamp, files, front);
      ServedInOrder(stamp, files, front);
      TakeInTurn(stamp, s, last, Requests(front), Searches(stamp, files, front), Grants(log));
      AppendGrant(log, Take(stamp, s, last).1);
    }
  }

  // ----------------------------------------------------------- main results

  /**
   In every run, whatever the interleaving: the k-th search to begin is for the k-th request, and the k-th path
   granted is one for that request.
  */
  lemma {:induction false} RequestsAreServedInOrder(stamp: Name, files: set<Name>, run: seq<Step>, k: nat)
    ensures var searches, grants := Searches(stamp, files, run), Grants(Run(stamp, files, run).1);
      && |grants| <= |searches| <= |grants| + 1 && |searches| <= |Requests(run)|
      && (k < |searches| ==> searches[k] == Requests(run)[k])
      && (k < |grants| ==> PathFor(stamp, Requests(run)[k], grants[k]))
  {
    ServedInOrder(stamp, files, run);
  }
}
