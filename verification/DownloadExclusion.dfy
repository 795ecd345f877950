/** No two downloads of one launch meet on a path: what every run of the claims keeps. */
module DownloadExclusion {
  import opened DownloadClaims
  import opened DownloadNames
  import opened FileNames
  import opened Wrappers

  /** The paths downloads of this launch have filled. */
  function Filled(log: seq<Event>): set<Name>
  {
    if log == [] then {}
    else Filled(log[..|log| - 1]) + (if log[|log| - 1].Landed? then {log[|log| - 1].path} else {})
  }

  /** A path that only the fallback gives. */
  ghost predicate IsFallback(stamp: Name, path: Name)
  {
    exists k: nat :: HasSerial(stamp, path, k)
  }

  ghost predicate Safe(stamp: Name, before: seq<Event>, event: Event)
  {
    event.Started? ==> event.path !in Filled(before) && (event.occupied ==> IsFallback(stamp, event.path))
  }

  ghost predicate Sound(stamp: Name, log: seq<Event>)
  {
    log == [] || (Sound(stamp, log[..|log| - 1]) && Safe(stamp, log[..|log| - 1], log[|log| - 1]))
  }

  lemma {:induction false} Append(stamp: Name, log: seq<Event>, event: Event)
    ensures Filled(log + [event]) == Filled(log) + (if event.Landed? then {event.path} else {})
    ensures Sound(stamp, log + [event]) == (Sound(stamp, log) && Safe(stamp, log, event))
  {
    assert (log + [event])[..|log|] == log;
  }

  /** A claim is held by exactly one download, waiting to write or writing. */
  ghost predicate OneHolder(s: Shell)
  {
    forall p: Name :: s.granted[p] + s.writes[p] == if p in s.claimed then 1 else 0
  }

  /** No serial number on a path of this launch is ahead of the counter. */
  ghost predicate SerialsBehind(stamp: Name, s: Shell, log: seq<Event>)
  {
    forall p: Name, k: nat :: (p in s.claimed || p in Filled(log)) && HasSerial(stamp, p, k) ==> k <= s.stagedRequests
  }

  ghost predicate Looking(stamp: Name, s: Shell)
  {
    && (forall i :: 0 <= i < |s.queue| ==> Free(stamp, s.queue[i]))
    && (s.active.Some? ==> Free(stamp, s.active.value.name))
    && (s.active.Some? && s.active.value.Statting? ==>
          var path := Candidate(s.active.value.name, s.active.value.n);
          && s.active.value.n <= MAX_NUMBERED_DOWNLOAD_ATTEMPTS
          && path !in s.claimed && (s.active.value.absent ==> path !in s.files))
  }

  /** A path about to be written holds nothing of this launch, and nothing at all unless it is a fallback. */
  ghost predicate Clear(stamp: Name, s: Shell, log: seq<Event>)
  {
    forall p: Name :: p in s.granted ==> p !in Filled(log) && (p in s.files ==> IsFallback(stamp, p))
  }

  ghost predicate Inv(stamp: Name, s: Shell, log: seq<Event>)
  {
    && Sound(stamp, log) && OneHolder(s) && SerialsBehind(stamp, s, log) && Looking(stamp, s) && Clear(stamp, s, log)
    && Filled(log) <= s.files
  }

  /** The invariant as one claim, not reported conjunct by conjunct. */
  ghost predicate Holds(stamp: Name, s: Shell, log: seq<Event>)
  {
    Inv(stamp, s, log) == true
  }

  ghost predicate Kept(stamp: Name, log: seq<Event>, reaction: Reaction)
  {
    Holds(stamp, reaction.0, log + reaction.1)
  }

  /** Moving only the search keeps the books, as long as what it asks for is in order. */
  lemma SearchMoves(stamp: Name, s: Shell, log: seq<Event>, active: Option<Search>)
    requires Inv(stamp, s, log) && Looking(stamp, s.(active := active))
    ensures Kept(stamp, log, (s.(active := active), []))
  {
    var next := s.(active := active);
    assert log + [] == log;
    assert SerialsBehind(stamp, next, log) && OneHolder(next) && Clear(stamp, next, log);
  }

  lemma KeptQuietly(stamp: Name, s: Shell, log: seq<Event>)
    requires Inv(stamp, s, log)
    ensures Kept(stamp, log, (s, []))
  {
    assert log + [] == log;
  }

  /** Claiming a path that nobody holds, that is clear, and whose serial number is not ahead. */
  lemma {:induction false} ClaimKeeps(stamp: Name, s: Shell, log: seq<Event>, path: Name)
    requires Inv(stamp, s, log) && path !in s.claimed && path !in Filled(log)
    requires path in s.files ==> IsFallback(stamp, path)
    requires forall k: nat :: HasSerial(stamp, path, k) ==> k <= s.stagedRequests
    ensures Kept(stamp, log, Claim(s, path))
  {
    Append(stamp, log, Granted(path));
    assert s.granted[path] + s.writes[path] == 0;
  }

  lemma FallbackKeeps(stamp: Name, s: Shell, log: seq<Event>, name: Name)
    requires LaunchStamp(stamp) && Inv(stamp, s, log) && Free(stamp, name)
    ensures Kept(stamp, log, ClaimFallback(stamp, s, name))
  {
    var k := s.stagedRequests + 1;
    var path := Stamped(stamp, name, k);
    StampedHasSerial(stamp, name, k);
    forall m: nat | HasSerial(stamp, path, m) ensures m == k { SerialIsUnique(stamp, path, m, k); }
    ClaimKeeps(stamp, s.(stagedRequests := k), log, path);
  }

  lemma LookKeeps(stamp: Name, s: Shell, log: seq<Event>)
    requires LaunchStamp(stamp) && Inv(stamp, s, log)
    ensures Kept(stamp, log, OnLook(stamp, s))
  {
    if s.active.None? || !s.active.value.Checking? {
      KeptQuietly(stamp, s, log);
    } else if s.active.value.n > MAX_NUMBERED_DOWNLOAD_ATTEMPTS {
      FallbackKeeps(stamp, s, log, s.active.value.name);
    } else {
      CheckKeeps(stamp, s, log, s.active.value.name, s.active.value.n);
    }
  }

  lemma CheckKeeps(stamp: Name, s: Shell, log: seq<Event>, name: Name, n: nat)
    requires Inv(stamp, s, log) && Free(stamp, name) && n <= MAX_NUMBERED_DOWNLOAD_ATTEMPTS
    ensures Kept(stamp, log, OnCandidate(s, name, n))
  {
    SearchMoves(stamp, s, log, OnCandidate(s, name, n).0.active);
  }

  lemma StatKeeps(stamp: Name, s: Shell, log: seq<Event>, answer: Answer)
    requires LaunchStamp(stamp) && Inv(stamp, s, log)
    ensures Kept(stamp, log, OnStatAnswers(s, answer))
  {
    if s.active.None? || !s.active.value.Statting? {
      KeptQuietly(stamp, s, log);
    } else if answer != NotFound {
      SearchMoves(stamp, s, log, Some(Checking(s.active.value.name, s.active.value.n + 1)));
    } else if !s.active.value.absent {
      KeptQuietly(stamp, s, log);
    } else {
      var search := s.active.value;
      forall k: nat ensures !HasSerial(stamp, Candidate(search.name, search.n), k) {
        CandidateHasNoSerial(stamp, search.name, search.n, k);
      }
      ClaimKeeps(stamp, s, log, Candidate(search.name, search.n));
    }
  }

  lemma StartKeeps(stamp: Name, s: Shell, log: seq<Event>, path: Name)
    requires Inv(stamp, s, log)
    ensures Kept(stamp, log, Take(stamp, s, WriteStarts(path)))
  {
    if path in s.granted {
      var next := Take(stamp, s, WriteStarts(path)).0;
      Append(stamp, log, Started(path, path in s.files));
      assert forall p: Name :: next.granted[p] + next.writes[p] == s.granted[p] + s.writes[p];
      assert forall p: Name :: p in next.granted ==> p in s.granted;
    } else {
      KeptQuietly(stamp, s, log);
    }
  }

  lemma LandKeeps(stamp: Name, s: Shell, log: seq<Event>, path: Name)
    requires Inv(stamp, s, log)
    ensures Kept(stamp, log, Take(stamp, s, WriteLands(path)))
  {
    assert log + [] == log;
    Append(stamp, log, Landed(path));
    assert s.granted[path] + s.writes[path] <= 1;
  }

  lemma SettleKeeps(stamp: Name, s: Shell, log: seq<Event>, path: Name)
    requires Inv(stamp, s, log)
    ensures Kept(stamp, log, Take(stamp, s, WriteSettles(path)))
  {
    assert log + [] == log;
    Append(stamp, log, Released(path));
    assert s.granted[path] + s.writes[path] <= 1;
  }

  /** Requests name nothing that spells the stamp. */
  ghost predicate Clean(stamp: Name, step: Step)
  {
    step.Request? ==> Free(stamp, step.name)
  }

  lemma TakeKeeps(stamp: Name, s: Shell, log: seq<Event>, step: Step)
    requires LaunchStamp(stamp) && Inv(stamp, s, log) && Clean(stamp, step)
    ensures Kept(stamp, log, Take(stamp, s, step))
  {
    match step
    case Look => LookKeeps(stamp, s, log);
    case StatAnswers(answer) => StatKeeps(stamp, s, log, answer);
    case WriteStarts(path) => StartKeeps(stamp, s, log, path);
    case WriteLands(path) => LandKeeps(stamp, s, log, path);
    case WriteSettles(path) => SettleKeeps(stamp, s, log, path);
    case _ => assert log + [] == log;
  }

  ghost predicate CleanRun(stamp: Name, run: seq<Step>)
  {
    forall i :: 0 <= i < |run| ==> Clean(stamp, run[i])
  }

  lemma {:induction false} RunKeeps(stamp: Name, files: set<Name>, run: seq<Step>)
    requires LaunchStamp(stamp) && CleanRun(stamp, run)
    ensures Inv(stamp, Run(stamp, files, run).0, Run(stamp, files, run).1)
  {
    if run != [] {
      var (s, log) := Run(stamp, files, run[..|run| - 1]);
      RunKeeps(stamp, files, run[..|run| - 1]);
      TakeKeeps(stamp, s, log, run[|run| - 1]);
    }
  }

  // ----------------------------------------------------------- main results

  /** A state that some run of one launch leads to, no request of which spells the stamp. */
  ghost predicate Reachable(stamp: Name, s: Shell, log: seq<Event>)
  {
    LaunchStamp(stamp)
    && exists files: set<Name>, run: seq<Step> :: CleanRun(stamp, run) && Run(stamp, files, run) == (s, log)
  }

  lemma ReachableKeeps(stamp: Name, s: Shell, log: seq<Event>)
    requires Reachable(stamp, s, log)
    ensures Holds(stamp, s, log)
  {
    var files: set<Name>, run: seq<Step> :| CleanRun(stamp, run) && Run(stamp, files, run) == (s, log);
    RunKeeps(stamp, files, run);
  }

  /** In every interleaving, two writes in progress never target the same path, and every write holds its claim. */
  lemma WritesExclude(stamp: Name, s: Shell, log: seq<Event>, path: Name)
    requires Reachable(stamp, s, log)
    ensures s.writes[path] + s.granted[path] == if path in s.claimed then 1 else 0
  {
    ReachableKeeps(stamp, s, log);
  }

  lemma {:induction false} EachIsSafe(stamp: Name, log: seq<Event>, i: nat)
    requires Sound(stamp, log) && i < |log|
    ensures Safe(stamp, log[..i], log[i])
  {
    if i < |log| - 1 {
      EachIsSafe(stamp, log[..|log| - 1], i);
      assert log[..|log| - 1][..i] == log[..i];
    }
  }

  /**
   In every interleaving, no write starts on a path that another download of this launch has filled; and none
   starts on any existing file, whoever wrote it, unless the numbered names ran out and it is the fallback.
  */
  lemma NothingIsOverwritten(stamp: Name, s: Shell, log: seq<Event>, i: nat)
    requires Reachable(stamp, s, log) && i < |log| && log[i].Started?
    ensures log[i].path !in Filled(log[..i])
    ensures log[i].occupied ==> IsFallback(stamp, log[i].path)
  {
    ReachableKeeps(stamp, s, log);
    EachIsSafe(stamp, log, i);
  }

  // ------------------------------------------------------- what a search finds

  function Exec(stamp: Name, s: Shell, steps: seq<Step>): Shell
    decreases |steps|
  {
    if steps == [] then s else Exec(stamp, Take(stamp, s, steps[0]).0, steps[1..])
  }

  predicate Taken(s: Shell, path: Name)
  {
    path in s.claimed || path in s.files
  }

  lemma {:induction false} Runs(stamp: Name, s: Shell, step: Step, rest: seq<Step>)
    ensures Exec(stamp, s, [step] + rest) == Exec(stamp, Take(stamp, s, step).0, rest)
  {
    assert ([step] + rest)[1..] == rest;
  }

  /** A search at its n-th candidate, everything else as in `s`. */
  function At(s: Shell, name: Name, n: nat): Shell
  {
    s.(active := Some(Checking(name, n)))
  }

  /** The first number from n on that is not taken; one past the last attempt when all are. */
  function First(taken: nat -> bool, n: nat): (m: nat)
    requires n <= MAX_NUMBERED_DOWNLOAD_ATTEMPTS + 1
    ensures n <= m <= MAX_NUMBERED_DOWNLOAD_ATTEMPTS + 1
    ensures forall j: nat :: n <= j < m ==> taken(j)
    ensures m <= MAX_NUMBERED_DOWNLOAD_ATTEMPTS ==> !taken(m)
    decreases MAX_NUMBERED_DOWNLOAD_ATTEMPTS + 1 - n
  {
    if n <= MAX_NUMBERED_DOWNLOAD_ATTEMPTS && taken(n) then First(taken, n + 1) else n
  }

  function TakenNames(s: Shell, name: Name): nat -> bool
  {
    (n: nat) => Taken(s, Candidate(name, n))
  }

  lemma {:induction false} PassesClaimed(stamp: Name, s: Shell, name: Name, n: nat, rest: seq<Step>)
    requires n <= MAX_NUMBERED_DOWNLOAD_ATTEMPTS && Candidate(name, n) in s.claimed
    ensures Exec(stamp, At(s, name, n), [Look] + rest) == Exec(stamp, At(s, name, n + 1), rest)
  {
    Runs(stamp, At(s, name, n), Look, rest);
  }

  lemma {:induction false} PassesExisting(stamp: Name, s: Shell, name: Name, n: nat, rest: seq<Step>)
    requires n <= MAX_NUMBERED_DOWNLOAD_ATTEMPTS
    requires Candidate(name, n) !in s.claimed && Candidate(name, n) in s.files
    ensures Exec(stamp, At(s, name, n), [Look] + ([StatAnswers(Found)] + rest)) == Exec(stamp, At(s, name, n + 1), rest)
  {
    var looked := s.(active := Some(Statting(name, n, false)));
    assert OnCandidate(At(s, name, n), name, n).0 == looked;
    assert OnStatAnswers(looked, Found).0 == At(s, name, n + 1);
    Runs(stamp, At(s, name, n), Look, [StatAnswers(Found)] + rest);
    Runs(stamp, looked, StatAnswers(Found), rest);
  }

  /** A taken candidate is passed over in one step or two. */
  lemma PassesOver(stamp: Name, s: Shell, name: Name, n: nat, rest: seq<Step>) returns (steps: seq<Step>)
    requires n <= MAX_NUMBERED_DOWNLOAD_ATTEMPTS && TakenNames(s, name)(n)
    ensures |steps| <= |rest| + 2
    ensures Exec(stamp, At(s, name, n), steps) == Exec(stamp, At(s, name, n + 1), rest)
  {
    if Candidate(name, n) in s.claimed {
      steps := [Look] + rest;
      PassesClaimed(stamp, s, name, n, rest);
    } else {
      steps := [Look] + ([StatAnswers(Found)] + rest);
      PassesExisting(stamp, s, name, n, rest);
    }
  }

  lemma {:induction false} PassesTo(stamp: Name, s: Shell, name: Name, n: nat, rest: seq<Step>)
    returns (steps: seq<Step>)
    requires n <= MAX_NUMBERED_DOWNLOAD_ATTEMPTS + 1
    ensures var m := First(TakenNames(s, name), n);
      |steps| <= |rest| + 2 * (m - n) && Exec(stamp, At(s, name, n), steps) == Exec(stamp, At(s, name, m), rest)
    decreases MAX_NUMBERED_DOWNLOAD_ATTEMPTS + 1 - n
  {
    var taken := TakenNames(s, name);
    if n <= MAX_NUMBERED_DOWNLOAD_ATTEMPTS && taken(n) {
      var later := PassesTo(stamp, s, name, n + 1, rest);
      steps := PassesOver(stamp, s, name, n, later);
    } else {
      steps := rest;
    }
  }

  /** A free candidate is claimed in two steps. */
  lemma {:induction false} TakesFree(stamp: Name, s: Shell, name: Name, n: nat)
    requires n <= MAX_NUMBERED_DOWNLOAD_ATTEMPTS && !Taken(s, Candidate(name, n))
    ensures Exec(stamp, At(s, name, n), [Look] + ([StatAnswers(NotFound)] + [])) == Claim(s, Candidate(name, n)).0
  {
    var looked := s.(active := Some(Statting(name, n, true)));
    Runs(stamp, At(s, name, n), Look, [StatAnswers(NotFound)] + []);
    Runs(stamp, looked, StatAnswers(NotFound), []);
  }

  lemma LookFallsBack(stamp: Name, s: Shell, name: Name, n: nat)
    requires n > MAX_NUMBERED_DOWNLOAD_ATTEMPTS
    ensures Take(stamp, At(s, name, n), Look).0 == ClaimFallback(stamp, s, name).0
  {
  }

  lemma {:induction false} RunsOut(stamp: Name, s: Shell)
    ensures Exec(stamp, s, []) == s
  {
  }

  lemma {:induction false} TakesFallback(stamp: Name, s: Shell, name: Name, n: nat)
    requires n > MAX_NUMBERED_DOWNLOAD_ATTEMPTS
    ensures Exec(stamp, At(s, name, n), [Look] + []) == ClaimFallback(stamp, s, name).0
  {
    Runs(stamp, At(s, name, n), Look, []);
    LookFallsBack(stamp, s, name, n);
    RunsOut(stamp, ClaimFallback(stamp, s, name).0);
  }

  /** What a search that ends at its m-th candidate leaves behind: a claim on it, or on the next fallback. */
  function Ended(stamp: Name, s: Shell, name: Name, m: nat): Shell
  {
    if m <= MAX_NUMBERED_DOWNLOAD_ATTEMPTS then Claim(s, Candidate(name, m)).0
    else ClaimFallback(stamp, s, name).0
  }

  lemma EndsHere(stamp: Name, s: Shell, name: Name, m: nat) returns (steps: seq<Step>)
    requires m <= MAX_NUMBERED_DOWNLOAD_ATTEMPTS ==> !TakenNames(s, name)(m)
    ensures |steps| <= 2 && Exec(stamp, At(s, name, m), steps) == Ended(stamp, s, name, m)
  {
    if m <= MAX_NUMBERED_DOWNLOAD_ATTEMPTS {
      steps := [Look] + ([StatAnswers(NotFound)] + []);
      TakesFree(stamp, s, name, m);
    } else {
      steps := [Look] + [];
      TakesFallback(stamp, s, name, m);
    }
  }

  /**
   A search that nothing interrupts, with truthful stats, claims the first of its candidates that is neither
   claimed nor there already; with all of them taken, the fallback of the next serial number. It ends after at
   most two steps a candidate.
  */
  lemma SearchFindsFirstFree(stamp: Name, s: Shell, name: Name) returns (steps: seq<Step>)
    ensures var m := First(TakenNames(s, name), 1);
      |steps| <= 2 * m && Exec(stamp, At(s, name, 1), steps) == Ended(stamp, s, name, m)
  {
    var m := First(TakenNames(s, name), 1);
    var last := EndsHere(stamp, s, name, m);
    steps := PassesTo(stamp, s, name, 1, last);
  }
}
