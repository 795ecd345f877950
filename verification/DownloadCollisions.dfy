/**
 Exactly when two downloads can meet on a path: when a search that ran out of numbers falls back to a path that a
 download holds or has filled. The fallback is claimed without looking, so this is the one gap in the exclusion;
 it opens only for names that spell the launch stamp, and here is a run through it.
*/
module DownloadCollisions {
  import opened DownloadClaims
  import opened DownloadExclusion
  import opened DownloadNames
  import opened FileNames
  import opened Wrappers

  // --------------------------------------------------------- the exact guard

  /** Downloads are apart: one holder a path, and no path about to be written is one this launch has filled. */
  ghost predicate Apart(s: Shell, log: seq<Event>)
  {
    OneHolder(s) && forall p: Name :: p in s.granted ==> p !in Filled(log)
  }

  /** The search has run out of numbers. */
  predicate RanOut(s: Shell)
  {
    s.active.Some? && s.active.value.Checking? && s.active.value.n > MAX_NUMBERED_DOWNLOAD_ATTEMPTS
  }

  /** It has, and its fallback is a path some download holds or has filled. */
  predicate FallsOnTaken(stamp: Name, s: Shell, log: seq<Event>, step: Step)
  {
    && step.Look? && RanOut(s)
    && var path := Stamped(stamp, s.active.value.name, s.stagedRequests + 1);
       path in s.claimed || path in Filled(log)
  }

  /** A stat that is out asks for a path nobody holds, and found it absent only if it is. */
  ghost predicate Asking(s: Shell, log: seq<Event>)
  {
    && Filled(log) <= s.files
    && (s.active.Some? && s.active.value.Statting? ==>
          var path := Candidate(s.active.value.name, s.active.value.n);
          path !in s.claimed && (s.active.value.absent ==> path !in s.files))
  }

  lemma ClaimKeepsOneHolderIff(s: Shell, path: Name)
    requires OneHolder(s)
    ensures OneHolder(Claim(s, path).0) <==> path !in s.claimed
  {
    var next := Claim(s, path).0;
    assert s.granted[path] + s.writes[path] == if path in s.claimed then 1 else 0;
    assert next.granted[path] + next.writes[path] == s.granted[path] + s.writes[path] + 1;
    assert forall p: Name :: p != path ==> next.granted[p] == s.granted[p] && next.writes[p] == s.writes[p];
  }

  /** A claim keeps downloads apart if and only if nobody holds the path or has filled it. */
  lemma {:induction false} ClaimKeepsIff(stamp: Name, s: Shell, log: seq<Event>, path: Name)
    requires Apart(s, log)
    ensures Filled(log + [Granted(path)]) == Filled(log)
    ensures Apart(Claim(s, path).0, log + [Granted(path)]) <==> path !in s.claimed && path !in Filled(log)
  {
    var next := Claim(s, path).0;
    Append(stamp, log, Granted(path));
    ClaimKeepsOneHolderIff(s, path);
    assert path in next.granted;
    assert forall p: Name :: p != path ==> next.granted[p] == s.granted[p];
  }

  ghost predicate LeavesApart(reaction: Reaction, log: seq<Event>)
  {
    Apart(reaction.0, log + reaction.1) == true
  }

  ghost predicate LeavesAsking(reaction: Reaction, log: seq<Event>)
  {
    Asking(reaction.0, log + reaction.1) == true
  }

  /** What a step does to downloads that are apart: they stay so, or the search has just fallen on a taken path. */
  ghost predicate KeepsApartIff(stamp: Name, s: Shell, log: seq<Event>, step: Step)
  {
    && LeavesAsking(Take(stamp, s, step), log)
    && (LeavesApart(Take(stamp, s, step), log) <==> !FallsOnTaken(stamp, s, log, step))
  }

  lemma QuietLeaves(s: Shell, log: seq<Event>)
    requires Apart(s, log) && Asking(s, log)
    ensures LeavesAsking((s, []), log) && LeavesApart((s, []), log)
  {
    assert log + [] == log;
  }

  lemma CandidateLeaves(s: Shell, log: seq<Event>, name: Name, n: nat)
    requires Apart(s, log) && Asking(s, log)
    ensures LeavesAsking(OnCandidate(s, name, n), log) && LeavesApart(OnCandidate(s, name, n), log)
  {
    assert log + [] == log;
  }

  lemma {:induction false} ClaimLeaves(stamp: Name, s: Shell, log: seq<Event>, k: nat, path: Name)
    requires Apart(s, log) && Asking(s, log)
    ensures LeavesAsking(Claim(s.(stagedRequests := k), path), log)
    ensures LeavesApart(Claim(s.(stagedRequests := k), path), log) <==> path !in s.claimed && path !in Filled(log)
  {
    ClaimKeepsIff(stamp, s.(stagedRequests := k), log, path);
  }

  lemma LookFallsBack(stamp: Name, s: Shell, log: seq<Event>) returns (k: nat, path: Name)
    requires RanOut(s)
    ensures Take(stamp, s, Look) == Claim(s.(stagedRequests := k), path)
    ensures FallsOnTaken(stamp, s, log, Look) <==> path in s.claimed || path in Filled(log)
  {
    k := s.stagedRequests + 1;
    path := Stamped(stamp, s.active.value.name, k);
  }

  lemma FallbackKeepsIff(stamp: Name, s: Shell, log: seq<Event>)
    requires Apart(s, log) && Asking(s, log) && RanOut(s)
    ensures KeepsApartIff(stamp, s, log, Look)
  {
    var k, path := LookFallsBack(stamp, s, log);
    ClaimLeaves(stamp, s, log, k, path);
  }

  lemma LookKeepsIff(stamp: Name, s: Shell, log: seq<Event>)
    requires Apart(s, log) && Asking(s, log)
    ensures KeepsApartIff(stamp, s, log, Look)
  {
    if s.active.None? || !s.active.value.Checking? {
      QuietLeaves(s, log);
    } else if RanOut(s) {
      FallbackKeepsIff(stamp, s, log);
    } else {
      CandidateLeaves(s, log, s.active.value.name, s.active.value.n);
    }
  }

  lemma {:induction false} ClaimLeavesAsIs(stamp: Name, s: Shell, log: seq<Event>, path: Name)
    requires Apart(s, log) && Asking(s, log)
    ensures LeavesAsking(Claim(s, path), log)
    ensures LeavesApart(Claim(s, path), log) <==> path !in s.claimed && path !in Filled(log)
  {
    ClaimLeaves(stamp, s, log, s.stagedRequests, path);
  }

  lemma StatClaims(stamp: Name, s: Shell, log: seq<Event>) returns (path: Name)
    requires s.active.Some? && s.active.value.Statting? && s.active.value.absent && Asking(s, log)
    ensures Take(stamp, s, StatAnswers(NotFound)) == Claim(s, path) && path !in s.claimed && path !in s.files
  {
    path := Candidate(s.active.value.name, s.active.value.n);
  }

  lemma SearchLeaves(s: Shell, log: seq<Event>, active: Option<Search>)
    requires Apart(s, log) && Asking(s, log) && (active.None? || active.value.Checking?)
    ensures LeavesAsking((s.(active := active), []), log) && LeavesApart((s.(active := active), []), log)
  {
    assert log + [] == log;
  }

  lemma ConfirmedKeepsIff(stamp: Name, s: Shell, log: seq<Event>)
    requires Apart(s, log) && Asking(s, log)
    requires s.active.Some? && s.active.value.Statting? && s.active.value.absent
    ensures KeepsApartIff(stamp, s, log, StatAnswers(NotFound))
  {
    var path := StatClaims(stamp, s, log);
    ClaimLeavesAsIs(stamp, s, log, path);
  }

  /** Any other answer moves at most the search, and then to another look. */
  lemma StatMoves(stamp: Name, s: Shell, answer: Answer) returns (active: Option<Search>)
    requires s.active.None? || !s.active.value.Statting? || answer != NotFound || !s.active.value.absent
    ensures Take(stamp, s, StatAnswers(answer)) == (s.(active := active), [])
    ensures active != s.active ==> active.Some? && active.value.Checking?
    ensures active == s.active ==> s.(active := active) == s
  {
    active := Take(stamp, s, StatAnswers(answer)).0.active;
  }

  lemma StatKeepsIff(stamp: Name, s: Shell, log: seq<Event>, answer: Answer)
    requires Apart(s, log) && Asking(s, log)
    ensures KeepsApartIff(stamp, s, log, StatAnswers(answer))
  {
    if s.active.Some? && s.active.value.Statting? && answer == NotFound && s.active.value.absent {
      ConfirmedKeepsIff(stamp, s, log);
    } else {
      var active := StatMoves(stamp, s, answer);
      if active == s.active { QuietLeaves(s, log); } else { SearchLeaves(s, log, active); }
    }
  }

  lemma StartKeepsIff(stamp: Name, s: Shell, log: seq<Event>, path: Name)
    requires Apart(s, log) && Asking(s, log)
    ensures KeepsApartIff(stamp, s, log, WriteStarts(path))
  {
    if path in s.granted {
      var next := Take(stamp, s, WriteStarts(path)).0;
      Append(stamp, log, Started(path, path in s.files));
      assert forall p: Name :: next.granted[p] + next.writes[p] == s.granted[p] + s.writes[p];
      assert forall p: Name :: p in next.granted ==> p in s.granted;
    } else {
      QuietLeaves(s, log);
    }
  }

  lemma LandKeepsIff(stamp: Name, s: Shell, log: seq<Event>, path: Name)
    requires Apart(s, log) && Asking(s, log)
    ensures KeepsApartIff(stamp, s, log, WriteLands(path))
  {
    if path in s.writes {
      assert s.granted[path] + s.writes[path] == if path in s.claimed then 1 else 0;
      Append(stamp, log, Landed(path));
    } else {
      QuietLeaves(s, log);
    }
  }

  lemma SettleKeepsIff(stamp: Name, s: Shell, log: seq<Event>, path: Name)
    requires Apart(s, log) && Asking(s, log)
    ensures KeepsApartIff(stamp, s, log, WriteSettles(path))
  {
    if path in s.writes {
      assert s.granted[path] + s.writes[path] == if path in s.claimed then 1 else 0;
      Append(stamp, log, Released(path));
    } else {
      QuietLeaves(s, log);
    }
  }

  lemma StepKeepsIff(stamp: Name, s: Shell, log: seq<Event>, step: Step)
    requires Apart(s, log) && Asking(s, log)
    ensures KeepsApartIff(stamp, s, log, step)
  {
    match step
    case Look => LookKeepsIff(stamp, s, log);
    case StatAnswers(answer) => StatKeepsIff(stamp, s, log, answer);
    case WriteStarts(path) => StartKeepsIff(stamp, s, log, path);
    case WriteLands(path) => LandKeepsIff(stamp, s, log, path);
    case WriteSettles(path) => SettleKeepsIff(stamp, s, log, path);
    case _ => assert log + [] == log;
  }

  /** The state and the log after the first k steps of the run. */
  function After(stamp: Name, files: set<Name>, run: seq<Step>, k: nat): Reaction
  {
    Run(stamp, files, if k <= |run| then run[..k] else run)
  }

  ghost function ApartAfter(stamp: Name, files: set<Name>, run: seq<Step>): nat -> bool
  {
    (k: nat) => Apart(After(stamp, files, run, k).0, After(stamp, files, run, k).1)
  }

  ghost function AskingAfter(stamp: Name, files: set<Name>, run: seq<Step>): nat -> bool
  {
    (k: nat) => Asking(After(stamp, files, run, k).0, After(stamp, files, run, k).1)
  }

  /** Whether step k of the run is a search falling back to a path that is held or filled. */
  ghost function FallsAt(stamp: Name, files: set<Name>, run: seq<Step>): nat -> bool
  {
    (k: nat) => k < |run| && FallsOnTaken(stamp, After(stamp, files, run, k).0, After(stamp, files, run, k).1, run[k])
  }

  lemma StartsApart(stamp: Name, files: set<Name>, run: seq<Step>)
    ensures ApartAfter(stamp, files, run)(0) && AskingAfter(stamp, files, run)(0)
  {
    assert run[..0] == [];
  }

  lemma OneStepOn(stamp: Name, files: set<Name>, run: seq<Step>, k: nat)
    requires k < |run|
    ensures After(stamp, files, run, k + 1).0 == Take(stamp, After(stamp, files, run, k).0, run[k]).0
    ensures After(stamp, files, run, k + 1).1
         == After(stamp, files, run, k).1 + Take(stamp, After(stamp, files, run, k).0, run[k]).1
  {
    assert run[..k + 1][..k] == run[..k];
  }

  lemma NextIsApartIff(stamp: Name, files: set<Name>, run: seq<Step>, k: nat)
    requires k < |run| && ApartAfter(stamp, files, run)(k) && AskingAfter(stamp, files, run)(k)
    ensures AskingAfter(stamp, files, run)(k + 1)
    ensures ApartAfter(stamp, files, run)(k + 1) <==> !FallsAt(stamp, files, run)(k)
  {
    OneStepOn(stamp, files, run, k);
    StepKeepsIff(stamp, After(stamp, files, run, k).0, After(stamp, files, run, k).1, run[k]);
  }

  /** What holds at first, and at each next step unless there is a fall, holds to the end just when nothing falls. */
  lemma {:induction false} HoldsUntilFall(apart: nat -> bool, asking: nat -> bool, falls: nat -> bool, n: nat)
    requires apart(0) && asking(0)
    requires forall k: nat :: k < n && apart(k) && asking(k) ==> asking(k + 1) && (apart(k + 1) <==> !falls(k))
    ensures (forall k: nat :: k <= n ==> apart(k)) <==> (forall k: nat :: k < n ==> !falls(k))
    ensures (forall k: nat :: k <= n ==> apart(k)) ==> asking(n)
  {
    if n > 0 {
      var m: nat := n - 1;
      HoldsUntilFall(apart, asking, falls, m);
      if forall k: nat :: k <= m ==> apart(k) {
        assert apart(m) && asking(m) && (apart(m + 1) <==> !falls(m));
      }
    }
  }

  /**
   In every run, whatever the names: no two downloads ever hold one path, and none is ever about to write to a
   path another has filled, if and only if no search ever falls back to a path that is held or filled.
  */
  lemma ExclusionIff(stamp: Name, files: set<Name>, run: seq<Step>)
    ensures (forall k: nat :: k <= |run| ==> ApartAfter(stamp, files, run)(k))
       <==> (forall k: nat :: k < |run| ==> !FallsAt(stamp, files, run)(k))
  {
    var apart, asking := ApartAfter(stamp, files, run), AskingAfter(stamp, files, run);
    var falls := FallsAt(stamp, files, run);
    StartsApart(stamp, files, run);
    forall k: nat | k < |run| && apart(k) && asking(k) ensures asking(k + 1) && (apart(k + 1) <==> !falls(k)) {
      NextIsApartIff(stamp, files, run, k);
    }
    HoldsUntilFall(apart, asking, falls, |run|);
  }

  /** Names that do not spell the stamp are enough: then no search falls on a taken path in any run. */
  lemma CleanRunNeverFalls(stamp: Name, files: set<Name>, run: seq<Step>)
    requires LaunchStamp(stamp) && CleanRun(stamp, run)
    ensures forall k: nat :: k < |run| ==> !FallsAt(stamp, files, run)(k)
  {
    forall k: nat | k <= |run| ensures ApartAfter(stamp, files, run)(k) {
      RunKeeps(stamp, files, run[..k]);
    }
    ExclusionIff(stamp, files, run);
  }

  /** The guard of the one step: from one holder a path, the fallback keeps it so just when its path is unclaimed. */
  lemma FallbackKeepsOneHolderIff(stamp: Name, s: Shell, name: Name)
    requires OneHolder(s)
    ensures OneHolder(ClaimFallback(stamp, s, name).0) <==> Stamped(stamp, name, s.stagedRequests + 1) !in s.claimed
  {
    ClaimKeepsOneHolderIff(s.(stagedRequests := s.stagedRequests + 1), Stamped(stamp, name, s.stagedRequests + 1));
  }

  // ------------------------------------------------------- a run through the gap

  lemma {:induction false} ExecGoesOn(stamp: Name, s: Shell, steps: seq<Step>, more: seq<Step>)
    ensures Exec(stamp, s, steps + more) == Exec(stamp, Exec(stamp, s, steps), more)
    decreases |steps|
  {
    if steps == [] {
      assert steps + more == more;
    } else {
      assert steps + more == [steps[0]] + (steps[1..] + more);
      Runs(stamp, s, steps[0], steps[1..] + more);
      ExecGoesOn(stamp, Take(stamp, s, steps[0]).0, steps[1..], more);
    }
  }

  /** A run leaves what its steps, taken one after the other from the launch, leave. */
  lemma {:induction false} RunIsExec(stamp: Name, files: set<Name>, run: seq<Step>)
    ensures Run(stamp, files, run).0 == Exec(stamp, Launched(files), run)
  {
    if run != [] {
      var front, last := run[..|run| - 1], run[|run| - 1];
      RunIsExec(stamp, files, front);
      ExecGoesOn(stamp, Launched(files), front, [last]);
      Runs(stamp, Exec(stamp, Launched(files), front), last, []);
      assert run == front + [last] && [last] == [last] + [];
    }
  }

  /** A download whose plain path is free gets it. */
  lemma PlainIsGranted(stamp: Name, s: Shell, name: Name) returns (steps: seq<Step>)
    requires s.active.None? && s.queue == [] && !Taken(s, name)
    ensures Exec(stamp, s, steps) == Claim(s, name).0
  {
    var first: seq<Step> := [Look] + ([StatAnswers(NotFound)] + []);
    TakesFree(stamp, s, name, 1);
    steps := Begins(stamp, s, name, first);
  }

  /** A request that finds nothing before it in the queue begins its search. */
  lemma Begins(stamp: Name, s: Shell, name: Name, rest: seq<Step>) returns (steps: seq<Step>)
    requires s.active.None? && s.queue == []
    ensures Exec(stamp, s, steps) == Exec(stamp, At(s, name, 1), rest)
  {
    steps := [Request(name)] + ([BeginSearch] + rest);
    assert s.queue + [name] == [name] && [name][1..] == s.queue;
    Runs(stamp, s, Request(name), [BeginSearch] + rest);
    Runs(stamp, s.(queue := [name]), BeginSearch, rest);
  }

  /** A download whose candidates all exist gets the fallback. */
  lemma FallbackIsGranted(stamp: Name, s: Shell, name: Name) returns (steps: seq<Step>)
    requires s.active.None? && s.queue == []
    requires forall n: nat :: 1 <= n <= MAX_NUMBERED_DOWNLOAD_ATTEMPTS ==> TakenNames(s, name)(n)
    ensures Exec(stamp, s, steps) == ClaimFallback(stamp, s, name).0
  {
    var search := SearchFindsFirstFree(stamp, s, name);
    steps := Begins(stamp, s, name, search);
  }

  lemma {:induction false} BothWritesStart(stamp: Name, s: Shell, path: Name)
    requires s.granted[path] == 2
    ensures Exec(stamp, s, [WriteStarts(path)] + ([WriteStarts(path)] + [])).writes[path] == s.writes[path] + 2
  {
    var once := Take(stamp, s, WriteStarts(path)).0;
    Runs(stamp, s, WriteStarts(path), [WriteStarts(path)] + []);
    Runs(stamp, once, WriteStarts(path), []);
    assert once.granted[path] == 1 && once.writes[path] == s.writes[path] + 1;
  }

  /** The twenty candidates of a name. */
  function Candidates(name: Name): set<Name>
  {
    set n: nat | 1 <= n <= MAX_NUMBERED_DOWNLOAD_ATTEMPTS :: Candidate(name, n)
  }

  /** With every candidate of one name there, and its fallback path asked for by name first, two writes meet. */
  lemma TwoWritesMeetOn(stamp: Name, name: Name, path: Name) returns (run: seq<Step>)
    requires path == Stamped(stamp, name, 1) && path !in Candidates(name)
    ensures Run(stamp, Candidates(name), run).0.writes[path] == 2
  {
    var launched := Launched(Candidates(name));
    var granted := Claim(launched, path).0;
    var first := PlainIsGranted(stamp, launched, path);
    var second := FallbackIsGranted(stamp, granted, name);
    var starts: seq<Step> := [WriteStarts(path)] + ([WriteStarts(path)] + []);
    ExecGoesOn(stamp, launched, first, second + starts);
    ExecGoesOn(stamp, granted, second, starts);
    BothWritesStart(stamp, Claim(granted.(stagedRequests := 1), path).0, path);
    run := first + (second + starts);
    RunIsExec(stamp, Candidates(name), run);
  }

  /** What spells the stamp is no candidate of a name that does not. */
  lemma StampedIsNoCandidate(stamp: Name, name: Name, path: Name)
    requires LaunchStamp(stamp) && Free(stamp, name) && !Free(stamp, path)
    ensures path !in Candidates(name)
  {
    forall n: nat | n <= MAX_NUMBERED_DOWNLOAD_ATTEMPTS ensures Candidate(name, n) != path {
      CandidateIsFree(stamp, name, n);
    }
  }

  /** One character is too short to spell the stamp, and the fallback of anything spells it. */
  lemma SerialSpells(stamp: Name)
    requires LaunchStamp(stamp)
    ensures Free(stamp, [0x78]) && !Free(stamp, [0x78] + Serial(stamp, 1))
  {
    assert OccursAt([0x78] + Serial(stamp, 1), stamp, 2);
  }

  /**
   Under every launch stamp: with "x" and its numbered variants on the disk, a download named as the fallback of "x"
   and then one named "x" are given one path, and both write to it.
  */
  lemma TwoWritesMeet(stamp: Name) returns (run: seq<Step>)
    requires LaunchStamp(stamp) && |stamp| <= 100
    ensures Run(stamp, Candidates([0x78]), run).0.writes[[0x78] + Serial(stamp, 1)] == 2
  {
    StampedCanCollide(stamp);
    SerialSpells(stamp);
    StampedIsNoCandidate(stamp, [0x78], [0x78] + Serial(stamp, 1));
    run := TwoWritesMeetOn(stamp, [0x78], [0x78] + Serial(stamp, 1));
  }
}
