/**
 How a search for a free download path goes, told from the run: it moves to the next candidate exactly when one is
 refused, and falls back to the stamp exactly after twenty refusals.
*/
module DownloadSearch {
  import opened DownloadClaims
  import opened DownloadNames
  import opened FileNames
  import opened Wrappers

  const CANDIDATES: nat := 20

  /** A search is under way for `name`, and has not asked the file system since the last refusal. */
  predicate Looks(s: Shell, step: Step)
  {
    step.Look? && s.active.Some? && s.active.value.Checking?
  }

  predicate Answers(s: Shell, step: Step)
  {
    step.StatAnswers? && s.active.Some? && s.active.value.Statting?
  }

  /** The step refuses the candidate that comes after `refused` others: it is claimed, or not known to be absent. */
  predicate Refuses(s: Shell, step: Step, refused: nat)
  {
    || (Looks(s, step) && refused < CANDIDATES && Candidate(s.active.value.name, refused + 1) in s.claimed)
    || (Answers(s, step) && step.answer != NotFound)
  }

  /** How many candidates were refused since the last search began. */
  function Refusals(stamp: Name, files: set<Name>, run: seq<Step>): nat
  {
    if run == [] then 0
    else
      var front, step := run[..|run| - 1], run[|run| - 1];
      var (s, refused) := (Run(stamp, files, front).0, Refusals(stamp, files, front));
      if step.BeginSearch? && s.active.None? then 0
      else if Refuses(s, step, refused) then refused + 1
      else refused
  }

  predicate FallsBack(s: Shell, step: Step, refused: nat)
  {
    Looks(s, step) && refused == CANDIDATES
  }

  /** How many serial numbers were used: one by each share that was staged, and one by each fallback. */
  function Serials(stamp: Name, files: set<Name>, run: seq<Step>): nat
  {
    if run == [] then 0
    else
      var front, step := run[..|run| - 1], run[|run| - 1];
      var falls := FallsBack(Run(stamp, files, front).0, step, Refusals(stamp, files, front));
      Serials(stamp, files, front) + if step.StageShare? || falls then 1 else 0
  }

  /** The search stands at the candidate after those refused; the file system was asked of it truthfully. */
  ghost predicate StandsAt(s: Shell, refused: nat, serials: nat)
  {
    && s.stagedRequests == serials
    && (s.active.Some? ==> refused <= CANDIDATES && s.active.value.n == refused + 1)
    && (s.active.Some? && s.active.value.Statting? ==> refused < CANDIDATES)
  }

  function RefusedAfter(s: Shell, step: Step, refused: nat): nat
  {
    if step.BeginSearch? && s.active.None? then 0 else if Refuses(s, step, refused) then refused + 1 else refused
  }

  lemma LookStands(stamp: Name, s: Shell, refused: nat, serials: nat)
    requires StandsAt(s, refused, serials) == true
    ensures StandsAt(OnLook(stamp, s).0, RefusedAfter(s, Look, refused),
                     serials + if FallsBack(s, Look, refused) then 1 else 0) == true
  {
  }

  lemma StatStands(stamp: Name, s: Shell, answer: Answer, refused: nat, serials: nat)
    requires StandsAt(s, refused, serials) == true
    ensures StandsAt(OnStatAnswers(s, answer).0, RefusedAfter(s, StatAnswers(answer), refused), serials) == true
  {
  }

  lemma OthersStand(stamp: Name, s: Shell, step: Step, refused: nat, serials: nat)
    requires StandsAt(s, refused, serials) == true && !step.Look? && !step.StatAnswers?
    ensures StandsAt(Take(stamp, s, step).0, RefusedAfter(s, step, refused),
                     serials + if step.StageShare? then 1 else 0) == true
  {
  }

  lemma TakeStands(stamp: Name, s: Shell, step: Step, refused: nat, serials: nat)
    requires StandsAt(s, refused, serials) == true
    ensures StandsAt(Take(stamp, s, step).0, RefusedAfter(s, step, refused),
                     serials + if step.StageShare? || FallsBack(s, step, refused) then 1 else 0) == true
  {
    if step.Look? {
      LookStands(stamp, s, refused, serials);
    } else if step.StatAnswers? {
      StatStands(stamp, s, step.answer, refused, serials);
    } else {
      OthersStand(stamp, s, step, refused, serials);
    }
  }

  lemma {:induction false} SearchStands(stamp: Name, files: set<Name>, run: seq<Step>)
    ensures StandsAt(Run(stamp, files, run).0, Refusals(stamp, files, run), Serials(stamp, files, run)) == true
  {
    if run != [] {
      var front, step := run[..|run| - 1], run[|run| - 1];
      SearchStands(stamp, files, front);
      TakeStands(stamp, Run(stamp, files, front).0, step, Refusals(stamp, files, front), Serials(stamp, files, front));
    }
  }

  /** The path the step gives the search under way, if it gives one. */
  function Gives(stamp: Name, s: Shell, step: Step, refused: nat, serials: nat): Option<Name>
  {
    if FallsBack(s, step, refused) then Some(Stamped(stamp, s.active.value.name, serials + 1))
    else if Answers(s, step) && step.answer == NotFound && s.active.value.absent
    then Some(Candidate(s.active.value.name, refused + 1))
    else None
  }

  // ----------------------------------------------------------- main results

  /**
   In every run, whatever comes between its steps, a search under way is given the candidate after those refused when
   the file system finds no such file, and the fallback of the next unused serial number when all twenty were refused.
   It is given a path at no other time, ends with it, and until then it goes on for the same name.
  */
  lemma {:induction false} SearchGivesIff(stamp: Name, files: set<Name>, run: seq<Step>, step: Step, path: Name)
    ensures var s := Run(stamp, files, run).0;
      var (next, events) := Take(stamp, s, step);
      var given := Gives(stamp, s, step, Refusals(stamp, files, run), Serials(stamp, files, run));
      && (Granted(path) in events <==> given == Some(path))
      && (s.active.Some? ==>
            if given.Some? then next.active.None?
            else next.active.Some? && next.active.value.name == s.active.value.name)
  {
    SearchStands(stamp, files, run);
    GivenIsGranted(stamp, Run(stamp, files, run).0, step, Refusals(stamp, files, run), Serials(stamp, files, run));
  }

  /** The step shows a grant of `given` and nothing else to that effect, and the search goes on without one. */
  ghost predicate GivesJust(s: Shell, reaction: Reaction, given: Option<Name>)
  {
    var (next, events) := reaction;
    && (forall path :: Granted(path) in events <==> given == Some(path))
    && (s.active.Some? ==>
          if given.Some? then next.active.None?
          else next.active.Some? && next.active.value.name == s.active.value.name)
  }

  lemma ClaimGives(s: Shell, from: Shell, path: Name)
    ensures GivesJust(s, Claim(from, path), Some(path)) == true
  {
    assert Claim(from, path).1 == [Granted(path)];
  }

  lemma LookGives(stamp: Name, s: Shell, refused: nat, serials: nat)
    requires StandsAt(s, refused, serials) == true
    ensures GivesJust(s, OnLook(stamp, s), Gives(stamp, s, Look, refused, serials)) == true
  {
    if FallsBack(s, Look, refused) {
      ClaimGives(s, s.(stagedRequests := serials + 1), Stamped(stamp, s.active.value.name, serials + 1));
    }
  }

  lemma StatGives(stamp: Name, s: Shell, answer: Answer, refused: nat, serials: nat)
    requires StandsAt(s, refused, serials) == true
    ensures GivesJust(s, OnStatAnswers(s, answer), Gives(stamp, s, StatAnswers(answer), refused, serials)) == true
  {
    if Answers(s, StatAnswers(answer)) { ClaimGives(s, s, Candidate(s.active.value.name, refused + 1)); }
  }

  lemma OthersGive(stamp: Name, s: Shell, step: Step)
    requires !step.Look? && !step.StatAnswers?
    ensures GivesJust(s, Take(stamp, s, step), None) == true
  {
    var events := Take(stamp, s, step).1;
    if events != [] { assert events == [events[0]] && !events[0].Granted?; }
  }

  lemma GivenIsGranted(stamp: Name, s: Shell, step: Step, refused: nat, serials: nat)
    requires StandsAt(s, refused, serials) == true
    ensures GivesJust(s, Take(stamp, s, step), Gives(stamp, s, step, refused, serials)) == true
  {
    if step.Look? {
      LookGives(stamp, s, refused, serials);
    } else if step.StatAnswers? {
      StatGives(stamp, s, step.answer, refused, serials);
    } else {
      OthersGive(stamp, s, step);
    }
  }

  /**
   In every run, looking at the next candidate refuses it if it is claimed, and else asks the file system whether
   that very path is there.
  */
  lemma {:induction false} CandidatesAreAsked(stamp: Name, files: set<Name>, run: seq<Step>, path: Name)
    ensures var s, refused := Run(stamp, files, run).0, Refusals(stamp, files, run);
      Looks(s, Look) && refused < CANDIDATES && path == Candidate(s.active.value.name, refused + 1) ==>
        if path in s.claimed then Refuses(s, Look, refused)
        else Take(stamp, s, Look).0.active == Some(Statting(s.active.value.name, refused + 1, path !in s.files))
  {
    SearchStands(stamp, files, run);
  }
}
