/**
 Download path claims (file-save.ts): a queue of searches, each probing candidates with a conservative stat and
 claiming the first free one, and a set of claimed paths held for the length of a write. The file system, the
 order in which writes land and fail, and the stats' answers are whatever a run says.
*/
module DownloadClaims {
  import opened DownloadNames
  import opened FileNames
  import opened Wrappers

  /** A search at its n-th candidate: about to look, or with a stat out, the path absent or not when it was called. */
  datatype Search = Checking(name: Name, n: nat) | Statting(name: Name, n: nat, absent: bool)

  datatype Answer = Found | NotFound | Failed

  datatype Shell = Shell(
    queue: seq<Name>,            // downloads whose search has not begun, in order
    active: Option<Search>,
    claimed: set<Name>,
    granted: multiset<Name>,     // claims whose write has not started
    writes: multiset<Name>,      // writes in progress, by target
    files: set<Name>,
    stagedRequests: nat)

  datatype Step =
    | Request(name: Name)
    | BeginSearch
    | Look
    | StatAnswers(answer: Answer)
    | WriteStarts(path: Name)
    | WriteLands(path: Name)
    | WriteSettles(path: Name)
    | StageShare

  datatype Event =
    | Granted(path: Name)
    | Started(path: Name, occupied: bool)   // whether a file is there already
    | Landed(path: Name)
    | Released(path: Name)

  type Reaction = (Shell, seq<Event>)

  function Claim(s: Shell, path: Name): Reaction
  {
    (s.(active := None, claimed := s.claimed + {path}, granted := s.granted + multiset{path}), [Granted(path)])
  }

  /** The fallback, of the next serial number. */
  function ClaimFallback(stamp: Name, s: Shell, name: Name): Reaction
  {
    var k := s.stagedRequests + 1;
    Claim(s.(stagedRequests := k), Stamped(stamp, name, k))
  }

  /** A claimed candidate is passed over; any other is asked of the file system. */
  function OnCandidate(s: Shell, name: Name, n: nat): Reaction
  {
    if Candidate(name, n) in s.claimed then (s.(active := Some(Checking(name, n + 1))), [])
    else (s.(active := Some(Statting(name, n, Candidate(name, n) !in s.files))), [])
  }

  function OnLook(stamp: Name, s: Shell): Reaction
  {
    if s.active.None? || !s.active.value.Checking? then (s, [])
    else if s.active.value.n > MAX_NUMBERED_DOWNLOAD_ATTEMPTS then ClaimFallback(stamp, s, s.active.value.name)
    else OnCandidate(s, s.active.value.name, s.active.value.n)
  }

  /** Only a confirmed not-found answers "free"; it is a possible answer only for a path that was absent. */
  function OnStatAnswers(s: Shell, answer: Answer): Reaction
  {
    if s.active.None? || !s.active.value.Statting? then (s, [])
    else
      var search := s.active.value;
      if answer != NotFound then (s.(active := Some(Checking(search.name, search.n + 1))), [])
      else if search.absent then Claim(s, Candidate(search.name, search.n))
      else (s, [])
  }

  function Take(stamp: Name, s: Shell, step: Step): Reaction
  {
    match step
    case Request(name) => (s.(queue := s.queue + [name]), [])
    case BeginSearch =>
      if s.active.Some? || s.queue == [] then (s, [])
      else (s.(active := Some(Checking(s.queue[0], 1)), queue := s.queue[1..]), [])
    case Look => OnLook(stamp, s)
    case StatAnswers(answer) => OnStatAnswers(s, answer)
    case WriteStarts(path) =>
      if path !in s.granted then (s, [])
      else
        (s.(granted := s.granted - multiset{path}, writes := s.writes + multiset{path}),
         [Started(path, path in s.files)])
    case WriteLands(path) =>
      if path !in s.writes then (s, []) else (s.(files := s.files + {path}), [Landed(path)])
    case WriteSettles(path) =>
      if path !in s.writes then (s, [])
      else (s.(writes := s.writes - multiset{path}, claimed := s.claimed - {path}), [Released(path)])
    case StageShare => (s.(stagedRequests := s.stagedRequests + 1), [])
  }

  /** A launch: whatever files were there before, and no download under way. */
  function Launched(files: set<Name>): Shell
  {
    Shell([], None, {}, multiset{}, multiset{}, files, 0)
  }

  function Run(stamp: Name, files: set<Name>, run: seq<Step>): Reaction
  {
    if run == [] then (Launched(files), [])
    else
      var (s, log) := Run(stamp, files, run[..|run| - 1]);
      var (next, events) := Take(stamp, s, run[|run| - 1]);
      (next, log + events)
  }

  // --------------------------------------------------------- the module state

  /** The queue, the claim set and the counter, with the file system they meet. */
  class DownloadPaths {
    const stamp: Name
    var downloadClaimQueue: seq<Name>
    var active: Option<Search>
    var claimedDownloadPaths: set<Name>
    var granted: multiset<Name>
    var writes: multiset<Name>
    var files: set<Name>
    var stagedRequests: nat

    ghost function View(): Shell
      reads this
    {
      Shell(downloadClaimQueue, active, claimedDownloadPaths, granted, writes, files, stagedRequests)
    }

    constructor (stamp: Name, files: set<Name>)
      ensures this.stamp == stamp && View() == Launched(files)
    {
      this.stamp := stamp;
      downloadClaimQueue, active, claimedDownloadPaths := [], None, {};
      granted, writes, this.files, stagedRequests := multiset{}, multiset{}, files, 0;
    }

    method ClaimDownloadPath(name: Name)
      modifies this
      ensures View() == Take(stamp, old(View()), Request(name)).0
    {
      downloadClaimQueue := downloadClaimQueue + [name];
    }

    method RunNextSearch()
      modifies this
      ensures View() == Take(stamp, old(View()), BeginSearch).0
    {
      if active.None? && downloadClaimQueue != [] {
        active := Some(Checking(downloadClaimQueue[0], 1));
        downloadClaimQueue := downloadClaimQueue[1..];
      }
    }

    method Grant(path: Name) returns (events: seq<Event>)
      modifies this
      ensures (View(), events) == Claim(old(View()), path)
    {
      active := None;
      claimedDownloadPaths := claimedDownloadPaths + {path};
      granted := granted + multiset{path};
      events := [Granted(path)];
    }

    method GrantFallback(name: Name) returns (events: seq<Event>)
      modifies this
      ensures (View(), events) == ClaimFallback(stamp, old(View()), name)
    {
      stagedRequests := stagedRequests + 1;
      var path := Stamped(stamp, name, stagedRequests);
      events := Grant(path);
    }

    /** One turn of the search: a claimed candidate is passed over, any other is asked of the file system. */
    method SearchOn() returns (events: seq<Event>)
      modifies this
      ensures (View(), events) == OnLook(stamp, old(View()))
    {
      events := [];
      if active.None? || !active.value.Checking? {
        return;
      }
      var name, n := active.value.name, active.value.n;
      if n > MAX_NUMBERED_DOWNLOAD_ATTEMPTS {
        events := GrantFallback(name);
        return;
      }
      var path := Candidate(name, n);
      if path in claimedDownloadPaths {
        active := Some(Checking(name, n + 1));
      } else {
        active := Some(Statting(name, n, path !in files));
      }
    }

    method OnStat(answer: Answer) returns (events: seq<Event>)
      modifies this
      ensures (View(), events) == OnStatAnswers(old(View()), answer)
    {
      events := [];
      if active.None? || !active.value.Statting? {
        return;
      }
      var search := active.value;
      if answer != NotFound {
        active := Some(Checking(search.name, search.n + 1));
      } else if search.absent {
        events := Grant(Candidate(search.name, search.n));
      }
    }

    method StartWrite(path: Name) returns (events: seq<Event>)
      modifies this
      ensures (View(), events) == Take(stamp, old(View()), WriteStarts(path))
    {
      events := [];
      if path in granted {
        events := [Started(path, path in files)];
        granted := granted - multiset{path};
        writes := writes + multiset{path};
      }
    }

    method ReleaseDownloadPath(path: Name) returns (events: seq<Event>)
      modifies this
      ensures (View(), events) == Take(stamp, old(View()), WriteSettles(path))
    {
      events := [];
      if path in writes {
        writes := writes - multiset{path};
        claimedDownloadPaths := claimedDownloadPaths - {path};
        events := [Released(path)];
      }
    }
  }
}
