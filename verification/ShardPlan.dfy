/**
 Dealing spec files into shares of about equal measured time, heaviest file first, each file to the
 lightest share so far (browser-test-shard-plan.ts).

 Timings are exact reals. `locale` stands for `localeCompare` and `units` for the order `sort()` uses
 by default; the results hold for every pair of strict total orders.
*/
module ShardPlan {
  import opened Wrappers
  import opened Sequences

  type File = string
  type Timings = map<File, real>
  type Order = (File, File) -> bool

  datatype Weighted = Weighted(file: File, weight: real)
  datatype Load = Load(files: seq<File>, weight: real)
  datatype PlanError = NoShares

  // -------------------------------------------------------------- weighing

  function Known(files: seq<File>, timings: Timings): seq<real>
  {
    if files == [] then []
    else
      var rest := Known(files[..|files| - 1], timings);
      var file := files[|files| - 1];
      if file in timings then rest + [timings[file]] else rest
  }

  function UnknownWeight(files: seq<File>, timings: Timings): real
  {
    var known := Known(files, timings);
    if known == [] then 1.0 else Sum(known) / (|known| as real)
  }

  function Weigh(timings: Timings, unknown: real): File -> Weighted
  {
    (file: File) => Weighted(file, if file in timings then timings[file] else unknown)
  }

  predicate Heavier(locale: Order, a: Weighted, b: Weighted)
  {
    a.weight > b.weight || (a.weight == b.weight && locale(a.file, b.file))
  }

  function ByWeight(locale: Order): (Weighted, Weighted) -> bool
  {
    (a: Weighted, b: Weighted) => Heavier(locale, a, b)
  }

  function DealOrder(files: seq<File>, timings: Timings, locale: Order): seq<Weighted>
  {
    SortBy(Map(Weigh(timings, UnknownWeight(files, timings)), files), ByWeight(locale))
  }

  // --------------------------------------------------------------- dealing

  /** The first of the lightest shares: what the `reduce` over the shares finds. */
  function Lightest(loads: seq<Load>): (r: nat)
    requires loads != []
    ensures r < |loads|
    ensures forall k :: 0 <= k < |loads| ==> loads[r].weight <= loads[k].weight
    ensures forall k :: 0 <= k < r ==> loads[r].weight < loads[k].weight
  {
    if |loads| == 1 then 0
    else
      var best := Lightest(loads[..|loads| - 1]);
      if loads[|loads| - 1].weight < loads[best].weight then |loads| - 1 else best
  }

  function Deal(loads: seq<Load>, item: Weighted): (r: seq<Load>)
    requires loads != []
    ensures |r| == |loads|
  {
    var k := Lightest(loads);
    loads[k := Load(loads[k].files + [item.file], loads[k].weight + item.weight)]
  }

  function Loads(items: seq<Weighted>, count: nat): (r: seq<Load>)
    requires count > 0
    ensures |r| == count
  {
    if items == [] then seq(count, _ => Load([], 0.0))
    else Deal(Loads(items[..|items| - 1], count), items[|items| - 1])
  }

  function FilesOf(units: Order): Load -> seq<File>
  {
    (load: Load) => SortBy(load.files, units)
  }

  /** The plan: one list of files a share. Dealing a file into no shares at all is the source's TypeError. */
  function Plan(files: seq<File>, timings: Timings, count: nat, locale: Order, units: Order)
    : Result<seq<seq<File>>, PlanError>
  {
    if count == 0 then
      if files == [] then Success([]) else Failure(NoShares)
    else
      Success(Map(FilesOf(units), Loads(DealOrder(files, timings, locale), count)))
  }

  // ------------------------------------- the loop over mutable share objects

  class Share {
    var files: seq<File>
    var weight: real

    constructor ()
      ensures files == [] && weight == 0.0
    {
      files, weight := [], 0.0;
    }

    function View(): Load
      reads this
    {
      Load(files, weight)
    }
  }

  ghost predicate Distinct(shares: seq<Share>)
  {
    forall i, j :: 0 <= i < j < |shares| ==> shares[i] != shares[j]
  }

  ghost function Views(shares: seq<Share>): seq<Load>
    reads shares
  {
    seq(|shares|, i requires 0 <= i < |shares| reads shares => shares[i].View())
  }

  lemma LightestGrows(loads: seq<Load>, i: nat)
    requires 0 < i < |loads|
    ensures var best := Lightest(loads[..i]);
      Lightest(loads[..i + 1]) == if loads[i].weight < loads[best].weight then i else best
  {
    assert loads[..i + 1][..i] == loads[..i];
  }

  method FindLightest(shares: seq<Share>) returns (lightest: Share, ghost k: nat)
    requires shares != []
    ensures k == Lightest(Views(shares)) && k < |shares| && lightest == shares[k]
  {
    lightest := shares[0];
    k := 0;
    for i := 1 to |shares|
      invariant k < i && lightest == shares[k]
      invariant k == Lightest(Views(shares)[..i])
    {
      LightestGrows(Views(shares), i);
      if shares[i].weight < lightest.weight {
        lightest, k := shares[i], i;
      }
    }
    assert Views(shares)[..|shares|] == Views(shares);
  }

  method NewShares(count: nat) returns (shares: seq<Share>)
    ensures |shares| == count && Distinct(shares) && fresh(shares)
    ensures Views(shares) == seq(count, _ => Load([], 0.0))
  {
    shares := [];
    for i := 0 to count
      invariant |shares| == i && Distinct(shares) && fresh(shares)
      invariant forall k :: 0 <= k < i ==> shares[k].files == [] && shares[k].weight == 0.0
    {
      var share := new Share();
      shares := shares + [share];
    }
  }

  /** One turn of the dealing loop. */
  method DealOne(shares: seq<Share>, item: Weighted)
    requires shares != [] && Distinct(shares)
    modifies shares
    ensures Views(shares) == Deal(old(Views(shares)), item)
  {
    var lightest, k := FindLightest(shares);
    lightest.files := lightest.files + [item.file];
    lightest.weight := lightest.weight + item.weight;
    assert forall i :: 0 <= i < |shares| && i != k ==> shares[i] != lightest;
  }

  method SortedFiles(shares: seq<Share>, units: Order) returns (plan: seq<seq<File>>)
    ensures plan == Map(FilesOf(units), Views(shares))
  {
    plan := [];
    for i := 0 to |shares|
      invariant |plan| == i
      invariant forall k :: 0 <= k < i ==> plan[k] == SortBy(shares[k].files, units)
    {
      plan := plan + [SortBy(shares[i].files, units)];
    }
  }

  method PlanShards(files: seq<File>, timings: Timings, count: nat, locale: Order, units: Order)
    returns (plan: Result<seq<seq<File>>, PlanError>)
    ensures plan == Plan(files, timings, count, locale, units)
  {
    var weighted := DealOrder(files, timings, locale);
    var shares := NewShares(count);
    if count == 0 {
      return if files == [] then Success([]) else Failure(NoShares);
    }
    for i := 0 to |weighted|
      invariant Views(shares) == Loads(weighted[..i], count)
    {
      DealOne(shares, weighted[i]);
      assert weighted[..i + 1][..i] == weighted[..i];
    }
    assert weighted[..|weighted|] == weighted;
    var sorted := SortedFiles(shares, units);
    plan := Success(sorted);
  }
}
