/**
 The shard plan by the rule it promises, without its loops or its weights: the files are dealt slowest first, equal
 ones by name, each to the first of the shares that are done soonest so far. There is exactly one such plan, and it is
 the plan.
*/
module ShardGreedy {
  import opened Wrappers
  import opened Sequences
  import opened ShardPlan
  import opened ShardBounds

  /** The files dealt to share `k`, when file `i` goes to share `a[i]`. */
  ghost function Given(deal: seq<File>, a: seq<nat>, k: nat): seq<File>
    requires |a| == |deal|
  {
    if deal == [] then []
    else
      var n := |deal| - 1;
      Given(deal[..n], a[..n], k) + if a[n] == k then [deal[n]] else []
  }

  /** Share `k` is the first of those that are done soonest. */
  ghost predicate DoneSoonest(deal: seq<File>, a: seq<nat>, count: nat, cost: File -> real, k: nat)
    requires |a| == |deal|
  {
    k < count && forall j: nat :: j < count ==>
      && Sum(Map(cost, Given(deal, a, k))) <= Sum(Map(cost, Given(deal, a, j)))
      && (j < k ==> Sum(Map(cost, Given(deal, a, k))) < Sum(Map(cost, Given(deal, a, j))))
  }

  /** Each file went to the share that was then the first to be done. */
  ghost predicate Greedy(deal: seq<File>, a: seq<nat>, count: nat, cost: File -> real)
    requires |a| == |deal|
  {
    deal == [] ||
    var n := |deal| - 1;
    Greedy(deal[..n], a[..n], count, cost) && DoneSoonest(deal[..n], a[..n], count, cost, a[n])
  }

  /** Slower files first, equally slow ones by name. */
  function Slower(cost: File -> real, locale: Order): Order
  {
    (f: File, g: File) => cost(f) > cost(g) || (cost(f) == cost(g) && locale(f, g))
  }

  /** The plan comes from dealing the files so. */
  ghost predicate DealtSo(plan: seq<seq<File>>, files: seq<File>, deal: seq<File>, a: seq<nat>, count: nat,
                          cost: File -> real, locale: Order, units: Order)
  {
    && multiset(deal) == multiset(files) && Sorted(deal, Slower(cost, locale))
    && |a| == |deal| && Greedy(deal, a, count, cost)
    && |plan| == count
    && forall k :: 0 <= k < count ==> Sorted(plan[k], units) && multiset(plan[k]) == multiset(Given(deal, a, k))
  }

  // ----------------------------------------------------------- there is one

  lemma SlowerIsTotal(cost: File -> real, locale: Order)
    requires StrictTotalOrder(locale)
    ensures StrictTotalOrder(Slower(cost, locale))
  {
    var before := Slower(cost, locale);
    forall x, y ensures x == y || before(x, y) || before(y, x) {
      assert x == y || locale(x, y) || locale(y, x);
    }
  }

  lemma MapSlice<T, U>(f: T -> U, s: seq<T>)
    requires s != []
    ensures Map(f, s)[..|s| - 1] == Map(f, s[..|s| - 1]) && Map(f, s)[|s| - 1] == f(s[|s| - 1])
  {
  }

  /** What the loop holds is what was dealt. */
  lemma {:induction false} LoadsAreGiven(items: seq<Weighted>, count: nat, k: nat)
    requires k < count
    ensures |Choices(items, count)| == |Map(FileOf(), items)|
    ensures Loads(items, count)[k].files == Given(Map(FileOf(), items), Choices(items, count), k)
  {
    if items != [] {
      var n := |items| - 1;
      LoadsAreGiven(items[..n], count, k);
      MapSlice(FileOf(), items);
      assert Choices(items, count)[..n] == Choices(items[..n], count);
    }
  }

  lemma {:induction false} LightestIsDoneSoonest(items: seq<Weighted>, count: nat, cost: File -> real)
    requires count > 0 && Weighs(items, cost)
    ensures |Choices(items, count)| == |Map(FileOf(), items)|
    ensures DoneSoonest(Map(FileOf(), items), Choices(items, count), count, cost, Lightest(Loads(items, count)))
  {
    var loads := Loads(items, count);
    LoadsAreGiven(items, count, Lightest(loads));
    forall j: nat | j < count
      ensures Sum(Map(cost, Given(Map(FileOf(), items), Choices(items, count), j))) == loads[j].weight
    {
      LoadsAreGiven(items, count, j);
      LoadsWeighTheirFiles(items, count, cost, j);
    }
  }

  lemma {:induction false} ChoicesAreGreedy(items: seq<Weighted>, count: nat, cost: File -> real)
    requires count > 0 && Weighs(items, cost)
    ensures |Choices(items, count)| == |Map(FileOf(), items)|
    ensures Greedy(Map(FileOf(), items), Choices(items, count), count, cost)
  {
    if items != [] {
      var n := |items| - 1;
      ChoicesAreGreedy(items[..n], count, cost);
      LightestIsDoneSoonest(items[..n], count, cost);
      MapSlice(FileOf(), items);
      assert Choices(items, count)[..n] == Choices(items[..n], count);
    }
  }

  lemma {:induction false} DealIsSorted(items: seq<Weighted>, cost: File -> real, locale: Order)
    requires HeaviestFirst(items) && TiesByName(items, locale) && Weighs(items, cost)
    ensures Sorted(Map(FileOf(), items), Slower(cost, locale))
  {
    var deal := Map(FileOf(), items);
    forall i, j | 0 <= i < j < |deal| ensures !Slower(cost, locale)(deal[j], deal[i]) {
      assert items[i].weight >= items[j].weight;
    }
  }

  lemma {:induction false} PlanIsDealtSo(files: seq<File>, timings: Timings, count: nat, locale: Order, units: Order)
    returns (deal: seq<File>, a: seq<nat>)
    requires count > 0 && Orders(locale, units)
    ensures DealtSo(Plan(files, timings, count, locale, units).value, files, deal, a, count,
                    Seconds(timings, UnknownWeight(files, timings)), locale, units)
  {
    var items, cost := DealOrder(files, timings, locale), Seconds(timings, UnknownWeight(files, timings));
    deal, a := Map(FileOf(), items), Choices(items, count);
    DealOrderFacts(files, timings, locale);
    DealOrderWeighs(files, timings, locale);
    DealIsSorted(items, cost, locale);
    ChoicesAreGreedy(items, count, cost);
    var plan := Plan(files, timings, count, locale, units).value;
    forall k | 0 <= k < count ensures Sorted(plan[k], units) && multiset(plan[k]) == multiset(Given(deal, a, k)) {
      LoadsAreGiven(items, count, k);
      SortBySorts(Loads(items, count)[k].files, units);
    }
  }

  // ------------------------------------------------------------ and only one

  lemma {:induction false} SoonestIsUnique(deal: seq<File>, a: seq<nat>, count: nat, cost: File -> real, i: nat,
                                           j: nat)
    requires |a| == |deal| && DoneSoonest(deal, a, count, cost, i) && DoneSoonest(deal, a, count, cost, j)
    ensures i == j
  {
    var at, other := Sum(Map(cost, Given(deal, a, i))), Sum(Map(cost, Given(deal, a, j)));
    assert at <= other && other <= at;
    assert (i < j ==> other < at) && (j < i ==> at < other);
  }

  lemma {:induction false} GreedyIsUnique(deal: seq<File>, a: seq<nat>, b: seq<nat>, count: nat, cost: File -> real)
    requires |a| == |deal| == |b| && Greedy(deal, a, count, cost) && Greedy(deal, b, count, cost)
    ensures a == b
  {
    if deal != [] {
      var n := |deal| - 1;
      GreedyIsUnique(deal[..n], a[..n], b[..n], count, cost);
      SoonestIsUnique(deal[..n], a[..n], count, cost, a[n], b[n]);
      assert a == a[..n] + [a[n]] && b == b[..n] + [b[n]];
    }
  }

  lemma {:induction false} DealtSoIsUnique(plan: seq<seq<File>>, other: seq<seq<File>>, files: seq<File>,
                                           deal: seq<File>, a: seq<nat>, deal': seq<File>, a': seq<nat>, count: nat,
                                           cost: File -> real, locale: Order, units: Order)
    requires Orders(locale, units)
    requires DealtSo(plan, files, deal, a, count, cost, locale, units)
    requires DealtSo(other, files, deal', a', count, cost, locale, units)
    ensures plan == other
  {
    SlowerIsTotal(cost, locale);
    SortedIsUnique(deal, deal', Slower(cost, locale));
    GreedyIsUnique(deal, a, a', count, cost);
    forall k | 0 <= k < count ensures plan[k] == other[k] {
      SortedIsUnique(plan[k], other[k], units);
    }
  }

  // ------------------------------------------------------------ main result

  /**
   For any files, timings, number of shares and orders: a plan is the plan exactly when it comes from dealing the files
   slowest first, equal ones by name, each to the first share to be done so far, where a file without a time counts as
   the mean of those that have one.
  */
  lemma {:induction false} PlanIsTheGreedyOne(files: seq<File>, timings: Timings, count: nat, locale: Order,
                                              units: Order, w: real, plan: seq<seq<File>>)
    requires count > 0 && Orders(locale, units) && IsMeanTime(files, timings, w)
    ensures Plan(files, timings, count, locale, units) == Success(plan)
       <==> exists deal, a :: DealtSo(plan, files, deal, a, count, Seconds(timings, w), locale, units)
  {
    MeanIsUnknownWeight(files, timings, w);
    var deal, a := PlanIsDealtSo(files, timings, count, locale, units);
    if exists deal', a' :: DealtSo(plan, files, deal', a', count, Seconds(timings, w), locale, units) {
      var deal', a' :| DealtSo(plan, files, deal', a', count, Seconds(timings, w), locale, units);
      DealtSoIsUnique(Plan(files, timings, count, locale, units).value, plan, files, deal, a, deal', a', count,
                      Seconds(timings, w), locale, units);
    }
  }
}
