/**
 What the shard plan promises: it loses and repeats no file, does not depend on the order files are
 listed in, is balanced to within one file, and its heaviest share is within 4/3 - 1/(3m) of the
 heaviest share of the best possible plan (Graham's bound for the longest-processing-time rule).
*/
module ShardBounds {
  import opened Wrappers
  import opened Sequences
  import opened ShardPlan

  // ---------------------------------------------------------- assignments

  /** `a[i]` is the share that item `i` goes to. */
  ghost predicate Assignment(a: seq<nat>, items: seq<Weighted>, count: nat)
  {
    |a| == |items| && forall i :: 0 <= i < |a| ==> a[i] < count
  }

  ghost predicate NonNegative(items: seq<Weighted>)
  {
    forall i :: 0 <= i < |items| ==> items[i].weight >= 0.0
  }

  ghost predicate HeaviestFirst(items: seq<Weighted>)
  {
    forall i, j :: 0 <= i < j < |items| ==> items[i].weight >= items[j].weight
  }

  ghost function LoadOf(items: seq<Weighted>, a: seq<nat>, k: nat): real
    requires |a| == |items|
  {
    if items == [] then 0.0
    else
      var n := |items| - 1;
      LoadOf(items[..n], a[..n], k) + if a[n] == k then items[n].weight else 0.0
  }

  ghost function CountOf(a: seq<nat>, k: nat): nat
  {
    if a == [] then 0 else CountOf(a[..|a| - 1], k) + if a[|a| - 1] == k then 1 else 0
  }

  /** The assignment the greedy loop makes. */
  ghost function Choices(items: seq<Weighted>, count: nat): (a: seq<nat>)
    requires count > 0
    ensures Assignment(a, items, count)
  {
    if items == [] then []
    else
      var n := |items| - 1;
      Choices(items[..n], count) + [Lightest(Loads(items[..n], count))]
  }

  lemma {:induction false} ChoicesLoad(items: seq<Weighted>, count: nat, k: nat)
    requires k < count
    ensures Loads(items, count)[k].weight == LoadOf(items, Choices(items, count), k)
  {
    if items != [] {
      var n := |items| - 1;
      ChoicesLoad(items[..n], count, k);
      assert Choices(items, count)[..n] == Choices(items[..n], count);
    }
  }

  // ------------------------------------------- sums over all of the shares

  /** `count` times `x`, by repeated addition, so that proofs about it stay linear. */
  ghost function Times(count: nat, x: real): real
  {
    if count == 0 then 0.0 else Times(count - 1, x) + x
  }

  lemma {:induction false} TimesIsProduct(count: nat, x: real)
    ensures Times(count, x) == count as real * x
  {
    if count > 0 {
      TimesIsProduct(count - 1, x);
      assert count as real * x == (count - 1) as real * x + x;
    }
  }

  lemma {:induction false} TimesIsLinear(count: nat, x: real, y: real)
    ensures Times(count, x + y) == Times(count, x) + Times(count, y)
  {
    if count > 0 { TimesIsLinear(count - 1, x, y); }
  }

  lemma {:induction false} TimesIsMonotone(count: nat, x: real, y: real)
    requires x <= y
    ensures Times(count, x) <= Times(count, y)
  {
    if count > 0 { TimesIsMonotone(count - 1, x, y); }
  }

  ghost function TotalLoad(items: seq<Weighted>, a: seq<nat>, count: nat): real
    requires |a| == |items|
  {
    if count == 0 then 0.0 else TotalLoad(items, a, count - 1) + LoadOf(items, a, count - 1)
  }

  ghost function TotalWeight(items: seq<Weighted>): real
  {
    if items == [] then 0.0 else TotalWeight(items[..|items| - 1]) + items[|items| - 1].weight
  }

  lemma {:induction false} TotalLoadStep(items: seq<Weighted>, a: seq<nat>, count: nat)
    requires |a| == |items| && items != []
    ensures var n := |items| - 1;
      TotalLoad(items, a, count)
      == TotalLoad(items[..n], a[..n], count) + if a[n] < count then items[n].weight else 0.0
  {
    if count > 0 {
      TotalLoadStep(items, a, count - 1);
    }
  }

  lemma {:induction false} TotalOfNothing(count: nat)
    ensures TotalLoad([], [], count) == 0.0
  {
    if count > 0 { TotalOfNothing(count - 1); }
  }

  lemma {:induction false} LoadsAddUp(items: seq<Weighted>, a: seq<nat>, count: nat)
    requires Assignment(a, items, count)
    ensures TotalLoad(items, a, count) == TotalWeight(items)
  {
    if items == [] {
      TotalOfNothing(count);
    } else {
      LoadsAddUp(items[..|items| - 1], a[..|items| - 1], count);
      TotalLoadStep(items, a, count);
    }
  }

  lemma {:induction false} TotalAtMost(items: seq<Weighted>, a: seq<nat>, count: nat, bound: real)
    requires |a| == |items|
    requires forall k :: 0 <= k < count ==> LoadOf(items, a, k) <= bound
    ensures TotalLoad(items, a, count) <= Times(count, bound)
  {
    if count > 0 { TotalAtMost(items, a, count - 1, bound); }
  }

  lemma {:induction false} TotalAtLeast(items: seq<Weighted>, a: seq<nat>, count: nat, bound: real)
    requires |a| == |items|
    requires forall k :: 0 <= k < count ==> LoadOf(items, a, k) >= bound
    ensures TotalLoad(items, a, count) >= Times(count, bound)
  {
    if count > 0 { TotalAtLeast(items, a, count - 1, bound); }
  }

  // ------------------------------------------------ counting items a share

  ghost function Singles(a: seq<nat>, count: nat): set<nat>
  {
    set k | 0 <= k < count && CountOf(a, k) == 1
  }

  ghost function TotalCount(a: seq<nat>, count: nat): nat
  {
    if count == 0 then 0 else TotalCount(a, count - 1) + CountOf(a, count - 1)
  }

  lemma {:induction false} TotalCountStep(a: seq<nat>, count: nat)
    requires a != []
    ensures TotalCount(a, count)
         == TotalCount(a[..|a| - 1], count) + if a[|a| - 1] < count then 1 else 0
  {
    if count > 0 { TotalCountStep(a, count - 1); }
  }

  lemma {:induction false} NothingCounts(count: nat)
    ensures TotalCount([], count) == 0
  {
    if count > 0 { NothingCounts(count - 1); }
  }

  lemma {:induction false} CountsAddUp(a: seq<nat>, count: nat)
    requires forall i :: 0 <= i < |a| ==> a[i] < count
    ensures TotalCount(a, count) == |a|
  {
    if a == [] {
      NothingCounts(count);
    } else {
      CountsAddUp(a[..|a| - 1], count);
      TotalCountStep(a, count);
    }
  }

  lemma SinglesStep(a: seq<nat>, count: nat)
    ensures |Singles(a, count + 1)| == |Singles(a, count)| + if CountOf(a, count) == 1 then 1 else 0
  {
    var s := Singles(a, count);
    assert Singles(a, count + 1) == if CountOf(a, count) == 1 then s + {count} else s;
  }

  lemma {:induction false} AtMostTwoEach(a: seq<nat>, count: nat)
    requires forall k :: 0 <= k < count ==> CountOf(a, k) <= 2
    ensures TotalCount(a, count) <= 2 * count - |Singles(a, count)|
  {
    if count == 0 {
      assert Singles(a, 0) == {};
    } else {
      AtMostTwoEach(a, count - 1);
      SinglesStep(a, count - 1);
    }
  }

  lemma {:induction false} AtLeastOneEach(a: seq<nat>, count: nat)
    requires forall k :: 0 <= k < count ==> CountOf(a, k) >= 1
    ensures TotalCount(a, count) >= 2 * count - |Singles(a, count)|
  {
    if count == 0 {
      assert Singles(a, 0) == {};
    } else {
      AtLeastOneEach(a, count - 1);
      SinglesStep(a, count - 1);
    }
  }

  // ------------------------------------------------ counts against weights

  /** Every item weighs at least `least`, so a share weighs at least `least` an item. */
  lemma {:induction false} LoadFromCount(items: seq<Weighted>, a: seq<nat>, k: nat, least: real)
    requires |a| == |items| && least >= 0.0
    requires forall i :: 0 <= i < |items| ==> items[i].weight >= least
    ensures LoadOf(items, a, k) >= Times(CountOf(a, k), least)
  {
    if items != [] {
      LoadFromCount(items[..|items| - 1], a[..|items| - 1], k, least);
    }
  }

  /** An item adds to its share, whatever else is there. */
  lemma {:induction false} LoadWithItem(items: seq<Weighted>, a: seq<nat>, i: nat, least: real)
    requires |a| == |items| && i < |items| && least >= 0.0
    requires forall j :: 0 <= j < |items| ==> items[j].weight >= least
    ensures CountOf(a, a[i]) >= 1
    ensures LoadOf(items, a, a[i]) >= items[i].weight + Times(CountOf(a, a[i]) - 1, least)
  {
    var n := |items| - 1;
    if i == n {
      LoadFromCount(items[..n], a[..n], a[i], least);
    } else {
      LoadWithItem(items[..n], a[..n], i, least);
    }
  }

  lemma {:induction false} NoneCounted(items: seq<Weighted>, a: seq<nat>, k: nat)
    requires |a| == |items| && CountOf(a, k) == 0
    ensures LoadOf(items, a, k) == 0.0
    ensures forall i :: 0 <= i < |a| ==> a[i] != k
  {
    if items != [] {
      NoneCounted(items[..|items| - 1], a[..|items| - 1], k);
    }
  }

  /** The one item of a share that holds exactly one. */
  ghost function SingleOf(a: seq<nat>, k: nat): (i: nat)
    requires CountOf(a, k) == 1
    ensures i < |a| && a[i] == k
  {
    if a[|a| - 1] == k then |a| - 1 else SingleOf(a[..|a| - 1], k)
  }

  lemma {:induction false} SingleLoad(items: seq<Weighted>, a: seq<nat>, k: nat)
    requires |a| == |items| && CountOf(a, k) == 1
    ensures LoadOf(items, a, k) == items[SingleOf(a, k)].weight
  {
    var n := |items| - 1;
    if a[n] == k {
      NoneCounted(items[..n], a[..n], k);
    } else {
      SingleLoad(items[..n], a[..n], k);
    }
  }

  lemma {:induction false} SoleItem(a: seq<nat>, k: nat, i: nat, j: nat)
    requires i < j < |a| && a[i] == a[j] == k
    ensures CountOf(a, k) >= 2
  {
    var n := |a| - 1;
    if j == n {
      HasItem(a[..n], k, i);
    } else {
      SoleItem(a[..n], k, i, j);
    }
  }

  lemma {:induction false} HasItem(a: seq<nat>, k: nat, i: nat)
    requires i < |a| && a[i] == k
    ensures CountOf(a, k) >= 1
  {
    if i < |a| - 1 { HasItem(a[..|a| - 1], k, i); }
  }

  // ---------------------------------------------------------- Graham's bound

  lemma {:induction false} TimesFromThree(count: nat, x: real)
    requires x >= 0.0
    ensures Times(count, x) >= 0.0 && (count >= 1 ==> Times(count, x) >= x)
    ensures count >= 2 ==> Times(count, x) >= 2.0 * x
    ensures count >= 3 ==> Times(count, x) >= 3.0 * x
  {
    if count > 0 { TimesFromThree(count - 1, x); }
  }

  /** The assignment `a` keeps every share at or below `bound`. */
  ghost predicate Within(items: seq<Weighted>, a: seq<nat>, count: nat, bound: real)
  {
    Assignment(a, items, count) && forall k :: 0 <= k < count ==> LoadOf(items, a, k) <= bound
  }

  lemma NonNegativeBound(items: seq<Weighted>, a: seq<nat>, count: nat, bound: real)
    requires count > 0 && NonNegative(items) && Within(items, a, count, bound)
    ensures bound >= 0.0
  {
    LoadFromCount(items, a, 0, 0.0);
    TimesFromThree(CountOf(a, 0), 0.0);
  }

  lemma WithinPrefix(items: seq<Weighted>, a: seq<nat>, count: nat, bound: real)
    requires items != [] && NonNegative(items) && Within(items, a, count, bound)
    ensures Within(items[..|items| - 1], a[..|a| - 1], count, bound)
  {
    var n := |items| - 1;
    assert forall k :: 0 <= k < count ==> LoadOf(items[..n], a[..n], k) <= LoadOf(items, a, k);
  }

  /** What the lightest share weighs after dealing `items`. */
  ghost function LightestWeight(items: seq<Weighted>, count: nat): real
    requires count > 0
  {
    Loads(items, count)[Lightest(Loads(items, count))].weight
  }

  lemma {:induction false} NoChoiceLighter(items: seq<Weighted>, count: nat, k: nat)
    requires k < count
    ensures LoadOf(items, Choices(items, count), k) >= LightestWeight(items, count)
  {
    ChoicesLoad(items, count, k);
  }

  lemma {:induction false} LightestBelowAverage(items: seq<Weighted>, count: nat)
    requires count > 0
    ensures Times(count, LightestWeight(items, count)) <= TotalWeight(items)
  {
    var a := Choices(items, count);
    var light := LightestWeight(items, count);
    forall k | 0 <= k < count ensures LoadOf(items, a, k) >= light {
      NoChoiceLighter(items, count, k);
    }
    TotalAtLeast(items, a, count, light);
    LoadsAddUp(items, a, count);
  }

  /** `load` is at most 4/3 - 1/(3 count) times `bound`. */
  ghost predicate WithinGraham(count: nat, load: real, bound: real)
  {
    3.0 * Times(count, load) + bound <= 4.0 * Times(count, bound)
  }

  lemma WithinGrahamMeaning(count: nat, load: real, bound: real)
    requires count > 0
    ensures WithinGraham(count, load, bound)
      <==> load <= (4.0 / 3.0 - 1.0 / (3.0 * count as real)) * bound
  {
    TimesIsProduct(count, load);
    TimesIsProduct(count, bound);
    GrahamFactor(count as real, load, bound);
  }

  lemma GrahamFactor(m: real, load: real, bound: real)
    requires m >= 1.0
    ensures 3.0 * (m * load) + bound <= 4.0 * (m * bound)
      <==> load <= (4.0 / 3.0 - 1.0 / (3.0 * m)) * bound
  {
    var factor := 4.0 / 3.0 - 1.0 / (3.0 * m);
    assert 3.0 * m * (1.0 / (3.0 * m)) == 1.0;
    assert 3.0 * m * factor == 4.0 * m - 1.0;
    assert 3.0 * m * (factor * bound) == (3.0 * m * factor) * bound;
    var gap := factor * bound - load;
    assert 3.0 * m * gap == 4.0 * (m * bound) - bound - 3.0 * (m * load);
    assert gap >= 0.0 <==> 3.0 * m * gap >= 0.0;
  }

  lemma {:induction false} LightArithmetic(count: nat, light: real, last: real, bound: real)
    requires count > 0 && 3.0 * last <= bound
    requires Times(count, light) + last <= Times(count, bound)
    ensures WithinGraham(count, light + last, bound)
  {
    TimesIsLinear(count, light, last);
    TimesIsLinear(count - 1, last, last);
    TimesIsLinear(count - 1, last + last, last);
    TimesIsMonotone(count - 1, last + last + last, bound);
  }

  lemma {:induction false} TotalWithin(items: seq<Weighted>, count: nat, a: seq<nat>, bound: real)
    requires Within(items, a, count, bound)
    ensures TotalWeight(items) <= Times(count, bound)
  {
    LoadsAddUp(items, a, count);
    TotalAtMost(items, a, count, bound);
  }

  /** An item light against the bound is dealt to a share that is below the average. */
  lemma LightItem(items: seq<Weighted>, count: nat, a: seq<nat>, bound: real)
    requires count > 0 && items != [] && Within(items, a, count, bound)
    requires 3.0 * items[|items| - 1].weight <= bound
    ensures WithinGraham(count, LightestWeight(items[..|items| - 1], count) + items[|items| - 1].weight, bound)
  {
    var n := |items| - 1;
    LightestBelowAverage(items[..n], count);
    TotalWithin(items, count, a, bound);
    LightArithmetic(count, LightestWeight(items[..n], count), items[n].weight, bound);
  }

  lemma AllHeavy(items: seq<Weighted>, a: seq<nat>, count: nat, bound: real, least: real)
    requires Within(items, a, count, bound)
    requires 3.0 * least > bound >= 0.0
    requires forall i :: 0 <= i < |items| ==> items[i].weight >= least
    ensures |items| <= 2 * count - |Singles(a, count)|
  {
    forall k | 0 <= k < count ensures CountOf(a, k) <= 2 {
      LoadFromCount(items, a, k, least);
      TimesFromThree(CountOf(a, k), least);
    }
    AtMostTwoEach(a, count);
    CountsAddUp(a, count);
  }

  lemma {:induction false} NoShareEmpty(items: seq<Weighted>, count: nat)
    requires count > 0 && LightestWeight(items, count) > 0.0
    ensures |items| >= 2 * count - |Singles(Choices(items, count), count)|
  {
    var a := Choices(items, count);
    forall k | 0 <= k < count ensures CountOf(a, k) >= 1 {
      NoChoiceLighter(items, count, k);
      if CountOf(a, k) == 0 { NoneCounted(items, a, k); }
    }
    AtLeastOneEach(a, count);
    CountsAddUp(a, count);
  }

  /** Where the rival keeps the only item of the greedy share `k`. */
  ghost function RivalOf(greedy: seq<nat>, a: seq<nat>, count: nat): nat -> nat
    requires |greedy| <= |a|
  {
    k => if CountOf(greedy, k) == 1 then a[SingleOf(greedy, k)] else count
  }

  lemma AloneIfHeavy(items: seq<Weighted>, count: nat, a: seq<nat>, bound: real, i: nat, least: real)
    requires Within(items, a, count, bound) && i < |items|
    requires least >= 0.0 && items[i].weight + least > bound
    requires forall j :: 0 <= j < |items| ==> items[j].weight >= least
    ensures a[i] in Singles(a, count)
  {
    LoadWithItem(items, a, i, least);
    TimesFromThree(CountOf(a, a[i]) - 1, least);
    assert LoadOf(items, a, a[i]) <= bound;
  }

  /**
   If the last item overflows the bound on the lightest share, every item alone in its greedy share is
   alone in the rival's share too.
  */
  lemma {:induction false} AloneInBoth(items: seq<Weighted>, count: nat, a: seq<nat>, bound: real, k: nat)
    requires count > 0 && items != [] && HeaviestFirst(items) && NonNegative(items)
    requires Within(items, a, count, bound)
    requires LightestWeight(items[..|items| - 1], count) + items[|items| - 1].weight > bound
    requires k in Singles(Choices(items[..|items| - 1], count), count)
    ensures RivalOf(Choices(items[..|items| - 1], count), a, count)(k) in Singles(a, count)
  {
    var n := |items| - 1;
    var greedy := Choices(items[..n], count);
    SingleLoad(items[..n], greedy, k);
    NoChoiceLighter(items[..n], count, k);
    AloneIfHeavy(items, count, a, bound, SingleOf(greedy, k), items[n].weight);
  }

  lemma RivalIsInjective(greedy: seq<nat>, a: seq<nat>, count: nat, j: nat, k: nat)
    requires |greedy| <= |a|
    requires j in Singles(greedy, count) && k in Singles(greedy, count)
    requires RivalOf(greedy, a, count)(j) == RivalOf(greedy, a, count)(k)
    requires RivalOf(greedy, a, count)(j) in Singles(a, count)
    ensures j == k
  {
    var x, y := SingleOf(greedy, j), SingleOf(greedy, k);
    if x < y {
      SoleItem(a, a[x], x, y);
    } else if y < x {
      SoleItem(a, a[x], y, x);
    }
  }

  /** When every item is heavier than a third of the bound, the greedy rule meets the bound itself. */
  lemma HeavyItem(items: seq<Weighted>, count: nat, a: seq<nat>, bound: real)
    requires count > 0 && items != [] && HeaviestFirst(items) && NonNegative(items)
    requires Within(items, a, count, bound)
    requires 3.0 * items[|items| - 1].weight > bound
    ensures LightestWeight(items[..|items| - 1], count) + items[|items| - 1].weight <= bound
  {
    var n := |items| - 1;
    var p := items[n].weight;
    NonNegativeBound(items, a, count, bound);
    LoadWithItem(items, a, n, 0.0);
    TimesFromThree(CountOf(a, a[n]) - 1, 0.0);
    assert p <= bound;
    if LightestWeight(items[..n], count) + p > bound {
      var greedy := Choices(items[..n], count);
      var f := RivalOf(greedy, a, count);
      NoShareEmpty(items[..n], count);
      AllHeavy(items, a, count, bound, p);
      forall k | k in Singles(greedy, count) ensures f(k) in Singles(a, count) {
        AloneInBoth(items, count, a, bound, k);
      }
      forall j, k | j in Singles(greedy, count) && k in Singles(greedy, count) && f(j) == f(k)
        ensures j == k
      {
        RivalIsInjective(greedy, a, count, j, k);
      }
      InjectionBound(Singles(greedy, count), Singles(a, count), f);
      assert false;
    }
  }

  lemma ScaleBound(count: nat, load: real, bound: real)
    requires count > 0 && load <= bound && bound >= 0.0
    ensures WithinGraham(count, load, bound)
  {
    TimesIsMonotone(count, load, bound);
    TimesIsMonotone(count - 1, 0.0, bound);
    TimesIsProduct(count - 1, 0.0);
  }

  /** The share that receives the last item meets Graham's bound. */
  lemma GrahamStep(items: seq<Weighted>, count: nat, a: seq<nat>, bound: real)
    requires count > 0 && items != [] && HeaviestFirst(items) && NonNegative(items)
    requires Within(items, a, count, bound)
    ensures WithinGraham(count, LightestWeight(items[..|items| - 1], count) + items[|items| - 1].weight, bound)
  {
    if 3.0 * items[|items| - 1].weight <= bound {
      LightItem(items, count, a, bound);
    } else {
      HeavyItem(items, count, a, bound);
      NonNegativeBound(items, a, count, bound);
      ScaleBound(count, LightestWeight(items[..|items| - 1], count) + items[|items| - 1].weight, bound);
    }
  }

  /** Graham's bound for the loads, against any assignment whatever. */
  lemma {:induction false} GrahamBound(items: seq<Weighted>, count: nat, a: seq<nat>, bound: real, k: nat)
    requires k < count && HeaviestFirst(items) && NonNegative(items)
    requires Within(items, a, count, bound)
    ensures WithinGraham(count, Loads(items, count)[k].weight, bound)
  {
    if items == [] {
      NonNegativeBound(items, a, count, bound);
      ScaleBound(count, 0.0, bound);
    } else {
      var n := |items| - 1;
      if k == Lightest(Loads(items[..n], count)) {
        GrahamStep(items, count, a, bound);
      } else {
        WithinPrefix(items, a, count, bound);
        GrahamBound(items[..n], count, a[..n], bound, k);
      }
    }
  }

  // ---------------------------------------------- the plan as a whole

  /** What a file costs: its measured seconds, or `w` when it has none. */
  ghost function Seconds(timings: Timings, w: real): File -> real
  {
    (file: File) => if file in timings then timings[file] else w
  }

  /** What a share costs. */
  ghost function ShareSeconds(timings: Timings, w: real, share: seq<File>): real
  {
    Sum(Map(Seconds(timings, w), share))
  }

  ghost function Timed(timings: Timings): File -> real
  {
    (file: File) => if file in timings then 1.0 else 0.0
  }

  /** `w` is the mean time of the listed files that have one: times their number, it is their time; 1 when none has. */
  ghost predicate IsMeanTime(files: seq<File>, timings: Timings, w: real)
  {
    var timed := Sum(Map(Timed(timings), files));
    if timed == 0.0 then w == 1.0 else w * timed == ShareSeconds(timings, 0.0, files)
  }

  /** Files of equal weight stand in the order of their names. */
  ghost predicate TiesByName(items: seq<Weighted>, locale: Order)
  {
    forall i, j :: 0 <= i < j < |items| && items[i].weight == items[j].weight ==>
      !locale(items[j].file, items[i].file)
  }

  ghost predicate Orders(locale: Order, units: Order)
  {
    StrictTotalOrder(locale) && StrictTotalOrder(units)
  }

  lemma ByWeightIsTotal(locale: Order)
    requires StrictTotalOrder(locale)
    ensures StrictTotalOrder(ByWeight(locale))
  {
    var before := ByWeight(locale);
    forall x, y ensures x == y || before(x, y) || before(y, x) {
      assert x.file == y.file || locale(x.file, y.file) || locale(y.file, x.file);
    }
  }

  /** What the sort hands to the loop: each file once with its weight, heaviest first, equal ones by name. */
  lemma DealOrderFacts(files: seq<File>, timings: Timings, locale: Order)
    requires StrictTotalOrder(locale)
    ensures var items := DealOrder(files, timings, locale);
      && HeaviestFirst(items) && TiesByName(items, locale)
      && multiset(items) == multiset(Map(Weigh(timings, UnknownWeight(files, timings)), files))
  {
    ByWeightIsTotal(locale);
    var given := Map(Weigh(timings, UnknownWeight(files, timings)), files);
    SortBySorts(given, ByWeight(locale));
    var items := SortBy(given, ByWeight(locale));
    forall i, j | 0 <= i < j < |items|
      ensures items[i].weight >= items[j].weight
      ensures items[i].weight == items[j].weight ==> !locale(items[j].file, items[i].file)
    {
      assert !ByWeight(locale)(items[j], items[i]);
    }
  }

  /** Items whose weight is what `weigh` says of their file. */
  ghost predicate Weighs(items: seq<Weighted>, weigh: File -> real)
  {
    forall i :: 0 <= i < |items| ==> items[i].weight == weigh(items[i].file)
  }

  function FileOf(): Weighted -> File
  {
    (item: Weighted) => item.file
  }

  function FilesIn(): Load -> seq<File>
  {
    (load: Load) => load.files
  }

  lemma DealOrderWeighs(files: seq<File>, timings: Timings, locale: Order)
    requires StrictTotalOrder(locale)
    ensures Weighs(DealOrder(files, timings, locale), Seconds(timings, UnknownWeight(files, timings)))
    ensures multiset(Map(FileOf(), DealOrder(files, timings, locale))) == multiset(files)
  {
    var weigh := Weigh(timings, UnknownWeight(files, timings));
    var items := DealOrder(files, timings, locale);
    DealOrderFacts(files, timings, locale);
    forall i | 0 <= i < |items| ensures items[i].weight == weigh(items[i].file).weight {
      assert items[i] in multiset(items);
      assert items[i] in Map(weigh, files);
    }
    MapOfPermutation(FileOf(), items, Map(weigh, files));
    assert Map(FileOf(), Map(weigh, files)) == files;
  }

  lemma MapAppend<T, U>(f: T -> U, s: seq<T>, x: T)
    ensures Map(f, s + [x]) == Map(f, s) + [f(x)]
  {
  }

  lemma {:induction false} SumAppend(s: seq<real>, x: real)
    ensures Sum(s + [x]) == Sum(s) + x
  {
    assert (s + [x])[..|s|] == s;
  }

  lemma {:induction false} LoadsWeighTheirFiles(items: seq<Weighted>, count: nat, weigh: File -> real, k: nat)
    requires k < count && Weighs(items, weigh)
    ensures Loads(items, count)[k].weight == Sum(Map(weigh, Loads(items, count)[k].files))
  {
    if items != [] {
      var n := |items| - 1;
      LoadsWeighTheirFiles(items[..n], count, weigh, k);
      var share := Loads(items[..n], count)[k].files;
      MapAppend(weigh, share, items[n].file);
      SumAppend(Map(weigh, share), items[n].weight);
    }
  }

  lemma {:induction false} NothingFlattens(count: nat)
    requires count > 0
    ensures Flatten(Map(FilesIn(), Loads([], count))) == []
  {
    assert Map(FilesIn(), Loads([], count)) == seq(count, _ => []);
    FlattenOfNothing(count);
  }

  lemma {:induction false} FlattenOfNothing(count: nat)
    ensures Flatten<File>(seq(count, _ => [])) == []
  {
    if count > 0 {
      FlattenOfNothing(count - 1);
      assert seq<seq<File>>(count, _ => [])[..count - 1] == seq(count - 1, _ => []);
    }
  }

  lemma {:induction false} DealtFiles(loads: seq<Load>, item: Weighted)
    requires loads != []
    ensures var k := Lightest(loads);
      Map(FilesIn(), Deal(loads, item)) == Map(FilesIn(), loads)[k := Map(FilesIn(), loads)[k] + [item.file]]
  {
  }

  lemma FilesStep(items: seq<Weighted>)
    requires items != []
    ensures var n := |items| - 1;
      multiset(Map(FileOf(), items)) == multiset(Map(FileOf(), items[..n])) + multiset{items[n].file}
  {
    var n := |items| - 1;
    assert items == items[..n] + [items[n]];
    MapAppend(FileOf(), items[..n], items[n]);
  }

  lemma {:induction false} LoadsKeepEveryFile(items: seq<Weighted>, count: nat)
    requires count > 0
    ensures multiset(Flatten(Map(FilesIn(), Loads(items, count)))) == multiset(Map(FileOf(), items))
  {
    if items == [] {
      NothingFlattens(count);
    } else {
      var n := |items| - 1;
      var before := Loads(items[..n], count);
      LoadsKeepEveryFile(items[..n], count);
      DealtFiles(before, items[n]);
      FlattenAppend(Map(FilesIn(), before), Lightest(before), items[n].file);
      FilesStep(items);
    }
  }

  /** `rival` shares out exactly the files of `items`. */
  ghost predicate SharesOut(rival: seq<seq<File>>, items: seq<Weighted>)
  {
    multiset(Flatten(rival)) == multiset(Map(FileOf(), items))
  }

  /** The rival without the last item's file, and the share it was in. */
  lemma TakeLast(items: seq<Weighted>, rival: seq<seq<File>>) returns (k: nat, i: nat)
    requires items != [] && SharesOut(rival, items)
    ensures k < |rival| && i < |rival[k]| && rival[k][i] == items[|items| - 1].file
    ensures SharesOut(rival[k := RemoveAt(rival[k], i)], items[..|items| - 1])
  {
    var n := |items| - 1;
    FilesStep(items);
    assert items[n].file in multiset(Flatten(rival));
    k, i := FindInFlatten(rival, items[n].file);
    FlattenRemove(rival, k, i);
    assert multiset(Map(FileOf(), items[..n])) == multiset(Flatten(rival)) - multiset{items[n].file};
  }

  lemma WeightWithout(weigh: File -> real, share: seq<File>, i: nat)
    requires i < |share|
    ensures Sum(Map(weigh, share)) == Sum(Map(weigh, RemoveAt(share, i))) + weigh(share[i])
  {
    MapRemoveAt(weigh, share, i);
    SumRemoveAt(Map(weigh, share), i);
  }

  /** Any way of sharing the files out is an assignment of the sorted list with the same share weights. */
  lemma {:induction false} RivalAssignment(items: seq<Weighted>, weigh: File -> real, rival: seq<seq<File>>)
    returns (a: seq<nat>)
    requires Weighs(items, weigh) && SharesOut(rival, items)
    ensures Assignment(a, items, |rival|)
    ensures forall k :: 0 <= k < |rival| ==> LoadOf(items, a, k) == Sum(Map(weigh, rival[k]))
  {
    if items == [] {
      assert |multiset(Flatten(rival))| == 0;
      FlattenEmpty(rival);
      a := [];
    } else {
      var n := |items| - 1;
      var k, i := TakeLast(items, rival);
      var rest := RivalAssignment(items[..n], weigh, rival[k := RemoveAt(rival[k], i)]);
      a := rest + [k];
      assert a[..n] == rest;
      WeightWithout(weigh, rival[k], i);
    }
  }

  // ----------------------------------------------------------- main results

  ghost predicate NonNegativeTimings(timings: Timings)
  {
    forall file :: file in timings ==> timings[file] >= 0.0
  }

  lemma {:induction false} KnownStep(files: seq<File>, timings: Timings)
    requires files != []
    ensures var n := |files| - 1;
      var found := files[n] in timings;
      && |Known(files, timings)| == |Known(files[..n], timings)| + (if found then 1 else 0)
      && Sum(Known(files, timings)) == Sum(Known(files[..n], timings)) + (if found then timings[files[n]] else 0.0)
  {
    var file := files[|files| - 1];
    if file in timings { SumAppend(Known(files[..|files| - 1], timings), timings[file]); }
  }

  /** What the planner sums and counts, in seconds. */
  lemma {:induction false} KnownSums(files: seq<File>, timings: Timings)
    ensures |Known(files, timings)| as real == Sum(Map(Timed(timings), files))
    ensures Sum(Known(files, timings)) == ShareSeconds(timings, 0.0, files)
  {
    if files != [] {
      var front, last := files[..|files| - 1], files[|files| - 1];
      KnownSums(front, timings);
      KnownStep(files, timings);
      assert files == front + [last];
      MapAppend(Timed(timings), front, last);
      SumAppend(Map(Timed(timings), front), Timed(timings)(last));
      MapAppend(Seconds(timings, 0.0), front, last);
      SumAppend(Map(Seconds(timings, 0.0), front), Seconds(timings, 0.0)(last));
    }
  }

  /** The weight given to files without a time is the mean of the others, and nothing else is. */
  lemma MeanIsUnknownWeight(files: seq<File>, timings: Timings, w: real)
    ensures IsMeanTime(files, timings, w) <==> w == UnknownWeight(files, timings)
  {
    KnownSums(files, timings);
    var sum, n := Sum(Known(files, timings)), |Known(files, timings)| as real;
    if n != 0.0 { QuotientIsUnique(sum, n, w); }
  }

  lemma QuotientIsUnique(sum: real, n: real, w: real)
    requires n != 0.0
    ensures w * n == sum <==> w == sum / n
  {
    if w * n == sum { assert w == (w * n) / n; }
  }

  lemma {:induction false} KnownAreNonNegative(files: seq<File>, timings: Timings)
    requires NonNegativeTimings(timings)
    ensures Sum(Known(files, timings)) >= 0.0
  {
    if files != [] {
      KnownAreNonNegative(files[..|files| - 1], timings);
      var rest := Known(files[..|files| - 1], timings);
      var file := files[|files| - 1];
      if file in timings { SumAppend(rest, timings[file]); }
    }
  }

  lemma ItemsAreNonNegative(files: seq<File>, timings: Timings, locale: Order)
    requires StrictTotalOrder(locale) && NonNegativeTimings(timings)
    ensures UnknownWeight(files, timings) >= 0.0
    ensures NonNegative(DealOrder(files, timings, locale))
  {
    KnownAreNonNegative(files, timings);
    DealOrderWeighs(files, timings, locale);
  }

  /** Sorting a share's files for display changes neither its files nor its weight. */
  lemma {:induction false} PlanShare(files: seq<File>, timings: Timings, count: nat, locale: Order, units: Order,
                                     k: nat)
    requires k < count && Orders(locale, units)
    ensures var load := Loads(DealOrder(files, timings, locale), count)[k];
      var share := Plan(files, timings, count, locale, units).value[k];
      && multiset(share) == multiset(load.files)
      && load.weight == ShareSeconds(timings, UnknownWeight(files, timings), share)
  {
    var load := Loads(DealOrder(files, timings, locale), count)[k];
    SortBySorts(load.files, units);
    DealOrderWeighs(files, timings, locale);
    var weigh := Seconds(timings, UnknownWeight(files, timings));
    LoadsWeighTheirFiles(DealOrder(files, timings, locale), count, weigh, k);
    MapOfPermutation(weigh, load.files, SortBy(load.files, units));
    SumOfPermutation(Map(weigh, load.files), Map(weigh, SortBy(load.files, units)));
  }

  /**
   A file on disk is in exactly one share, as often as it was listed, and each share lists its files in order. There
   is a plan except for some files and no shares.
  */
  lemma PlanKeepsEveryFile(files: seq<File>, timings: Timings, count: nat, locale: Order, units: Order)
    requires Orders(locale, units)
    ensures var plan := Plan(files, timings, count, locale, units);
      && (plan.Success? <==> count > 0 || files == [])
      && (plan.Success? ==>
            && |plan.value| == count && multiset(Flatten(plan.value)) == multiset(files)
            && forall k :: 0 <= k < count ==> Sorted(plan.value[k], units))
  {
    if count == 0 { return; }
    forall k | 0 <= k < count ensures Sorted(Plan(files, timings, count, locale, units).value[k], units) {
      SortBySorts(Loads(DealOrder(files, timings, locale), count)[k].files, units);
    }
    var items := DealOrder(files, timings, locale);
    var plan := Plan(files, timings, count, locale, units).value;
    forall k | 0 <= k < count
      ensures multiset(plan[k]) == multiset(Map(FilesIn(), Loads(items, count))[k])
    {
      PlanShare(files, timings, count, locale, units, k);
    }
    FlattenOfPermutations(plan, Map(FilesIn(), Loads(items, count)));
    LoadsKeepEveryFile(items, count);
    DealOrderWeighs(files, timings, locale);
  }

  /**
   Graham's bound, in seconds: against every other way of sharing out the same files that keeps each share within
   `bound`, no share of the plan takes more than (4/3 - 1/(3 count)) times `bound`. A file without a time is taken
   to need the mean of those that have one.
  */
  lemma {:induction false} PlanIsNearOptimal(files: seq<File>, timings: Timings, count: nat, locale: Order,
                                             units: Order, rival: seq<seq<File>>, bound: real, w: real, k: nat)
    requires k < count && Orders(locale, units) && NonNegativeTimings(timings) && IsMeanTime(files, timings, w)
    requires |rival| == count && multiset(Flatten(rival)) == multiset(files)
    requires forall j :: 0 <= j < count ==> ShareSeconds(timings, w, rival[j]) <= bound
    ensures ShareSeconds(timings, w, Plan(files, timings, count, locale, units).value[k])
         <= (4.0 / 3.0 - 1.0 / (3.0 * count as real)) * bound
  {
    var items := DealOrder(files, timings, locale);
    MeanIsUnknownWeight(files, timings, w);
    DealOrderWeighs(files, timings, locale);
    DealOrderFacts(files, timings, locale);
    ItemsAreNonNegative(files, timings, locale);
    var a := RivalAssignment(items, Seconds(timings, w), rival);
    assert forall j :: 0 <= j < count ==> ShareSeconds(timings, w, rival[j]) == LoadOf(items, a, j);
    GrahamBound(items, count, a, bound, k);
    WithinGrahamMeaning(count, Loads(items, count)[k].weight, bound);
    PlanShare(files, timings, count, locale, units, k);
  }

  /** A share without the last file dealt to it, its lightest, is no heavier than any other share. */
  lemma {:induction false} LoadsAreBalanced(items: seq<Weighted>, count: nat, weigh: File -> real, k: nat, j: nat)
    requires k < count && j < count && Weighs(items, weigh) && HeaviestFirst(items) && NonNegative(items)
    ensures var loads := Loads(items, count);
      loads[k].files == []
      || loads[k].weight - weigh(loads[k].files[|loads[k].files| - 1]) <= loads[j].weight
  {
    if items != [] {
      LoadsAreBalanced(items[..|items| - 1], count, weigh, k, j);
    }
  }

  /** A share with any file at all takes longer than any other share by at most the time of one of its files. */
  lemma PlanIsBalanced(files: seq<File>, timings: Timings, count: nat, locale: Order, units: Order, w: real, k: nat)
    returns (file: File)
    requires k < count && Orders(locale, units) && NonNegativeTimings(timings) && IsMeanTime(files, timings, w)
    requires Plan(files, timings, count, locale, units).value[k] != []
    ensures file in Plan(files, timings, count, locale, units).value[k]
    ensures forall j :: 0 <= j < count ==>
      ShareSeconds(timings, w, Plan(files, timings, count, locale, units).value[k])
      <= ShareSeconds(timings, w, Plan(files, timings, count, locale, units).value[j])
       + (if file in timings then timings[file] else w)
  {
    var items := DealOrder(files, timings, locale);
    MeanIsUnknownWeight(files, timings, w);
    DealOrderWeighs(files, timings, locale);
    DealOrderFacts(files, timings, locale);
    ItemsAreNonNegative(files, timings, locale);
    PlanShare(files, timings, count, locale, units, k);
    var dealt := Loads(items, count)[k].files;
    var share := Plan(files, timings, count, locale, units).value[k];
    assert |multiset(dealt)| == |multiset(share)|;
    file := dealt[|dealt| - 1];
    assert file in multiset(share);
    forall j | 0 <= j < count
      ensures ShareSeconds(timings, w, share)
           <= ShareSeconds(timings, w, Plan(files, timings, count, locale, units).value[j]) + Seconds(timings, w)(file)
    {
      PlanShare(files, timings, count, locale, units, j);
      LoadsAreBalanced(items, count, Seconds(timings, w), k, j);
    }
  }

  lemma {:induction false} KnownOfPermutation(files: seq<File>, others: seq<File>, timings: Timings)
    requires multiset(files) == multiset(others)
    ensures |Known(files, timings)| == |Known(others, timings)|
    ensures Sum(Known(files, timings)) == Sum(Known(others, timings))
  {
    if files == [] {
      assert |multiset(others)| == 0;
    } else {
      var n := |files| - 1;
      var i := FindLast(files, others);
      KnownOfPermutation(files[..n], RemoveAt(others, i), timings);
      KnownRemoveAt(others, i, timings);
      KnownStep(files, timings);
    }
  }

  lemma {:induction false} KnownRemoveAt(files: seq<File>, i: nat, timings: Timings)
    requires i < |files|
    ensures var found := files[i] in timings;
      && |Known(files, timings)| == |Known(RemoveAt(files, i), timings)| + (if found then 1 else 0)
      && Sum(Known(files, timings))
         == Sum(Known(RemoveAt(files, i), timings)) + (if found then timings[files[i]] else 0.0)
  {
    var n := |files| - 1;
    KnownStep(files, timings);
    if i == n {
      assert RemoveAt(files, i) == files[..n];
    } else {
      KnownRemoveAt(files[..n], i, timings);
      var r := RemoveAt(files, i);
      assert r[..|r| - 1] == RemoveAt(files[..n], i);
      KnownStep(r, timings);
    }
  }

  /** The plan is a function of which files there are, not of the order they are listed in. */
  lemma PlanIgnoresListingOrder(files: seq<File>, others: seq<File>, timings: Timings, count: nat,
                                locale: Order, units: Order)
    requires Orders(locale, units) && multiset(files) == multiset(others)
    ensures Plan(files, timings, count, locale, units) == Plan(others, timings, count, locale, units)
  {
    KnownOfPermutation(files, others, timings);
    assert UnknownWeight(files, timings) == UnknownWeight(others, timings);
    var weigh := Weigh(timings, UnknownWeight(files, timings));
    MapOfPermutation(weigh, files, others);
    ByWeightIsTotal(locale);
    SortOfPermutation(Map(weigh, files), Map(weigh, others), ByWeight(locale));
    assert |multiset(files)| == |multiset(others)|;
  }
}
