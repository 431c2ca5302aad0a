/**
 ConditionDamage::generateDamageList in src/condition.cpp: an amount of damage spread over
 ticks of falling strength. Floating point comparisons are taken over exact rationals.

 Each strength has a target for the running sum, its share of the amount. A strength is used
 once and then for as long as the next tick brings the sum closer to the target, so the sum
 stays within half a tick of it, and what the targets leave over shrinks with the strength:
 the last strength is one, and its target is the amount.
 */
module DamageLists {
  import opened Numbers

  function AbsReal(x: real): real {
    if x < 0.0 then -x else x
  }

  /**
   Whether one more tick of `i` brings the sum closer to `med`. With med zero both quotients
   are infinite and neither is smaller.
   */
  predicate Closer(sum: int, i: int, med: int) {
    med != 0
    && AbsReal(1.0 - (sum as real + i as real) / med as real) < AbsReal(1.0 - sum as real / med as real)
  }

  lemma CloserExact(sum: int, i: int, med: int)
    requires sum > 0 && i > 0 && med >= 0
    ensures Closer(sum, i, med) <==> 2 * sum + i < 2 * med
  {
    if med > 0 {
      var m, a, b := med as real, sum as real, sum as real + i as real;
      QuotientLess(a, b, m);
      Nearer(a / m, b / m);
      QuotientSum(a, b, m);
      QuotientBelowTwo(a + b, m);
    }
  }

  lemma Nearer(x: real, y: real)
    requires x < y
    ensures AbsReal(1.0 - y) < AbsReal(1.0 - x) <==> x + y < 2.0
  {
  }

  lemma QuotientLess(a: real, b: real, m: real)
    requires m > 0.0 && a < b
    ensures a / m < b / m
  {
  }

  lemma QuotientSum(a: real, b: real, m: real)
    requires m > 0.0
    ensures a / m + b / m == (a + b) / m
  {
  }

  lemma QuotientBelowTwo(a: real, m: real)
    requires m > 0.0
    ensures a / m < 2.0 <==> a < 2.0 * m
  {
    assert a / m * m == a;
  }

  function Sum(list: seq<int>): int {
    if list == [] then 0 else Sum(list[..|list| - 1]) + list[|list| - 1]
  }

  /** 1 + 2 + ... + n: one tick of every strength. */
  function Triangle(n: nat): nat {
    if n == 0 then 0 else Triangle(n - 1) + n
  }

  lemma {:induction false} TriangleIs(n: nat)
    ensures 2 * Triangle(n) == n * (n + 1)
  {
    if n > 0 {
      TriangleIs(n - 1);
    }
  }

  ghost predicate NonIncreasing(list: seq<int>) {
    forall j, k :: 0 <= j < k < |list| ==> list[j] >= list[k]
  }

  /** Exactly the strengths down to i, strongest first. */
  ghost predicate Descends(list: seq<int>, start: int, i: int) {
    && NonIncreasing(list)
    && (forall v :: v in list <==> i <= v <= start)
  }

  // --------------------------------------------------------------------------------
  // The running sum
  // --------------------------------------------------------------------------------

  /**
   With strengths i down to 1 still to come: an amount that affords one tick of each leaves room
   for those, and a smaller one has had exactly one tick of each strength so far.
   */
  ghost predicate OnTrack(total: nat, start: nat, i: nat, sum: int) {
    i <= start
    && (if total >= Triangle(start) then sum + Triangle(i) <= total && (i == 0 ==> sum == total)
        else sum == Triangle(start) - Triangle(i))
  }

  /** The amount that should be dealt once the strengths from `start` down to i have had their turn. */
  function Target(total: nat, start: nat, i: nat): nat
    requires 0 < i <= start
  {
    (start + 1 - i) * total / start
  }

  lemma {:induction false} MulStrict(d: nat, x: int, y: int)
    requires d > 0 && x < y
    ensures d * x + d <= d * y
    decreases y - x
  {
    if x + 1 < y {
      MulStrict(d, x, y - 1);
    }
    assert d * y == d * (y - 1) + d;
  }

  lemma MulMono(d: nat, x: int, y: int)
    requires x <= y
    ensures d * x <= d * y
  {
    if x < y && d > 0 {
      MulStrict(d, x, y);
    }
  }

  lemma CancelFactor(d: nat, x: int, y: int)
    requires d > 0 && d * x <= d * y
    ensures x <= y
  {
    if x > y {
      MulStrict(d, y, x);
    }
  }

  lemma MulSwap(a: int, b: int, c: int)
    ensures a * (b * c) == b * (a * c)
  {
  }

  lemma TargetBelow(total: nat, start: nat, i: nat)
    requires 0 < i <= start
    ensures start * Target(total, start, i) <= (start + 1 - i) * total
    ensures (start + 1 - i) * total < start * Target(total, start, i) + start
  {
    var x := (start + 1 - i) * total;
    assert x == x / start * start + x % start;
  }

  lemma LastTarget(total: nat, start: nat)
    requires 0 < start
    ensures Target(total, start, 1) == total
  {
    var med := Target(total, start, 1);
    TargetBelow(total, start, 1);
    CancelFactor(start, med, total);
    if med < total {
      MulStrict(start, med, total);
    }
  }

  /** Ticks repeated to come nearer to the target leave room for one tick of each weaker strength. */
  lemma RoomLeft(total: nat, start: nat, i: nat, sum: int)
    requires 0 < i <= start && total >= Triangle(start) && 2 * sum - i < 2 * Target(total, start, i)
    ensures sum + Triangle(i - 1) <= total
  {
    var j, med := i - 1, Target(total, start, i);
    TriangleIs(start);
    TriangleIs(j);
    TargetBelow(total, start, i);
    ShareAhead(start, j, total, med);
    Spread(start, j, 2 * (total - med), 2 * total);
  }

  /** What the target still lacks is at least the share of the strengths to come. */
  lemma ShareAhead(start: nat, j: nat, total: nat, med: nat)
    requires start * med <= (start - j) * total
    ensures j * (2 * total) <= start * (2 * (total - med))
  {
    assert (start - j) * total == start * total - j * total;
    assert start * (2 * (total - med)) == 2 * (start * total) - 2 * (start * med);
    assert j * (2 * total) == 2 * (j * total);
  }

  lemma Spread(start: nat, j: nat, lacking: int, double: nat)
    requires j < start && j * double <= start * lacking && double >= start * (start + 1)
    ensures j + j * (j + 1) <= lacking
  {
    MulMono(j, start * (start + 1), double);
    MulSwap(j, start, start + 1);
    CancelFactor(start, j * (start + 1), lacking);
    MulMono(j, j + 2, start + 1);
    assert j * (j + 2) == j + j * (j + 1);
  }

  /** For an amount too small for that, one tick of each strength already passes every target. */
  lemma OneTickSuffices(total: nat, start: nat, i: nat)
    requires 0 < i <= start && total < Triangle(start)
    ensures 2 * (Triangle(start) - Triangle(i - 1)) >= 2 * Target(total, start, i)
  {
    TriangleIs(start);
    TriangleIs(i - 1);
    TargetBelow(total, start, i);
    assert (i - 1) * i == (i - 1) * (i - 1 + 1);
    TargetPassed(start, i - 1, total, Target(total, start, i));
  }

  lemma TargetPassed(start: nat, j: nat, total: nat, med: nat)
    requires j < start && start * med <= (start - j) * total && 2 * total < start * (start + 1)
    ensures start * (start + 1) - j * (j + 1) >= 2 * med
  {
    var n := start - j;
    MulMono(n, 2 * total, start * (start + 1));
    MulSwap(n, start, start + 1);
    assert start * (2 * med) == 2 * (start * med) && n * (2 * total) == 2 * (n * total);
    CancelFactor(start, 2 * med, n * (start + 1));
    MulMono(j, j + 1, start + 1);
    assert n * (start + 1) == start * (start + 1) - j * (start + 1);
  }

  /** One stage of the outer loop keeps the sum on track. */
  lemma StageOnTrack(total: nat, start: nat, i: nat, sum: int, k: nat)
    requires 0 < i <= start && OnTrack(total, start, i, sum) && k > 0
    requires 2 * (sum + k * i) + i >= 2 * Target(total, start, i)
    requires k > 1 ==> 2 * (sum + k * i) - i < 2 * Target(total, start, i)
    ensures OnTrack(total, start, i - 1, sum + k * i)
  {
    LastTarget(total, start);
    MulMono(i, if k > 1 then 2 else 1, k);
    if total < Triangle(start) {
      OneTickSuffices(total, start, i);
    } else if k > 1 {
      RoomLeft(total, start, i, sum + k * i);
    }
  }

  // --------------------------------------------------------------------------------
  // The loops
  // --------------------------------------------------------------------------------

  /** k ticks of one strength. */
  function Ticks(k: nat, i: int): seq<int> {
    seq(k, _ => i)
  }

  lemma {:induction false} SumTicks(list: seq<int>, k: nat, i: int)
    ensures Sum(list + Ticks(k, i)) == Sum(list) + k * i
  {
    if k == 0 {
      assert list + Ticks(k, i) == list;
    } else {
      SumTicks(list, k - 1, i);
      assert (list + Ticks(k, i))[..|list| + k - 1] == list + Ticks(k - 1, i);
    }
  }

  /** The inner loop: one tick, and more of them for as long as the next brings the sum closer. */
  method Stage(list: seq<int>, sum: int, i: int, med: int) returns (list': seq<int>, sum': int, ghost k: nat)
    requires i > 0 && sum >= 0 && med >= 0
    ensures k > 0 && list' == list + Ticks(k, i) && sum' == sum + k * i
    ensures 2 * sum' + i >= 2 * med
    ensures k > 1 ==> 2 * sum' - i < 2 * med
  {
    list', sum', k := list, sum, 0;
    var again := true;
    while again
      invariant list' == list + Ticks(k, i) && sum' == sum + k * i && sum' >= 0
      invariant k == 0 ==> again
      invariant k > 0 ==> sum' > 0 && (again <==> 2 * sum' + i < 2 * med)
      invariant k > 1 ==> 2 * sum' - i < 2 * med
      decreases again, if sum' < med then med - sum' else 0
    {
      sum' := sum' + i;
      list' := list' + [i];
      k := k + 1;
      CloserExact(sum', i, med);
      again := Closer(sum', i, med);
    }
  }

  /** The sum of the ticks of a strength and of all stronger ones. */
  function DownTo(list: seq<int>, v: int): int {
    if list == [] then 0
    else DownTo(list[..|list| - 1], v) + (if list[|list| - 1] >= v then list[|list| - 1] else 0)
  }

  /**
   What the ticks from the strongest down to v come to: less than half a tick short of the target, and more than half
   a tick beyond it only if there is no more than one tick of v. This leaves one number of ticks for each strength.
   */
  ghost predicate Near(list: seq<int>, total: nat, start: nat, v: nat)
    requires 0 < v <= start
  {
    && 2 * DownTo(list, v) + v >= 2 * Target(total, start, v)
    && (multiset(list)[v] > 1 ==> 2 * DownTo(list, v) - v < 2 * Target(total, start, v))
  }

  ghost predicate AllNear(list: seq<int>, total: nat, start: nat, i: nat) {
    forall v: nat :: i < v <= start ==> Near(list, total, start, v)
  }

  lemma DownToMore(list: seq<int>, i: int, v: int)
    ensures DownTo(list + [i], v) == DownTo(list, v) + (if i >= v then i else 0)
  {
    assert (list + [i])[..|list|] == list;
  }

  lemma {:induction false} DownToTicks(list: seq<int>, k: nat, i: int, v: int)
    ensures DownTo(list + Ticks(k, i), v) == DownTo(list, v) + (if i >= v then k * i else 0)
  {
    if k == 0 {
      assert list + Ticks(k, i) == list;
    } else {
      DownToTicks(list, k - 1, i, v);
      assert list + Ticks(k, i) == list + Ticks(k - 1, i) + [i];
      DownToMore(list + Ticks(k - 1, i), i, v);
      OneTickMore(k, i);
    }
  }

  lemma OneTickMore(k: nat, i: int)
    ensures k * i == (k - 1) * i + i
  {
  }

  lemma {:induction false} CountTicks(list: seq<int>, k: nat, i: int, v: int)
    ensures multiset(list + Ticks(k, i))[v] == multiset(list)[v] + (if i == v then k else 0)
  {
    if k == 0 {
      assert list + Ticks(k, i) == list;
    } else {
      CountTicks(list, k - 1, i, v);
      assert list + Ticks(k, i) == list + Ticks(k - 1, i) + [i];
    }
  }

  lemma {:induction false} DownToAll(list: seq<int>, v: int)
    requires forall x :: x in list ==> x >= v
    ensures DownTo(list, v) == Sum(list)
  {
    if list != [] {
      var n := |list| - 1;
      assert list[n] in list;
      forall x | x in list[..n] ensures x >= v {
        assert x in list;
      }
      DownToAll(list[..n], v);
    }
  }

  lemma NearNext(ticks: seq<int>, total: nat, start: nat, i: nat, k: nat)
    requires 0 < i <= start && Descends(ticks, start, i + 1) && AllNear(ticks, total, start, i)
    requires 2 * (Sum(ticks) + k * i) + i >= 2 * Target(total, start, i)
    requires k > 1 ==> 2 * (Sum(ticks) + k * i) - i < 2 * Target(total, start, i)
    ensures AllNear(ticks + Ticks(k, i), total, start, i - 1)
  {
    forall v: nat | i - 1 < v <= start ensures Near(ticks + Ticks(k, i), total, start, v) {
      DownToTicks(ticks, k, i, v);
      CountTicks(ticks, k, i, v);
      if v == i {
        DownToAll(ticks, i);
        assert i !in ticks;
      } else {
        assert Near(ticks, total, start, v);
      }
    }
  }

  /** What the outer loop has appended so far. */
  ghost predicate Progress(ticks: seq<int>, sum: int, total: nat, start: nat, i: nat) {
    && Sum(ticks) == sum && sum >= 0 && Descends(ticks, start, i + 1) && OnTrack(total, start, i, sum)
    && AllNear(ticks, total, start, i)
  }

  lemma StageProgress(ticks: seq<int>, sum: int, total: nat, start: nat, i: nat, k: nat)
    requires 0 < i <= start && Progress(ticks, sum, total, start, i) && k > 0
    requires 2 * (sum + k * i) + i >= 2 * Target(total, start, i)
    requires k > 1 ==> 2 * (sum + k * i) - i < 2 * Target(total, start, i)
    ensures Progress(ticks + Ticks(k, i), sum + k * i, total, start, i - 1)
  {
    StageOnTrack(total, start, i, sum, k);
    SumTicks(ticks, k, i);
    DescendsNext(ticks, start, i, k);
    NearNext(ticks, total, start, i, k);
    MulMono(i, 0, k);
  }

  lemma DescendsNext(ticks: seq<int>, start: nat, i: nat, k: nat)
    requires 0 < i <= start && Descends(ticks, start, i + 1) && k > 0
    ensures Descends(ticks + Ticks(k, i), start, i)
  {
    var ticks' := ticks + Ticks(k, i);
    forall j | 0 <= j < |ticks| ensures ticks'[j] >= i + 1 {
      assert ticks[j] in ticks;
    }
    forall v ensures v in ticks' <==> i <= v <= start {
      if v == i {
        assert ticks'[|ticks|] == i;
      }
    }
  }

  lemma NextProduct(n: nat, total: nat)
    requires n > 0
    ensures 0 <= (n - 1) * total <= n * total
  {
    assert n * total == (n - 1) * total + total;
  }

  /**
   The list uses every strength from `start` down to 1 and no other, strongest first, as often as it
   takes to stay with the targets, and its sum is the amount exactly, or one tick of each strength
   where that is already more. `peak` is the largest product or sum that is computed on the way.
   */
  method GenerateDamageList(amount: int, start: int, list: seq<int>) returns (list': seq<int>, ghost peak: nat)
    ensures list <= list'
    ensures start <= 0 ==> list' == list
    ensures start > 0 ==> Descends(list'[|list|..], start, 1)
    ensures start > 0 ==> AllNear(list'[|list|..], Abs(amount), start, 0)
    ensures start > 0 ==> Sum(list'[|list|..]) == Max(Abs(amount), Triangle(start))
    ensures start > 0 ==> peak == Max(start * Abs(amount), Max(Abs(amount), Triangle(start)))
  {
    list', peak := list, 0;
    var total, sum := Abs(amount), 0;
    ghost var ticks: seq<int> := [];
    var i := start;
    while i > 0
      invariant start <= 0 ==> i == start && ticks == []
      invariant start > 0 ==> 0 <= i <= start && Progress(ticks, sum, total, start, i)
      invariant start > 0 ==> peak == Max((start - i) * total, sum)
      invariant list' == list + ticks
    {
      var n := start + 1 - i;
      var med := (n * total) / start;
      assert med == Target(total, start, i);
      NextProduct(n, total);
      peak := Max(peak, n * total);
      ghost var before, k := sum, 0;
      list', sum, k := Stage(list', sum, i, med);
      StageProgress(ticks, before, total, start, i, k);
      ticks := ticks + Ticks(k, i);
      peak := Max(peak, sum);
      i := i - 1;
    }
    assert list'[|list|..] == ticks;
  }

  /** Signed 32-bit words are wide enough for all of it if and only if these two products are below 2^31. */
  lemma FitsExactly(amount: int, start: nat, peak: nat)
    requires start > 0 && peak == Max(start * Abs(amount), Max(Abs(amount), Triangle(start)))
    ensures peak < 0x8000_0000 <==> start * Abs(amount) < 0x8000_0000 && start * (start + 1) < 0x1_0000_0000
  {
    TriangleIs(start);
    NextProduct(start, Abs(amount));
    assert Abs(amount) <= start * Abs(amount) by {
      assert start * Abs(amount) == (start - 1) * Abs(amount) + Abs(amount);
    }
  }

  /** The sum is the amount if and only if the amount affords one tick of every strength. */
  lemma SumExact(amount: int, start: nat, sum: int)
    requires start > 0 && sum == Max(Abs(amount), Triangle(start))
    ensures sum == Abs(amount) <==> 2 * Abs(amount) >= start * (start + 1)
    ensures Abs(amount) <= sum <= Abs(amount) + Triangle(start)
  {
    TriangleIs(start);
  }
}
