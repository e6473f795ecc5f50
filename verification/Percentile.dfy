/**
  The nearest-rank percentile of scripts/qualify_analysis.py, in which a missing sample ranks above
  every value. The fraction is exact, a numerator over a denominator.
*/
module Percentile {
  import Sorting

  datatype Option<T> = None | Some(value: T)

  /** A ranked sample: a value, or a missing one, which is infinite. */
  datatype Ranked = Value(value: real) | Missing

  predicate Leq(a: Ranked, b: Ranked) {
    b.Missing? || (a.Value? && a.value <= b.value)
  }

  predicate Ascends(a: real, b: real) {
    a <= b
  }

  function Max(a: int, b: int): int { if a < b then b else a }

  /** The least whole number of denominators that reaches a product. */
  function Ceiling(product: int, denominator: nat): nat
    requires denominator > 0
  {
    if product <= 0 then 0 else 1 + Ceiling(product - denominator, denominator)
  }

  /** max(1, ceil(numerator / denominator * count)). */
  function Rank(numerator: nat, denominator: nat, count: nat): nat
    requires denominator > 0
  {
    Max(1, Ceiling(numerator * count, denominator))
  }

  function Ordered(values: seq<real>, missing: nat): (r: seq<Ranked>)
    ensures |r| == |Sorting.Sort(Ascends, values)| + missing
  {
    var sorted := Sorting.Sort(Ascends, values);
    seq(|sorted|, i requires 0 <= i < |sorted| => Value(sorted[i])) + seq(missing, i => Missing)
  }

  function NearestRank(values: seq<real>, numerator: nat, denominator: nat, missing: nat): Option<Ranked>
    requires denominator > 0 && numerator <= denominator
  {
    if |values| + missing == 0 then None
    else
      Sorting.SortLength(Ascends, values);
      RankWithin(numerator, denominator, |values| + missing);
      Some(Ordered(values, missing)[Rank(numerator, denominator, |values| + missing) - 1])
  }

  /** The rank is the least number of samples, and at least one, that makes up the fraction of them. */
  lemma RankWithin(numerator: nat, denominator: nat, count: nat)
    requires denominator > 0 && numerator <= denominator && count > 0
    ensures 1 <= Rank(numerator, denominator, count) <= count
    ensures numerator * count <= denominator * Rank(numerator, denominator, count)
    ensures Rank(numerator, denominator, count) > 1 ==>
              denominator * (Rank(numerator, denominator, count) - 1) < numerator * count
  {
    var product := numerator * count;
    Shrinks(numerator, denominator, count);
    CeilingOf(product, denominator, count);
  }

  lemma Shrinks(numerator: nat, denominator: nat, count: nat)
    requires numerator <= denominator
    ensures 0 <= numerator * count <= denominator * count
  {
  }

  lemma {:induction false} CeilingOf(product: int, denominator: nat, count: nat)
    requires denominator > 0 && product <= denominator * count
    ensures var c := Ceiling(product, denominator);
            c <= count && product <= denominator * c && (c > 0 ==> denominator * (c - 1) < product)
    decreases count
  {
    if product > 0 {
      var c := Ceiling(product - denominator, denominator);
      assert count > 0 && denominator * (count - 1) == denominator * count - denominator;
      CeilingOf(product - denominator, denominator, count - 1);
      assert denominator * (c + 1) == denominator * c + denominator;
      if c > 0 {
        assert denominator * c == denominator * (c - 1) + denominator;
      }
    }
  }

  /** How many values are no greater than `x`. */
  function Within(values: seq<real>, x: real): nat {
    if values == [] then 0 else (if values[0] <= x then 1 else 0) + Within(values[1..], x)
  }

  /** How many samples rank no higher than `x`. */
  function AtOrBelow(values: seq<real>, missing: nat, x: Ranked): nat {
    match x
    case Value(v) => Within(values, v)
    case Missing => |values| + missing
  }

  lemma {:induction false} WithinInsert(x: real, s: seq<real>, bound: real)
    ensures Within(Sorting.Insert(Ascends, x, s), bound) == Within([x] + s, bound)
  {
    if s != [] && !Ascends(x, s[0]) {
      var rest := Sorting.Insert(Ascends, x, s[1..]);
      WithinInsert(x, s[1..], bound);
      assert ([s[0]] + rest)[1..] == rest && ([x] + s)[1..] == s && ([x] + s[1..])[1..] == s[1..];
    }
  }

  lemma {:induction false} WithinSorted(s: seq<real>, bound: real)
    ensures Within(Sorting.Sort(Ascends, s), bound) == Within(s, bound)
  {
    if s != [] {
      var rest := Sorting.Sort(Ascends, s[1..]);
      WithinSorted(s[1..], bound);
      WithinInsert(s[0], rest, bound);
      assert ([s[0]] + rest)[1..] == rest;
    }
  }

  lemma {:induction false} WithinSplit(a: seq<real>, b: seq<real>, bound: real)
    ensures Within(a + b, bound) == Within(a, bound) + Within(b, bound)
    ensures Within(a, bound) <= |a|
  {
    if a == [] {
      assert a + b == b;
    } else {
      WithinSplit(a[1..], b, bound);
      assert (a + b)[1..] == a[1..] + b;
    }
  }

  lemma {:induction false} AllWithin(a: seq<real>, bound: real)
    requires forall i | 0 <= i < |a| :: a[i] <= bound
    ensures Within(a, bound) == |a|
  {
    if a != [] {
      AllWithin(a[1..], bound);
    }
  }

  lemma {:induction false} NoneWithin(a: seq<real>, bound: real)
    requires forall i | 0 <= i < |a| :: a[i] > bound
    ensures Within(a, bound) == 0
  {
    if a != [] {
      NoneWithin(a[1..], bound);
    }
  }

  /** In ascending values, at least `rank` are within a bound exactly when the rank-th is. */
  lemma RankthWithin(sorted: seq<real>, rank: nat, bound: real)
    requires Sorting.Ascending(Ascends, sorted) && 1 <= rank <= |sorted|
    ensures Within(sorted, bound) >= rank <==> sorted[rank - 1] <= bound
  {
    if sorted[rank - 1] <= bound {
      assert sorted == sorted[..rank] + sorted[rank..];
      WithinSplit(sorted[..rank], sorted[rank..], bound);
      forall i | 0 <= i < rank ensures sorted[..rank][i] <= bound {
        assert Ascends(sorted[i], sorted[rank - 1]);
      }
      AllWithin(sorted[..rank], bound);
    } else {
      assert sorted == sorted[..rank - 1] + sorted[rank - 1..];
      WithinSplit(sorted[..rank - 1], sorted[rank - 1..], bound);
      forall i | rank - 1 <= i < |sorted| ensures sorted[i] > bound {
        assert Ascends(sorted[rank - 1], sorted[i]);
      }
      NoneWithin(sorted[rank - 1..], bound);
    }
  }

  /** The percentile is within a bound exactly when the rank's number of samples are. */
  lemma RankedWithin(values: seq<real>, numerator: nat, denominator: nat, missing: nat, bound: Ranked)
    requires denominator > 0 && numerator <= denominator && |values| + missing > 0
    ensures Leq(NearestRank(values, numerator, denominator, missing).value, bound)
            <==> AtOrBelow(values, missing, bound) >= Rank(numerator, denominator, |values| + missing)
  {
    var rank := Rank(numerator, denominator, |values| + missing);
    RankWithin(numerator, denominator, |values| + missing);
    Sorting.SortLength(Ascends, values);
    if bound.Value? {
      OrderedWithin(values, missing, rank, bound.value);
    }
  }

  lemma OrderedWithin(values: seq<real>, missing: nat, rank: nat, bound: real)
    requires 1 <= rank <= |Ordered(values, missing)|
    ensures Leq(Ordered(values, missing)[rank - 1], Value(bound)) <==> Within(values, bound) >= rank
  {
    var sorted := Sorting.Sort(Ascends, values);
    Sorting.SortSorts(Ascends, values);
    WithinSorted(values, bound);
    WithinSplit(sorted, [], bound);
    if rank <= |sorted| {
      RankthWithin(sorted, rank, bound);
    }
  }

  /** The percentile is the least rank at or below which the rank's number of samples lie. */
  lemma NearestRankIsLeast(values: seq<real>, numerator: nat, denominator: nat, missing: nat)
    requires denominator > 0 && numerator <= denominator && |values| + missing > 0
    ensures var p := NearestRank(values, numerator, denominator, missing).value;
            var rank := Rank(numerator, denominator, |values| + missing);
            && AtOrBelow(values, missing, p) >= rank
            && (forall x :: AtOrBelow(values, missing, x) >= rank ==> Leq(p, x))
            && (p.Value? ==> p.value in values)
  {
    var p := NearestRank(values, numerator, denominator, missing).value;
    RankedWithin(values, numerator, denominator, missing, p);
    forall x | AtOrBelow(values, missing, x) >= Rank(numerator, denominator, |values| + missing) ensures Leq(p, x) {
      RankedWithin(values, numerator, denominator, missing, x);
    }
    Sorting.SortSorts(Ascends, values);
    RankWithin(numerator, denominator, |values| + missing);
    if p.Value? {
      var sorted := Sorting.Sort(Ascends, values);
      var k := Rank(numerator, denominator, |values| + missing) - 1;
      assert p.value == sorted[k] && sorted[k] in multiset(sorted);
    }
  }

  /** When fewer values are answered of as many samples, and each bound still holds no more of them,
      the percentile is no lower. */
  lemma FewerNeverLowers(values: seq<real>, missing: nat, fewer: seq<real>, lost: nat, numerator: nat, denominator: nat)
    requires denominator > 0 && numerator <= denominator && |values| + missing > 0
    requires |fewer| + lost == |values| + missing
    requires forall x :: Within(fewer, x) <= Within(values, x)
    ensures Leq(NearestRank(values, numerator, denominator, missing).value,
                NearestRank(fewer, numerator, denominator, lost).value)
  {
    var q := NearestRank(fewer, numerator, denominator, lost).value;
    RankedWithin(fewer, numerator, denominator, lost, q);
    RankedWithin(values, numerator, denominator, missing, q);
    assert AtOrBelow(fewer, lost, q) <= AtOrBelow(values, missing, q);
  }

  /** A value that goes missing never lowers the percentile, whichever it is. */
  lemma MissingNeverLowers(values: seq<real>, k: nat, missing: nat, numerator: nat, denominator: nat)
    requires denominator > 0 && numerator <= denominator && k < |values|
    ensures Leq(NearestRank(values, numerator, denominator, missing).value,
                NearestRank(values[..k] + values[k + 1..], numerator, denominator, missing + 1).value)
  {
    var before, after := values[..k], values[k + 1..];
    forall x ensures Within(before + after, x) <= Within(values, x) {
      assert values == before + ([values[k]] + after);
      WithinSplit(before, after, x);
      WithinSplit(before, [values[k]] + after, x);
      WithinSplit([values[k]], after, x);
    }
    FewerNeverLowers(values, missing, before + after, missing + 1, numerator, denominator);
  }
}
