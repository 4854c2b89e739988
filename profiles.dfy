/** The profile builder: the six boundary profiles b1 .. b6 drawn from the
    minimum, the maximum and the 20/40/60/80 % quantiles of every criterion
    over a product table. */
module Profiles {

  import opened Wrappers
  import opened Criteria

  // Sorting, as the quantile computation does before interpolating

  predicate Sorted(s: seq<real>)
  {
    forall i, j :: 0 <= i < j < |s| ==> s[i] <= s[j]
  }

  /** Every element of t is at least b when every element of a permutation u of t is. */
  lemma LowerBoundByMultiset(b: real, t: seq<real>, u: seq<real>)
    requires multiset(t) == multiset(u)
    requires forall y :: y in u ==> b <= y
    ensures forall k :: 0 <= k < |t| ==> b <= t[k]
  {
    forall k | 0 <= k < |t| ensures b <= t[k] {
      assert t[k] in multiset(u);
      assert t[k] in u;
    }
  }

  function Insert(x: real, s: seq<real>): (r: seq<real>)
    requires Sorted(s)
    ensures Sorted(r)
    ensures multiset(r) == multiset(s) + multiset{x}
  {
    if s == [] then [x]
    else if x <= s[0] then [x] + s
    else
      var rest := Insert(x, s[1..]);
      InsertBehind(x, s, rest);
      [s[0]] + rest
  }

  /** Putting the head of s back in front of x inserted into the tail of s. */
  lemma InsertBehind(x: real, s: seq<real>, rest: seq<real>)
    requires Sorted(s) && s != [] && s[0] < x
    requires Sorted(rest) && multiset(rest) == multiset(s[1..]) + multiset{x}
    ensures Sorted([s[0]] + rest)
    ensures multiset([s[0]] + rest) == multiset(s) + multiset{x}
  {
    LowerBoundByMultiset(s[0], rest, s[1..] + [x]);
    assert s == [s[0]] + s[1..];
  }

  function Sort(s: seq<real>): (r: seq<real>)
    ensures Sorted(r)
    ensures multiset(r) == multiset(s)
  {
    if s == [] then []
    else
      assert s == [s[0]] + s[1..];
      Insert(s[0], Sort(s[1..]))
  }

  function Minimum(s: seq<real>): (m: real)
    requires |s| > 0
    ensures m in s
    ensures forall k :: 0 <= k < |s| ==> m <= s[k]
  {
    if |s| == 1 then s[0]
    else
      var rest := Minimum(s[1..]);
      if s[0] <= rest then s[0] else rest
  }

  function Maximum(s: seq<real>): (m: real)
    requires |s| > 0
    ensures m in s
    ensures forall k :: 0 <= k < |s| ==> s[k] <= m
  {
    if |s| == 1 then s[0]
    else
      var rest := Maximum(s[1..]);
      if s[0] >= rest then s[0] else rest
  }

  // Quantiles with linear interpolation

  /** The point a fraction t of the way from a to b. */
  function Lerp(a: real, b: real, t: real): real
  {
    a + t * (b - a)
  }

  lemma MulNonNegative(x: real, y: real)
    requires x >= 0.0 && y >= 0.0
    ensures x * y >= 0.0
  {
  }

  lemma LerpBetween(a: real, b: real, t: real)
    requires a <= b && 0.0 <= t <= 1.0
    ensures a <= Lerp(a, b, t) <= b
  {
    MulNonNegative(t, b - a);
    MulNonNegative(1.0 - t, b - a);
    assert b - Lerp(a, b, t) == (1.0 - t) * (b - a);
  }

  lemma LerpMonotone(a: real, b: real, t1: real, t2: real)
    requires a <= b && t1 <= t2
    ensures Lerp(a, b, t1) <= Lerp(a, b, t2)
  {
    MulNonNegative(t2 - t1, b - a);
    assert Lerp(a, b, t2) - Lerp(a, b, t1) == (t2 - t1) * (b - a);
  }

  lemma ScaleMonotone(m: real, a: real, b: real)
    requires m >= 0.0 && a <= b
    ensures m * a <= m * b
  {
    assert m * b - m * a == m * (b - a);
  }

  lemma FloorBounds(pos: real)
    requires pos >= 0.0
    ensures 0 <= pos.Floor
    ensures pos.Floor as real <= pos < pos.Floor as real + 1.0
  {
  }

  /** The value at fractional position `pos` of a sorted sequence, interpolated
      linearly between the two neighbouring elements. */
  function Interpolate(s: seq<real>, pos: real): real
    requires |s| > 0 && 0.0 <= pos <= (|s| - 1) as real
  {
    var lo := pos.Floor;
    if lo + 1 < |s| then Lerp(s[lo], s[lo + 1], pos - lo as real) else s[lo]
  }

  lemma QuantilePosition(n: nat, q: real)
    requires n > 0 && 0.0 <= q <= 1.0
    ensures 0.0 <= (n - 1) as real * q <= (n - 1) as real
  {
    MulNonNegative((n - 1) as real, q);
    MulNonNegative((n - 1) as real, 1.0 - q);
  }

  /** Where the q-quantile of n sorted values sits: position (n - 1) * q. */
  function Position(n: nat, q: real): (p: real)
    requires n > 0 && 0.0 <= q <= 1.0
    ensures 0.0 <= p <= (n - 1) as real
  {
    QuantilePosition(n, q);
    (n - 1) as real * q
  }

  lemma PositionMonotone(n: nat, q1: real, q2: real)
    requires n > 0 && 0.0 <= q1 <= q2 <= 1.0
    ensures Position(n, q1) <= Position(n, q2)
  {
    ScaleMonotone((n - 1) as real, q1, q2);
  }

  /** The q-quantile of a sorted sequence. */
  function Quantile(s: seq<real>, q: real): real
    requires |s| > 0 && 0.0 <= q <= 1.0
  {
    Interpolate(s, Position(|s|, q))
  }

  /** The interpolated value lies between the neighbours it interpolates. */
  lemma InterpolateBetween(s: seq<real>, pos: real)
    requires |s| > 0 && 0.0 <= pos <= (|s| - 1) as real && Sorted(s)
    ensures var lo := pos.Floor;
      0 <= lo < |s| &&
      (lo + 1 < |s| ==> s[lo] <= Interpolate(s, pos) <= s[lo + 1]) &&
      (lo + 1 >= |s| ==> Interpolate(s, pos) == s[lo])
  {
    var lo := pos.Floor;
    FloorBounds(pos);
    if lo + 1 < |s| {
      LerpBetween(s[lo], s[lo + 1], pos - lo as real);
    }
  }

  lemma InterpolateMonotone(s: seq<real>, p1: real, p2: real)
    requires |s| > 0 && Sorted(s)
    requires 0.0 <= p1 <= p2 <= (|s| - 1) as real
    ensures Interpolate(s, p1) <= Interpolate(s, p2)
  {
    InterpolateBetween(s, p1);
    InterpolateBetween(s, p2);
    var lo1, lo2 := p1.Floor, p2.Floor;
    if lo1 == lo2 {
      if lo1 + 1 < |s| {
        LerpMonotone(s[lo1], s[lo1 + 1], p1 - lo1 as real, p2 - lo2 as real);
      }
    } else {
      assert lo1 + 1 <= lo2;
      assert s[lo1 + 1] <= s[lo2];
    }
  }

  lemma QuantileMonotone(s: seq<real>, q1: real, q2: real)
    requires |s| > 0 && Sorted(s) && 0.0 <= q1 <= q2 <= 1.0
    ensures Quantile(s, q1) <= Quantile(s, q2)
  {
    PositionMonotone(|s|, q1, q2);
    InterpolateMonotone(s, Position(|s|, q1), Position(|s|, q2));
  }

  /** A quantile lies between the smallest and the largest element. */
  lemma QuantileWithinRange(s: seq<real>, q: real)
    requires |s| > 0 && Sorted(s) && 0.0 <= q <= 1.0
    ensures s[0] <= Quantile(s, q) <= s[|s| - 1]
  {
    QuantileMonotone(s, 0.0, q);
    QuantileMonotone(s, q, 1.0);
    InterpolateBetween(s, (|s| - 1) as real);
    assert ((|s| - 1) as real).Floor == |s| - 1;
  }

  /** Interpolation between the first two of five values, as 0.2 of five sorted values gives. */
  lemma QuantileExample()
    ensures Quantile([1.0, 2.0, 3.0, 4.0, 5.0], 0.2) == 1.8
    ensures Quantile([1.0, 2.0, 3.0, 4.0, 5.0], 0.8) == 4.2
    ensures Quantile([7.0], 0.6) == 7.0
  {
    assert Position(5, 0.2) == 0.8 && (0.8).Floor == 0;
    assert Position(5, 0.8) == 3.2 && (3.2).Floor == 3;
    assert Position(1, 0.6) == 0.0 && (0.0).Floor == 0;
  }

  /** The smallest and the largest element of a sequence are the ends of any
      sorted permutation of it. */
  lemma SortedPermutationEnds(col: seq<real>, s: seq<real>)
    requires |col| > 0 && Sorted(s) && multiset(s) == multiset(col)
    ensures |s| == |col| && s[0] == Minimum(col) && s[|s| - 1] == Maximum(col)
  {
    assert |s| == |col| by { assert |multiset(s)| == |multiset(col)|; }
    var mn, mx := Minimum(col), Maximum(col);
    assert s[0] in col by { assert s[0] in multiset(s); }
    assert s[|s| - 1] in col by { assert s[|s| - 1] in multiset(s); }
    assert mn in s by { assert mn in multiset(col); }
    assert mx in s by { assert mx in multiset(col); }
  }

  lemma SortEnds(col: seq<real>)
    requires |col| > 0
    ensures |Sort(col)| == |col|
    ensures Sort(col)[0] == Minimum(col)
    ensures Sort(col)[|col| - 1] == Maximum(col)
  {
    SortedPermutationEnds(col, Sort(col));
  }

  // The product table's column for one criterion

  function ColumnOf(data: seq<Vector>, c: Criterion): (col: seq<real>)
    ensures |col| == |data| && forall k :: 0 <= k < |data| ==> col[k] == Get(data[k], c)
  {
    seq(|data|, k requires 0 <= k < |data| => Get(data[k], c))
  }

  /** What the builder reads off one column: its minimum, its 20, 40, 60
      and 80 % quantiles and its maximum. */
  datatype Summary = Summary(lowest: real, q20: real, q40: real, q60: real, q80: real, highest: real)

  function Summarise(col: seq<real>): Summary
    requires |col| > 0
  {
    var s := Sort(col);
    Summary(Minimum(col), Quantile(s, 0.2), Quantile(s, 0.4), Quantile(s, 0.6), Quantile(s, 0.8), Maximum(col))
  }

  /** The statistics of a column come in increasing order and enclose every
      value of the column. */
  lemma SummaryOrdered(col: seq<real>)
    requires |col| > 0
    ensures var sm := Summarise(col);
      sm.lowest <= sm.q20 <= sm.q40 <= sm.q60 <= sm.q80 <= sm.highest
    ensures var sm := Summarise(col);
      forall k :: 0 <= k < |col| ==> sm.lowest <= col[k] <= sm.highest
  {
    var s := Sort(col);
    SortEnds(col);
    QuantileWithinRange(s, 0.2);
    QuantileMonotone(s, 0.2, 0.4);
    QuantileMonotone(s, 0.4, 0.6);
    QuantileMonotone(s, 0.6, 0.8);
    QuantileWithinRange(s, 0.8);
  }

  /** The value of profile b(i+1) (index i, 0 .. 5) on a criterion whose
      column has statistics sm. For a criterion to minimise, b6 is a tenth of
      the minimum, b5 .. b2 are the 20, 40, 60 and 80 % quantiles and b1 is one
      and a half times the maximum; for one to maximise the order is reversed. */
  function Pick(sm: Summary, maximised: bool, i: nat): real
    requires i < 6
  {
    if !maximised then
      if i == 5 then sm.lowest * 0.1
      else if i == 4 then sm.q20
      else if i == 3 then sm.q40
      else if i == 2 then sm.q60
      else if i == 1 then sm.q80
      else sm.highest * 1.5
    else
      if i == 5 then sm.highest * 1.5
      else if i == 4 then sm.q80
      else if i == 3 then sm.q60
      else if i == 2 then sm.q40
      else if i == 1 then sm.q20
      else sm.lowest * 0.1
  }

  /** With a non-negative minimum, the picked values never get worse from
      b1 to b6 in the criterion's direction. */
  lemma PickChain(sm: Summary, maximised: bool)
    requires 0.0 <= sm.lowest <= sm.q20 <= sm.q40 <= sm.q60 <= sm.q80 <= sm.highest
    ensures forall i, j :: 0 <= i <= j < 6 ==>
      if maximised then Pick(sm, maximised, i) <= Pick(sm, maximised, j)
      else Pick(sm, maximised, j) <= Pick(sm, maximised, i)
  {
  }

  function ProfileValue(data: seq<Vector>, c: Criterion, i: nat): real
    requires |data| > 0 && i < 6
  {
    Pick(Summarise(ColumnOf(data, c)), Maximised(c), i)
  }

  function ProfileRow(data: seq<Vector>, i: nat): (v: Vector)
    requires |data| > 0 && i < 6
    ensures forall c :: Get(v, c) == ProfileValue(data, c, i)
  {
    Vector(ProfileValue(data, EnergyKj, i), ProfileValue(data, SaturatedFat, i),
           ProfileValue(data, Sugars, i), ProfileValue(data, Sodium, i),
           ProfileValue(data, Proteins, i), ProfileValue(data, Fibres, i),
           ProfileValue(data, FruitsVegetables, i), ProfileValue(data, Additives, i))
  }

  /** The six profiles b1 .. b6 built from a non-empty product table. */
  function ProfilesOf(data: seq<Vector>): (ps: seq<Vector>)
    requires |data| > 0
    ensures |ps| == 6 && forall i, c :: 0 <= i < 6 ==> Get(ps[i], c) == ProfileValue(data, c, i)
  {
    seq(6, i requires 0 <= i < 6 => ProfileRow(data, i))
  }

  /** The six values the builder writes for one criterion are the picked ones. */
  lemma PickValues(sm: Summary, maximised: bool, values: seq<real>)
    requires values == if !maximised then [sm.highest * 1.5, sm.q80, sm.q60, sm.q40, sm.q20, sm.lowest * 0.1]
                       else [sm.lowest * 0.1, sm.q20, sm.q40, sm.q60, sm.q80, sm.highest * 1.5]
    ensures |values| == 6 && forall i :: 0 <= i < 6 ==> values[i] == Pick(sm, maximised, i)
  {
  }

  /** One step of the builder: the six profiles' values on criterion c, from
      the column's minimum, quantiles and maximum. */
  method FillCriterion(data: seq<Vector>, profiles: seq<Vector>, c: Criterion) returns (next: seq<Vector>)
    requires |data| > 0 && |profiles| == 6
    ensures |next| == 6 && forall i :: 0 <= i < 6 ==> next[i] == Set(profiles[i], c, ProfileValue(data, c, i))
  {
    var sm := Summarise(ColumnOf(data, c));
    var values;
    if !Maximised(c) {
      values := [sm.highest * 1.5, sm.q80, sm.q60, sm.q40, sm.q20, sm.lowest * 0.1];
    } else {
      values := [sm.lowest * 0.1, sm.q20, sm.q40, sm.q60, sm.q80, sm.highest * 1.5];
    }
    PickValues(sm, Maximised(c), values);
    next := [Set(profiles[0], c, values[0]), Set(profiles[1], c, values[1]),
             Set(profiles[2], c, values[2]), Set(profiles[3], c, values[3]),
             Set(profiles[4], c, values[4]), Set(profiles[5], c, values[5])];
  }

  /** Filling in criterion c keeps the criteria already done and adds c. */
  lemma FillStep(data: seq<Vector>, profiles: seq<Vector>, next: seq<Vector>,
                 done: seq<Criterion>, c: Criterion)
    requires |data| > 0 && |profiles| == 6 && |next| == 6
    requires forall i :: 0 <= i < 6 ==> next[i] == Set(profiles[i], c, ProfileValue(data, c, i))
    requires forall i, d :: 0 <= i < 6 && d in done ==> Get(profiles[i], d) == ProfileValue(data, d, i)
    ensures forall i, d :: 0 <= i < 6 && d in done + [c] ==> Get(next[i], d) == ProfileValue(data, d, i)
  {
    forall i, d | 0 <= i < 6 && d in done + [c] ensures Get(next[i], d) == ProfileValue(data, d, i) {
      if d != c {
        assert d in done;
      }
    }
  }

  /** The profile builder: one pass over the criteria, filling in the six
      profiles' value on each. An empty table yields no profiles. */
  method CreateProfiles(data: seq<Vector>) returns (r: Option<seq<Vector>>)
    ensures r.None? <==> data == []
    ensures r.Some? ==> r.value == ProfilesOf(data)
  {
    if data == [] {
      return None;
    }
    var zero := Vector(0.0, 0.0, 0.0, 0.0, 0.0, 0.0, 0.0, 0.0);
    var profiles := [zero, zero, zero, zero, zero, zero];
    for k := 0 to |AllCriteria|
      invariant |profiles| == 6
      invariant forall i, d :: 0 <= i < 6 && d in AllCriteria[..k] ==>
        Get(profiles[i], d) == ProfileValue(data, d, i)
    {
      var c := AllCriteria[k];
      var next := FillCriterion(data, profiles, c);
      FillStep(data, profiles, next, AllCriteria[..k], c);
      assert AllCriteria[..k + 1] == AllCriteria[..k] + [c];
      profiles := next;
    }
    var expected := ProfilesOf(data);
    forall i | 0 <= i < 6 ensures profiles[i] == expected[i] {
      forall d ensures Get(profiles[i], d) == Get(expected[i], d) {
        AllCriteriaListsEachOnce(d);
        assert AllCriteria[..|AllCriteria|] == AllCriteria;
      }
      VectorExtensionality(profiles[i], expected[i]);
    }
    return Some(profiles);
  }

  predicate NonNegativeData(data: seq<Vector>)
  {
    forall k, c :: 0 <= k < |data| ==> Get(data[k], c) >= 0.0
  }

  /** The column of a non-negative table has non-negative, ordered statistics. */
  lemma ColumnSummaryOrdered(data: seq<Vector>, c: Criterion)
    requires |data| > 0 && NonNegativeData(data)
    ensures var sm := Summarise(ColumnOf(data, c));
      0.0 <= sm.lowest <= sm.q20 <= sm.q40 <= sm.q60 <= sm.q80 <= sm.highest
  {
    var col := ColumnOf(data, c);
    SummaryOrdered(col);
    assert col[0] >= 0.0;
  }

  /** Built from a non-empty table of non-negative values, the profiles never
      get worse from b1 to b6 on any criterion. */
  lemma ProfilesOfImprove(data: seq<Vector>)
    requires |data| > 0 && NonNegativeData(data)
    ensures ProfilesImprove(ProfilesOf(data))
  {
    var ps := ProfilesOf(data);
    forall i, j, c | 0 <= i <= j < 6
      ensures AtLeastAsGood(c, Get(ps[j], c), Get(ps[i], c))
    {
      var sm := Summarise(ColumnOf(data, c));
      ColumnSummaryOrdered(data, c);
      PickChain(sm, Maximised(c));
    }
  }

  /** A value between the minimum and the maximum lies between the picked
      b1 and b6 values, strictly so when the minimum is positive. */
  lemma PickEncloses(sm: Summary, maximised: bool, x: real)
    requires 0.0 <= sm.lowest <= x <= sm.highest
    ensures if maximised then Pick(sm, maximised, 0) <= x <= Pick(sm, maximised, 5)
            else Pick(sm, maximised, 5) <= x <= Pick(sm, maximised, 0)
    ensures sm.lowest > 0.0 ==> Pick(sm, maximised, 0) != x && Pick(sm, maximised, 5) != x
  {
  }

  /** Every observed value lies between b1 and b6: b6 is at least as good and
      b1 at most as good. When the column's minimum is positive both margins
      are strict. */
  lemma ObservationsBetweenExtremes(data: seq<Vector>, c: Criterion, k: nat)
    requires |data| > 0 && NonNegativeData(data) && k < |data|
    ensures var x := Get(data[k], c);
      AtLeastAsGood(c, ProfileValue(data, c, 5), x) && AtLeastAsGood(c, x, ProfileValue(data, c, 0))
    ensures var x := Get(data[k], c);
      Summarise(ColumnOf(data, c)).lowest > 0.0 ==>
        ProfileValue(data, c, 5) != x && ProfileValue(data, c, 0) != x
  {
    var col := ColumnOf(data, c);
    var sm := Summarise(col);
    SummaryOrdered(col);
    ColumnSummaryOrdered(data, c);
    assert col[k] == Get(data[k], c);
    PickEncloses(sm, Maximised(c), col[k]);
  }
}
