/** The ELECTRE TRI classifier: binary partial concordance, weighted global
    concordance, the outranking test, the pessimistic and optimistic
    assignment procedures and the batch driver. */
module Electre {

  import opened Wrappers
  import opened Labels
  import opened Criteria

  /** The classifier's configuration, fixed when it is created: the weight
      dictionary, the boundary profiles b1 .. b6 (indices 0 .. 5) and the
      majority threshold lambda. */
  datatype ElectreTri = ElectreTri(weights: Weights, profiles: seq<Vector>, threshold: real)

  /** The majority threshold used when none is given. */
  const DefaultThreshold: real := 0.6

  /** What the procedures need: six profiles to look up, and a weight sum to divide by. */
  predicate Valid(e: ElectreTri)
  {
    |e.profiles| == 6 && WeightSum(e.weights) != 0.0
  }

  // Real-number steps the solver needs spelled out

  lemma DivWithinUnit(f: real, s: real)
    requires s > 0.0 && 0.0 <= f <= s
    ensures 0.0 <= f / s <= 1.0
  {
    assert (f / s) * s == f;
  }

  lemma DivSum(f: real, g: real, s: real)
    requires s > 0.0 && f + g >= s
    ensures f / s + g / s >= 1.0
  {
    assert (f / s + g / s) * s == f + g;
  }

  lemma DivSelf(s: real)
    requires s != 0.0
    ensures s / s == 1.0
  {
  }

  /** k times x. Scaled quantities are stated through this function so that equal
      products are recognised as equal terms. */
  function Times(k: real, x: real): real
  {
    k * x
  }

  lemma DivCancel(f: real, s: real, k: real, kf: real, ks: real)
    requires s != 0.0 && k != 0.0 && kf == Times(k, f) && ks == Times(k, s)
    ensures ks != 0.0 && kf / ks == f / s
  {
    assert (f / s) * s == f;
    assert ks * (f / s) == kf;
  }

  /** Dividing both sums and the total by the same non-zero factor. */
  lemma PairCancel(f: real, g: real, s: real, k: real, kf: real, kg: real, ks: real)
    requires s != 0.0 && k != 0.0 && kf == Times(k, f) && kg == Times(k, g) && ks == Times(k, s)
    ensures ks != 0.0 && (kf / ks, kg / ks) == (f / s, g / s)
  {
    DivCancel(f, s, k, kf, ks);
    DivCancel(g, s, k, kg, ks);
  }

  // Concordance

  /** (c(a, b), c(b, a)) on one criterion: 1 when the first is at least as good
      as the second in the criterion's direction, 0 otherwise. */
  function PartialConcordance(a: Vector, b: Vector, c: Criterion): (r: (real, real))
    ensures r.0 == (if AtLeastAsGood(c, Get(a, c), Get(b, c)) then 1.0 else 0.0)
    ensures r.1 == (if AtLeastAsGood(c, Get(b, c), Get(a, c)) then 1.0 else 0.0)
  {
    var va, vb := Get(a, c), Get(b, c);
    if Maximised(c) then
      (if va >= vb then 1.0 else 0.0, if vb >= va then 1.0 else 0.0)
    else
      (if vb >= va then 1.0 else 0.0, if va >= vb then 1.0 else 0.0)
  }

  /** On every criterion at least one side concords, and both do exactly on a tie. */
  lemma PartialConcordanceTies(a: Vector, b: Vector, c: Criterion)
    ensures PartialConcordance(a, b, c).0 == 1.0 || PartialConcordance(a, b, c).1 == 1.0
    ensures PartialConcordance(a, b, c) == (1.0, 1.0) <==> Get(a, c) == Get(b, c)
  {
  }

  /** The weight an entry contributes to C(a, b): its weight times c(a, b),
      that is, its weight when a is at least as good as b on its criterion. */
  function Share(w: Weight, a: Vector, b: Vector): real
  {
    if AtLeastAsGood(w.criterion, Get(a, w.criterion), Get(b, w.criterion)) then w.weight else 0.0
  }

  lemma ShareIsWeightedPartial(w: Weight, a: Vector, b: Vector)
    ensures Share(w, a, b) == w.weight * PartialConcordance(a, b, w.criterion).0
    ensures Share(w, b, a) == w.weight * PartialConcordance(a, b, w.criterion).1
  {
  }

  /** The weight of the criteria on which a is at least as good as b. */
  function ForSum(ws: Weights, a: Vector, b: Vector): real
  {
    if ws == [] then 0.0 else ForSum(ws[..|ws| - 1], a, b) + Share(ws[|ws| - 1], a, b)
  }

  /** The weight of the criteria on which b is at least as good as a. */
  function AgainstSum(ws: Weights, a: Vector, b: Vector): real
  {
    if ws == [] then 0.0 else AgainstSum(ws[..|ws| - 1], a, b) + Share(ws[|ws| - 1], b, a)
  }

  /** (C(a, b), C(b, a)): the concording weights divided by the weight sum. */
  function Concordance(ws: Weights, a: Vector, b: Vector): (real, real)
    requires WeightSum(ws) != 0.0
  {
    (ForSum(ws, a, b) / WeightSum(ws), AgainstSum(ws, a, b) / WeightSum(ws))
  }

  /** The concordance loop over the weight dictionary. */
  method GlobalConcordance(ws: Weights, a: Vector, b: Vector) returns (cab: real, cba: real)
    requires WeightSum(ws) != 0.0
    ensures (cab, cba) == Concordance(ws, a, b)
  {
    var total := WeightSum(ws);
    cab, cba := 0.0, 0.0;
    for k := 0 to |ws|
      invariant cab == ForSum(ws[..k], a, b)
      invariant cba == AgainstSum(ws[..k], a, b)
    {
      var partial := PartialConcordance(a, b, ws[k].criterion);
      assert ws[..k + 1][..k] == ws[..k];
      ShareIsWeightedPartial(ws[k], a, b);
      cab := cab + ws[k].weight * partial.0;
      cba := cba + ws[k].weight * partial.1;
    }
    assert ws[..|ws|] == ws;
    cab := cab / total;
    cba := cba / total;
  }

  lemma {:induction false} SumsBounded(ws: Weights, a: Vector, b: Vector)
    requires NonNegative(ws)
    ensures 0.0 <= ForSum(ws, a, b) <= WeightSum(ws)
    ensures 0.0 <= AgainstSum(ws, a, b) <= WeightSum(ws)
    ensures ForSum(ws, a, b) + AgainstSum(ws, a, b) >= WeightSum(ws)
  {
    if ws != [] {
      var init := ws[..|ws| - 1];
      SumsBounded(init, a, b);
      PartialConcordanceTies(a, b, ws[|ws| - 1].criterion);
    }
  }

  /** With non-negative weights of positive sum, both concordances lie in [0, 1]
      and together they reach at least 1. */
  lemma ConcordanceBounds(ws: Weights, a: Vector, b: Vector)
    requires NonNegative(ws) && WeightSum(ws) > 0.0
    ensures 0.0 <= Concordance(ws, a, b).0 <= 1.0
    ensures 0.0 <= Concordance(ws, a, b).1 <= 1.0
    ensures Concordance(ws, a, b).0 + Concordance(ws, a, b).1 >= 1.0
  {
    SumsBounded(ws, a, b);
    var s, f, g := WeightSum(ws), ForSum(ws, a, b), AgainstSum(ws, a, b);
    DivWithinUnit(f, s);
    DivWithinUnit(g, s);
    DivSum(f, g, s);
  }

  lemma {:induction false} SelfSums(ws: Weights, a: Vector)
    ensures ForSum(ws, a, a) == WeightSum(ws) && AgainstSum(ws, a, a) == WeightSum(ws)
  {
    if ws != [] {
      SelfSums(ws[..|ws| - 1], a);
    }
  }

  /** An item compared with itself concords fully on both sides. */
  lemma SelfConcordance(ws: Weights, a: Vector)
    requires WeightSum(ws) != 0.0
    ensures Concordance(ws, a, a) == (1.0, 1.0)
  {
    SelfSums(ws, a);
    DivSelf(WeightSum(ws));
  }

  /** c(b, a) on the pair (a, b) is c(a, b) on the pair (b, a). */
  lemma {:induction false} SwappedSums(ws: Weights, a: Vector, b: Vector)
    ensures AgainstSum(ws, a, b) == ForSum(ws, b, a)
  {
    if ws != [] {
      SwappedSums(ws[..|ws| - 1], a, b);
    }
  }

  /** The weights multiplied by k. */
  function Scale(ws: Weights, k: real): (r: Weights)
    ensures |r| == |ws|
  {
    seq(|ws|, i requires 0 <= i < |ws| => Weight(ws[i].criterion, Times(k, ws[i].weight)))
  }

  /** The last entry of the scaled weights is the last weight scaled. */
  lemma ScaleLast(ws: Weights, k: real)
    requires ws != []
    ensures Scale(ws, k)[..|ws| - 1] == Scale(ws[..|ws| - 1], k)
    ensures Scale(ws, k)[|ws| - 1] == Weight(ws[|ws| - 1].criterion, Times(k, ws[|ws| - 1].weight))
  {
    var r, s := Scale(ws, k), Scale(ws[..|ws| - 1], k);
    assert forall i :: 0 <= i < |ws| - 1 ==> r[i] == s[i];
  }

  lemma ScaleStep(k: real, x: real, y: real, w: real, kw: real, total: real, scaledTotal: real)
    requires y == Times(k, x) && kw == Times(k, w) && total == x + w && scaledTotal == y + kw
    ensures scaledTotal == Times(k, total)
  {
  }

  lemma {:induction false} ScaledWeightSum(ws: Weights, k: real)
    ensures WeightSum(Scale(ws, k)) == Times(k, WeightSum(ws))
  {
    if ws != [] {
      var n := |ws|;
      ScaleLast(ws, k);
      var r := Scale(ws, k);
      ScaledWeightSum(ws[..n - 1], k);
      ScaleStep(k, WeightSum(ws[..n - 1]), WeightSum(Scale(ws[..n - 1], k)), ws[n - 1].weight, r[n - 1].weight,
                WeightSum(ws), WeightSum(r));
    }
  }

  /** The entries of the weight dictionary whose criterion concords for (a, b). */
  function Concording(ws: Weights, a: Vector, b: Vector): Weights
  {
    if ws == [] then []
    else if AtLeastAsGood(ws[|ws| - 1].criterion, Get(a, ws[|ws| - 1].criterion), Get(b, ws[|ws| - 1].criterion))
    then Concording(ws[..|ws| - 1], a, b) + [ws[|ws| - 1]]
    else Concording(ws[..|ws| - 1], a, b)
  }

  lemma {:induction false} ForSumIsConcordingWeight(ws: Weights, a: Vector, b: Vector)
    ensures ForSum(ws, a, b) == WeightSum(Concording(ws, a, b))
  {
    if ws != [] {
      ForSumIsConcordingWeight(ws[..|ws| - 1], a, b);
      var init := Concording(ws[..|ws| - 1], a, b);
      assert (init + [ws[|ws| - 1]])[..|init|] == init;
    }
  }

  lemma ScaleAppend(ws: Weights, w: Weight, k: real)
    ensures Scale(ws + [w], k) == Scale(ws, k) + [Weight(w.criterion, Times(k, w.weight))]
  {
    var r, s := Scale(ws + [w], k), Scale(ws, k) + [Weight(w.criterion, Times(k, w.weight))];
    assert forall i :: 0 <= i < |ws| ==> r[i] == s[i];
  }

  /** Keeping the concording entries commutes with scaling the weights. */
  lemma {:induction false} ConcordingScaled(ws: Weights, k: real, a: Vector, b: Vector)
    ensures Concording(Scale(ws, k), a, b) == Scale(Concording(ws, a, b), k)
  {
    if ws != [] {
      var n := |ws|;
      var w := ws[n - 1];
      ScaleLast(ws, k);
      ConcordingScaled(ws[..n - 1], k, a, b);
      var scaled := Scale(ws, k);
      assert scaled[n - 1].criterion == w.criterion;
      if AtLeastAsGood(w.criterion, Get(a, w.criterion), Get(b, w.criterion)) {
        assert Concording(scaled, a, b) == Concording(scaled[..n - 1], a, b) + [scaled[n - 1]];
        assert Concording(ws, a, b) == Concording(ws[..n - 1], a, b) + [w];
        ScaleAppend(Concording(ws[..n - 1], a, b), w, k);
        assert scaled[n - 1] == Weight(w.criterion, Times(k, w.weight));
        assert Concording(scaled[..n - 1], a, b) == Scale(Concording(ws[..n - 1], a, b), k);
      } else {
        assert Concording(scaled, a, b) == Concording(scaled[..n - 1], a, b);
      }
    }
  }

  lemma ScaledForSum(ws: Weights, k: real, a: Vector, b: Vector)
    ensures ForSum(Scale(ws, k), a, b) == Times(k, ForSum(ws, a, b))
  {
    var kept := Concording(ws, a, b);
    calc {
      ForSum(Scale(ws, k), a, b);
    == { ForSumIsConcordingWeight(Scale(ws, k), a, b); }
      WeightSum(Concording(Scale(ws, k), a, b));
    == { ConcordingScaled(ws, k, a, b); }
      WeightSum(Scale(kept, k));
    == { ScaledWeightSum(kept, k); }
      Times(k, WeightSum(kept));
    == { ForSumIsConcordingWeight(ws, a, b); }
      Times(k, ForSum(ws, a, b));
    }
  }

  /** The concordance pair computed from known sums. */
  lemma ConcordanceFromSums(ws: Weights, a: Vector, b: Vector, f: real, g: real, s: real)
    requires ForSum(ws, a, b) == f && AgainstSum(ws, a, b) == g && WeightSum(ws) == s && s != 0.0
    ensures Concordance(ws, a, b) == (f / s, g / s)
  {
  }

  /** Scaling the weights by k scales the concording weight against a as well. */
  lemma ScaledAgainstSum(ws: Weights, k: real, a: Vector, b: Vector)
    ensures AgainstSum(Scale(ws, k), a, b) == Times(k, AgainstSum(ws, a, b))
  {
    SwappedSums(ws, a, b);
    SwappedSums(Scale(ws, k), a, b);
    ScaledForSum(ws, k, b, a);
  }

  /** Multiplying every weight by the same positive constant changes no concordance. */
  lemma ConcordanceScaleInvariant(ws: Weights, k: real, a: Vector, b: Vector)
    requires WeightSum(ws) != 0.0 && k > 0.0
    ensures WeightSum(Scale(ws, k)) != 0.0
    ensures Concordance(Scale(ws, k), a, b) == Concordance(ws, a, b)
  {
    var vs := Scale(ws, k);
    var f, g, s := ForSum(ws, a, b), AgainstSum(ws, a, b), WeightSum(ws);
    ScaledWeightSum(ws, k);
    ScaledForSum(ws, k, a, b);
    ScaledAgainstSum(ws, k, a, b);
    PairCancel(f, g, s, k, ForSum(vs, a, b), AgainstSum(vs, a, b), WeightSum(vs));
    ConcordanceFromSums(vs, a, b, ForSum(vs, a, b), AgainstSum(vs, a, b), WeightSum(vs));
    ConcordanceFromSums(ws, a, b, f, g, s);
  }

  lemma DivMonotone(f: real, g: real, s: real)
    requires s > 0.0 && f <= g
    ensures f / s <= g / s
  {
    assert (g / s - f / s) * s == g - f;
  }

  /** Against a profile that is at least as good everywhere, an item concords on
      fewer criteria, and the profile on more. */
  lemma {:induction false} SumsMonotoneInProfile(ws: Weights, a: Vector, lo: Vector, hi: Vector)
    requires NonNegative(ws)
    requires forall c :: AtLeastAsGood(c, Get(hi, c), Get(lo, c))
    ensures ForSum(ws, a, hi) <= ForSum(ws, a, lo)
    ensures AgainstSum(ws, a, lo) <= AgainstSum(ws, a, hi)
  {
    if ws != [] {
      SumsMonotoneInProfile(ws[..|ws| - 1], a, lo, hi);
      var c := ws[|ws| - 1].criterion;
      assert AtLeastAsGood(c, Get(hi, c), Get(lo, c));
    }
  }

  // Outranking

  /** a S b: C(a, b) reaches the majority threshold. */
  predicate Outranks(e: ElectreTri, a: Vector, b: Vector)
    requires WeightSum(e.weights) != 0.0
  {
    Concordance(e.weights, a, b).0 >= e.threshold
  }

  /** b S a: C(b, a) reaches the majority threshold. */
  predicate OutrankedBy(e: ElectreTri, a: Vector, b: Vector)
    requires WeightSum(e.weights) != 0.0
  {
    Concordance(e.weights, a, b).1 >= e.threshold
  }

  /** The pair (a S b, b S a). */
  method Outranking(e: ElectreTri, a: Vector, b: Vector) returns (aSb: bool, bSa: bool)
    requires WeightSum(e.weights) != 0.0
    ensures aSb == Outranks(e, a, b) && bSa == OutrankedBy(e, a, b)
  {
    var cab, cba := GlobalConcordance(e.weights, a, b);
    aSb := cab >= e.threshold;
    bSa := cba >= e.threshold;
  }

  /** An item and an identical profile outrank each other for every threshold up to 1. */
  lemma SelfOutranking(e: ElectreTri, a: Vector)
    requires WeightSum(e.weights) != 0.0 && e.threshold <= 1.0
    ensures Outranks(e, a, a) && OutrankedBy(e, a, a)
  {
    SelfConcordance(e.weights, a);
  }

  /** The item outranks profile b_i (1 <= i <= 6). */
  predicate OutranksProfile(e: ElectreTri, a: Vector, i: nat)
    requires Valid(e) && 1 <= i <= 6
  {
    Outranks(e, a, e.profiles[i - 1])
  }

  /** Profile b_i outranks the item and the item does not outrank it. */
  predicate StrictlyBelowProfile(e: ElectreTri, a: Vector, i: nat)
    requires Valid(e) && 1 <= i <= 6
  {
    OutrankedBy(e, a, e.profiles[i - 1]) && !Outranks(e, a, e.profiles[i - 1])
  }

  /** With profiles improving from b1 to b6, an item that outranks b_i outranks
      every lower profile b_j. */
  lemma OutranksLowerProfiles(e: ElectreTri, a: Vector, i: nat, j: nat)
    requires Valid(e) && NonNegative(e.weights) && WeightSum(e.weights) > 0.0
    requires ProfilesImprove(e.profiles)
    requires 1 <= j <= i <= 6 && OutranksProfile(e, a, i)
    ensures OutranksProfile(e, a, j)
  {
    var lo, hi := e.profiles[j - 1], e.profiles[i - 1];
    SumsMonotoneInProfile(e.weights, a, lo, hi);
    DivMonotone(ForSum(e.weights, a, hi), ForSum(e.weights, a, lo), WeightSum(e.weights));
  }

  /** With profiles improving from b1 to b6, a profile b_i that outranks the item
      is followed by higher profiles b_j that outrank it too. */
  lemma HigherProfilesOutrank(e: ElectreTri, a: Vector, i: nat, j: nat)
    requires Valid(e) && NonNegative(e.weights) && WeightSum(e.weights) > 0.0
    requires ProfilesImprove(e.profiles)
    requires 1 <= i <= j <= 6 && OutrankedBy(e, a, e.profiles[i - 1])
    ensures OutrankedBy(e, a, e.profiles[j - 1])
  {
    var lo, hi := e.profiles[i - 1], e.profiles[j - 1];
    SumsMonotoneInProfile(e.weights, a, lo, hi);
    DivMonotone(AgainstSum(e.weights, a, lo), AgainstSum(e.weights, a, hi), WeightSum(e.weights));
  }

  // Assignment procedures

  /** Pessimistic procedure: the category of an item outranking b_i (and no higher profile). */
  function PessimisticCategory(i: nat): Grade
    requires 1 <= i <= 6
  {
    if i == 6 then A else if i == 5 then B else if i == 4 then C else if i == 3 then D else E
  }

  /** Optimistic procedure: the category of an item first strictly below b_i. */
  function OptimisticCategory(i: nat): Grade
    requires 1 <= i <= 6
  {
    if i == 1 then E else if i == 2 then D else if i == 3 then C else if i == 4 then B else A
  }

  /** The pessimistic scan from b_i down to b1; E when no profile is outranked. */
  function PessimisticFrom(e: ElectreTri, a: Vector, i: nat): Grade
    requires Valid(e) && i <= 6
  {
    if i == 0 then E
    else if OutranksProfile(e, a, i) then PessimisticCategory(i)
    else PessimisticFrom(e, a, i - 1)
  }

  function Pessimistic(e: ElectreTri, a: Vector): Grade
    requires Valid(e)
  {
    PessimisticFrom(e, a, 6)
  }

  /** The optimistic scan from b_i up to b6; A when no profile is strictly above the item. */
  function OptimisticFrom(e: ElectreTri, a: Vector, i: nat): Grade
    requires Valid(e) && 1 <= i <= 7
    decreases 7 - i
  {
    if i == 7 then A
    else if StrictlyBelowProfile(e, a, i) then OptimisticCategory(i)
    else OptimisticFrom(e, a, i + 1)
  }

  function Optimistic(e: ElectreTri, a: Vector): Grade
    requires Valid(e)
  {
    OptimisticFrom(e, a, 1)
  }

  /** The pessimistic procedure, scanning b6, b5, .., b1. */
  method AssignPessimistic(e: ElectreTri, a: Vector) returns (g: Grade)
    requires Valid(e)
    ensures g == Pessimistic(e, a)
  {
    var i := 6;
    while i > 0
      invariant 0 <= i <= 6
      invariant PessimisticFrom(e, a, i) == Pessimistic(e, a)
    {
      var aSb, bSa := Outranking(e, a, e.profiles[i - 1]);
      if aSb {
        if i == 6 {
          return A;
        } else if i == 5 {
          return B;
        } else if i == 4 {
          return C;
        } else if i == 3 {
          return D;
        } else {
          return E;
        }
      }
      i := i - 1;
    }
    return E;
  }

  /** The optimistic procedure, scanning b1, b2, .., b6. */
  method AssignOptimistic(e: ElectreTri, a: Vector) returns (g: Grade)
    requires Valid(e)
    ensures g == Optimistic(e, a)
  {
    var i := 1;
    while i < 7
      invariant 1 <= i <= 7
      invariant OptimisticFrom(e, a, i) == Optimistic(e, a)
    {
      var aSb, bSa := Outranking(e, a, e.profiles[i - 1]);
      if bSa && !aSb {
        if i == 1 {
          return E;
        } else if i == 2 {
          return D;
        } else if i == 3 {
          return C;
        } else if i == 4 {
          return B;
        } else {
          return A;
        }
      }
      i := i + 1;
    }
    return A;
  }

  lemma {:induction false} PessimisticFromHighest(e: ElectreTri, a: Vector, i: nat)
    requires Valid(e) && i <= 6
    ensures (exists j :: 1 <= j <= i && OutranksProfile(e, a, j)
               && (forall k :: j < k <= i ==> !OutranksProfile(e, a, k))
               && PessimisticFrom(e, a, i) == PessimisticCategory(j))
         || ((forall k :: 1 <= k <= i ==> !OutranksProfile(e, a, k)) && PessimisticFrom(e, a, i) == E)
  {
    if i > 0 {
      if OutranksProfile(e, a, i) {
        assert PessimisticFrom(e, a, i) == PessimisticCategory(i);
      } else {
        PessimisticFromHighest(e, a, i - 1);
        assert PessimisticFrom(e, a, i) == PessimisticFrom(e, a, i - 1);
      }
    }
  }

  /** The pessimistic category is that of the highest profile the item outranks,
      E when it outranks none. */
  lemma PessimisticIsHighestOutranked(e: ElectreTri, a: Vector)
    requires Valid(e)
    ensures (exists j :: 1 <= j <= 6 && OutranksProfile(e, a, j)
               && (forall k :: j < k <= 6 ==> !OutranksProfile(e, a, k))
               && Pessimistic(e, a) == PessimisticCategory(j))
         || ((forall k :: 1 <= k <= 6 ==> !OutranksProfile(e, a, k)) && Pessimistic(e, a) == E)
  {
    PessimisticFromHighest(e, a, 6);
  }

  lemma {:induction false} OptimisticFromLowest(e: ElectreTri, a: Vector, i: nat)
    requires Valid(e) && 1 <= i <= 7
    ensures (exists j :: i <= j <= 6 && StrictlyBelowProfile(e, a, j)
               && (forall k :: i <= k < j ==> !StrictlyBelowProfile(e, a, k))
               && OptimisticFrom(e, a, i) == OptimisticCategory(j))
         || ((forall k :: i <= k <= 6 ==> !StrictlyBelowProfile(e, a, k)) && OptimisticFrom(e, a, i) == A)
    decreases 7 - i
  {
    if i < 7 {
      if StrictlyBelowProfile(e, a, i) {
        assert OptimisticFrom(e, a, i) == OptimisticCategory(i);
      } else {
        OptimisticFromLowest(e, a, i + 1);
        assert OptimisticFrom(e, a, i) == OptimisticFrom(e, a, i + 1);
      }
    }
  }

  /** The optimistic category is that of the lowest profile strictly above the
      item, A when there is none. */
  lemma OptimisticIsLowestStrictlyAbove(e: ElectreTri, a: Vector)
    requires Valid(e)
    ensures (exists j :: 1 <= j <= 6 && StrictlyBelowProfile(e, a, j)
               && (forall k :: 1 <= k < j ==> !StrictlyBelowProfile(e, a, k))
               && Optimistic(e, a) == OptimisticCategory(j))
         || ((forall k :: 1 <= k <= 6 ==> !StrictlyBelowProfile(e, a, k)) && Optimistic(e, a) == A)
  {
    OptimisticFromLowest(e, a, 1);
  }

  /** The pessimistic scan below b_(i+1) never does better than b_(i+1)'s category. */
  lemma {:induction false} PessimisticFromBelow(e: ElectreTri, a: Vector, i: nat)
    requires Valid(e) && i < 6
    ensures Rank(PessimisticFrom(e, a, i)) >= Rank(PessimisticCategory(i + 1))
  {
    if i > 0 && !OutranksProfile(e, a, i) {
      PessimisticFromBelow(e, a, i - 1);
    }
  }

  lemma {:induction false} PessimisticFromThreshold(e: ElectreTri, a: Vector, low: real, high: real, i: nat)
    requires Valid(e) && low <= high && i <= 6
    ensures Rank(PessimisticFrom(e.(threshold := low), a, i)) <= Rank(PessimisticFrom(e.(threshold := high), a, i))
  {
    var el, eh := e.(threshold := low), e.(threshold := high);
    if i > 0 {
      if OutranksProfile(eh, a, i) {
        assert OutranksProfile(el, a, i);
      } else if OutranksProfile(el, a, i) {
        PessimisticFromBelow(eh, a, i - 1);
      } else {
        PessimisticFromThreshold(e, a, low, high, i - 1);
      }
    }
  }

  /** Raising the majority threshold never gives a better pessimistic category. */
  lemma PessimisticThresholdMonotone(e: ElectreTri, a: Vector, low: real, high: real)
    requires Valid(e) && low <= high
    ensures Rank(Pessimistic(e.(threshold := low), a)) <= Rank(Pessimistic(e.(threshold := high), a))
  {
    PessimisticFromThreshold(e, a, low, high, 6);
  }

  /** C(a, b) = 0.4 and C(b, a) = 0.6 for weights 0.4 on proteins and 0.6 on sugars
      when the item has more of both. */
  lemma MixedConcordance(p: Vector, a: Vector)
    requires Get(a, Proteins) > Get(p, Proteins) && Get(a, Sugars) > Get(p, Sugars)
    ensures WeightSum([Weight(Proteins, 0.4), Weight(Sugars, 0.6)]) == 1.0
    ensures Concordance([Weight(Proteins, 0.4), Weight(Sugars, 0.6)], a, p) == (0.4, 0.6)
  {
    var ws := [Weight(Proteins, 0.4), Weight(Sugars, 0.6)];
    assert ws[..1] == [Weight(Proteins, 0.4)] && ws[..1][..0] == [];
    assert WeightSum(ws) == 1.0;
    assert Share(ws[0], a, p) == 0.4 && Share(ws[1], a, p) == 0.0;
    assert Share(ws[0], p, a) == 0.0 && Share(ws[1], p, a) == 0.6;
    assert ForSum(ws[..1], a, p) == 0.4 && AgainstSum(ws[..1], a, p) == 0.0;
    assert ForSum(ws, a, p) == 0.4;
    assert AgainstSum(ws, a, p) == 0.6;
  }

  /** The optimistic procedure has no such monotonicity, even under improving
      profiles: with six equal profiles, the weights above and an item with more
      proteins and more sugars than the profile, the scan stops at b1 for
      lambda = 0.5 (category E) and never stops for lambda = 0.7 (category A). */
  lemma OptimisticThresholdNotMonotone(p: Vector, a: Vector)
    requires Get(a, Proteins) > Get(p, Proteins) && Get(a, Sugars) > Get(p, Sugars)
    ensures var e := ElectreTri([Weight(Proteins, 0.4), Weight(Sugars, 0.6)], [p, p, p, p, p, p], 0.5);
            Valid(e) && NonNegative(e.weights) && ProfilesImprove(e.profiles)
            && Optimistic(e, a) == E && Optimistic(e.(threshold := 0.7), a) == A
  {
    MixedConcordance(p, a);
    var low := ElectreTri([Weight(Proteins, 0.4), Weight(Sugars, 0.6)], [p, p, p, p, p, p], 0.5);
    var high := low.(threshold := 0.7);
    assert StrictlyBelowProfile(low, a, 1);
    forall j | 1 <= j <= 6
      ensures !StrictlyBelowProfile(high, a, j)
    {
      assert high.profiles[j - 1] == p;
    }
    OptimisticFromNoneAbove(high, a, 1);
  }

  /** A scan that meets no profile strictly above the item ends at A. */
  lemma {:induction false} OptimisticFromNoneAbove(e: ElectreTri, a: Vector, i: nat)
    requires Valid(e) && 1 <= i <= 7
    requires forall j :: i <= j <= 6 ==> !StrictlyBelowProfile(e, a, j)
    ensures OptimisticFrom(e, a, i) == A
    decreases 7 - i
  {
    if i < 7 {
      OptimisticFromNoneAbove(e, a, i + 1);
    }
  }


  /** The optimistic scan from b_i on never does worse than b_i's category. */
  lemma {:induction false} OptimisticFromAbove(e: ElectreTri, a: Vector, i: nat)
    requires Valid(e) && 1 <= i <= 6
    ensures Rank(OptimisticFrom(e, a, i)) <= Rank(OptimisticCategory(i))
    decreases 7 - i
  {
    if i < 6 && !StrictlyBelowProfile(e, a, i) {
      OptimisticFromAbove(e, a, i + 1);
    }
  }

  /** The optimistic scan passes over every profile the item outranks. */
  lemma {:induction false} OptimisticSkipsOutranked(e: ElectreTri, a: Vector, i: nat, p: nat)
    requires Valid(e) && 1 <= i <= p + 1 <= 7
    requires forall j :: i <= j <= p ==> OutranksProfile(e, a, j)
    ensures OptimisticFrom(e, a, i) == OptimisticFrom(e, a, p + 1)
    decreases p + 1 - i
  {
    if i <= p {
      assert OutranksProfile(e, a, i);
      OptimisticSkipsOutranked(e, a, i + 1, p);
    }
  }

  /** The profiles the pessimistic scan finds outranked: b1 .. bp, with p = 0 for E. */
  lemma PessimisticOutrankedPrefix(e: ElectreTri, a: Vector) returns (p: nat)
    requires Valid(e) && NonNegative(e.weights) && WeightSum(e.weights) > 0.0
    requires ProfilesImprove(e.profiles)
    ensures p <= 6
    ensures forall j :: 1 <= j <= p ==> OutranksProfile(e, a, j)
    ensures forall j :: p < j <= 6 ==> !OutranksProfile(e, a, j)
    ensures p == 0 ==> Pessimistic(e, a) == E
    ensures p >= 1 ==> Pessimistic(e, a) == PessimisticCategory(p)
  {
    PessimisticIsHighestOutranked(e, a);
    p := 0;
    if exists j :: 1 <= j <= 6 && OutranksProfile(e, a, j)
                   && (forall k :: j < k <= 6 ==> !OutranksProfile(e, a, k))
                   && Pessimistic(e, a) == PessimisticCategory(j) {
      p :| 1 <= p <= 6 && OutranksProfile(e, a, p)
           && (forall k :: p < k <= 6 ==> !OutranksProfile(e, a, k))
           && Pessimistic(e, a) == PessimisticCategory(p);
      forall j | 1 <= j <= p ensures OutranksProfile(e, a, j) {
        OutranksLowerProfiles(e, a, p, j);
      }
    }
  }

  /** With non-negative weights and profiles improving from b1 to b6, the
      pessimistic category is never better than the optimistic one. */
  lemma PessimisticNoBetterThanOptimistic(e: ElectreTri, a: Vector)
    requires Valid(e) && NonNegative(e.weights) && WeightSum(e.weights) > 0.0
    requires ProfilesImprove(e.profiles)
    ensures Rank(Pessimistic(e, a)) >= Rank(Optimistic(e, a))
  {
    var p := PessimisticOutrankedPrefix(e, a);
    OptimisticSkipsOutranked(e, a, 1, p);
    if p < 6 {
      OptimisticFromAbove(e, a, p + 1);
    }
  }

  // Batch driver

  /** A named text column of a product table. */
  datatype Column = Column(name: string, values: seq<string>)

  /** A product table: each row's criterion values and the table's other columns. */
  datatype Frame = Frame(rows: seq<Vector>, columns: seq<Column>)

  function Names(cols: seq<Column>): (r: seq<string>)
    ensures |r| == |cols| && forall i :: 0 <= i < |cols| ==> r[i] == cols[i].name
  {
    if cols == [] then [] else [cols[0].name] + Names(cols[1..])
  }

  /** The values of the first column with that name. */
  function Lookup(cols: seq<Column>, name: string): (r: Option<seq<string>>)
    ensures r.None? <==> name !in Names(cols)
  {
    if cols == [] then None
    else if cols[0].name == name then Some(cols[0].values)
    else Lookup(cols[1..], name)
  }

  /** Assigning a column by name: an existing column of that name is replaced
      where it stands, otherwise the column is added at the end. */
  function WithColumn(cols: seq<Column>, name: string, values: seq<string>): (r: seq<Column>)
  {
    if name in Names(cols) then
      seq(|cols|, i requires 0 <= i < |cols| => if cols[i].name == name then Column(name, values) else cols[i])
    else cols + [Column(name, values)]
  }

  lemma LookupReplaced(cols: seq<Column>, name: string, values: seq<string>, other: string)
    requires name in Names(cols)
    ensures var r := seq(|cols|, i requires 0 <= i < |cols| => if cols[i].name == name then Column(name, values) else cols[i]);
      Lookup(r, name) == Some(values) && (other != name ==> Lookup(r, other) == Lookup(cols, other))
  {
    var r := seq(|cols|, i requires 0 <= i < |cols| => if cols[i].name == name then Column(name, values) else cols[i]);
    assert name in Names(r) by {
      var k :| 0 <= k < |cols| && Names(cols)[k] == name;
      assert Names(r)[k] == name;
    }
    LookupUniform(r, name, values);
    if other != name {
      LookupOtherNames(cols, r, name, other);
    }
  }

  /** When every column named `name` holds `values`, looking the name up gives them. */
  lemma {:induction false} LookupUniform(cols: seq<Column>, name: string, values: seq<string>)
    requires name in Names(cols)
    requires forall i :: 0 <= i < |cols| && cols[i].name == name ==> cols[i].values == values
    ensures Lookup(cols, name) == Some(values)
  {
    if cols[0].name != name {
      assert name in Names(cols[1..]) by {
        var k :| 0 <= k < |cols| && Names(cols)[k] == name;
        assert Names(cols[1..])[k - 1] == name;
      }
      LookupUniform(cols[1..], name, values);
    }
  }

  /** Two tables whose columns carry the same names in the same order, and which
      differ only on columns named `name`, agree on every other name. */
  lemma {:induction false} LookupOtherNames(cols: seq<Column>, r: seq<Column>, name: string, other: string)
    requires |r| == |cols| && other != name
    requires forall i :: 0 <= i < |cols| ==> r[i].name == cols[i].name
    requires forall i :: 0 <= i < |cols| && cols[i].name != name ==> r[i] == cols[i]
    ensures Lookup(r, other) == Lookup(cols, other)
  {
    if cols != [] {
      LookupOtherNames(cols[1..], r[1..], name, other);
    }
  }

  lemma {:induction false} LookupAppended(cols: seq<Column>, c: Column, other: string)
    requires c.name !in Names(cols)
    ensures Lookup(cols + [c], c.name) == Some(c.values)
    ensures other != c.name ==> Lookup(cols + [c], other) == Lookup(cols, other)
  {
    if cols != [] {
      assert (cols + [c])[1..] == cols[1..] + [c];
      LookupAppended(cols[1..], c, other);
    }
  }

  /** After assigning a column, its name reads the new values and every other
      name reads what it read before. */
  lemma WithColumnLookup(cols: seq<Column>, name: string, values: seq<string>, other: string)
    ensures Lookup(WithColumn(cols, name, values), name) == Some(values)
    ensures other != name ==> Lookup(WithColumn(cols, name, values), other) == Lookup(cols, other)
  {
    if name in Names(cols) {
      LookupReplaced(cols, name, values, other);
    } else {
      LookupAppended(cols, Column(name, values), other);
    }
  }

  function UpperAscii(ch: char): char
  {
    if 'a' <= ch <= 'z' then (ch as int - 32) as char else ch
  }

  function LowerAscii(ch: char): char
  {
    if 'A' <= ch <= 'Z' then (ch as int + 32) as char else ch
  }

  /** The first character upper-cased and the rest lower-cased. */
  function Capitalize(s: string): (r: string)
    ensures |r| == |s|
    ensures |s| > 0 ==> r[0] == UpperAscii(s[0])
    ensures forall i :: 0 < i < |s| ==> r[i] == LowerAscii(s[i])
  {
    if s == [] then [] else [UpperAscii(s[0])] + seq(|s| - 1, i requires 0 <= i < |s| - 1 => LowerAscii(s[i + 1]))
  }

  /** The name of the column that receives the categories. */
  function ColumnName(procedure: string): string
  {
    "Classe_ELECTRE_" + Capitalize(procedure)
  }

  lemma ColumnNames()
    ensures ColumnName("pessimiste") == "Classe_ELECTRE_Pessimiste"
    ensures ColumnName("optimiste") == "Classe_ELECTRE_Optimiste"
  {
  }

  /** "pessimiste" selects the pessimistic procedure; any other name the optimistic one. */
  function Assign(e: ElectreTri, procedure: string, a: Vector): Grade
    requires Valid(e)
  {
    if procedure == "pessimiste" then Pessimistic(e, a) else Optimistic(e, a)
  }

  /** Assigning a column keeps the column order and adds the name at the end when it is new. */
  lemma WithColumnNames(cols: seq<Column>, name: string, values: seq<string>)
    ensures Names(WithColumn(cols, name, values))
         == if name in Names(cols) then Names(cols) else Names(cols) + [name]
  {
    var r := WithColumn(cols, name, values);
    if name !in Names(cols) {
      assert Names(r) == Names(cols) + [name];
    }
  }

  /** The procedure the batch driver applies when none is named. */
  const DefaultProcedure: string := "pessimiste"

  /** The batch driver with its default procedure: every row gets its pessimistic
      category, in the column named for that procedure. */
  method ClassifyAllByDefault(e: ElectreTri, df: Frame) returns (r: Frame)
    requires Valid(e)
    ensures r.rows == df.rows
    ensures Lookup(r.columns, "Classe_ELECTRE_Pessimiste").Some?
    ensures var labels := Lookup(r.columns, "Classe_ELECTRE_Pessimiste").value;
      |labels| == |df.rows| &&
      forall i :: 0 <= i < |df.rows| ==> labels[i] == Primed(Pessimistic(e, df.rows[i]))
    ensures forall other :: other != "Classe_ELECTRE_Pessimiste" ==> Lookup(r.columns, other) == Lookup(df.columns, other)
    ensures forall i :: 0 <= i < |df.columns| && df.columns[i].name != "Classe_ELECTRE_Pessimiste"
              ==> i < |r.columns| && r.columns[i] == df.columns[i]
  {
    ColumnNames();
    r := ClassifyAll(e, df, DefaultProcedure);
  }

  /** Assigning a column leaves every column of another name where it was. */
  lemma WithColumnKeepsOthers(cols: seq<Column>, name: string, values: seq<string>)
    ensures forall i :: 0 <= i < |cols| && cols[i].name != name
              ==> i < |WithColumn(cols, name, values)| && WithColumn(cols, name, values)[i] == cols[i]
  {
  }

  /** Labels every row, in row order, and returns a copy of the table with the
      category column assigned; the other columns and the rows are unchanged. */
  method ClassifyAll(e: ElectreTri, df: Frame, procedure: string) returns (r: Frame)
    requires Valid(e)
    ensures r.rows == df.rows
    ensures Lookup(r.columns, ColumnName(procedure)).Some?
    ensures var labels := Lookup(r.columns, ColumnName(procedure)).value;
      |labels| == |df.rows| &&
      forall i :: 0 <= i < |df.rows| ==> labels[i] == Primed(Assign(e, procedure, df.rows[i]))
    ensures forall other :: other != ColumnName(procedure) ==> Lookup(r.columns, other) == Lookup(df.columns, other)
    ensures forall i :: 0 <= i < |df.columns| && df.columns[i].name != ColumnName(procedure)
              ==> i < |r.columns| && r.columns[i] == df.columns[i]
    ensures Names(r.columns) == if ColumnName(procedure) in Names(df.columns) then Names(df.columns)
                                else Names(df.columns) + [ColumnName(procedure)]
  {
    var results: seq<string> := [];
    for k := 0 to |df.rows|
      invariant |results| == k
      invariant forall i :: 0 <= i < k ==> results[i] == Primed(Assign(e, procedure, df.rows[i]))
    {
      var g: Grade;
      if procedure == "pessimiste" {
        g := AssignPessimistic(e, df.rows[k]);
      } else {
        g := AssignOptimistic(e, df.rows[k]);
      }
      results := results + [Primed(g)];
    }
    var name := ColumnName(procedure);
    r := Frame(df.rows, WithColumn(df.columns, name, results));
    WithColumnLookup(df.columns, name, results, name);
    forall other | other != name
      ensures Lookup(r.columns, other) == Lookup(df.columns, other)
    {
      WithColumnLookup(df.columns, name, results, other);
    }
    WithColumnNames(df.columns, name, results);
    WithColumnKeepsOthers(df.columns, name, results);
  }
}
