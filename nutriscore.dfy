/** The Nutri-Score engine: point tables, the score with its protein rule,
    and the letter label of a score. */
module NutriScore {

  import opened Labels

  /** A threshold of a point table; the last row of every table uses the
      infinite threshold, which every value lies below. */
  datatype Threshold = Below(limit: real) | Infinity

  predicate Under(v: real, t: Threshold)
  {
    match t
    case Below(limit) => v < limit
    case Infinity => true
  }

  /** One row of a point table: values under `threshold` (and not under any
      earlier row's threshold) earn `points`. */
  datatype Row = Row(threshold: Threshold, points: int)

  type Table = seq<Row>

  // Point tables of the negative components
  const EnergyTable: Table := [
    Row(Below(335.0), 0), Row(Below(670.0), 1), Row(Below(1005.0), 2), Row(Below(1340.0), 3),
    Row(Below(1675.0), 4), Row(Below(2010.0), 5), Row(Below(2345.0), 6), Row(Below(2680.0), 7),
    Row(Below(3015.0), 8), Row(Below(3350.0), 9), Row(Infinity, 10)]

  const SaturatedFatTable: Table := [
    Row(Below(1.0), 0), Row(Below(2.0), 1), Row(Below(3.0), 2), Row(Below(4.0), 3),
    Row(Below(5.0), 4), Row(Below(6.0), 5), Row(Below(7.0), 6), Row(Below(8.0), 7),
    Row(Below(9.0), 8), Row(Below(10.0), 9), Row(Infinity, 10)]

  const SugarsTable: Table := [
    Row(Below(3.4), 0), Row(Below(6.8), 1), Row(Below(10.0), 2), Row(Below(14.0), 3),
    Row(Below(17.0), 4), Row(Below(20.0), 5), Row(Below(24.0), 6), Row(Below(27.0), 7),
    Row(Below(31.0), 8), Row(Below(34.0), 9), Row(Below(37.0), 10), Row(Below(41.0), 11),
    Row(Below(44.0), 12), Row(Below(48.0), 13), Row(Below(51.0), 14), Row(Infinity, 15)]

  const SodiumTable: Table := [
    Row(Below(90.0), 0), Row(Below(180.0), 1), Row(Below(270.0), 2), Row(Below(360.0), 3),
    Row(Below(450.0), 4), Row(Below(540.0), 5), Row(Below(630.0), 6), Row(Below(720.0), 7),
    Row(Below(810.0), 8), Row(Below(900.0), 9), Row(Below(990.0), 10), Row(Below(1080.0), 11),
    Row(Below(1170.0), 12), Row(Below(1260.0), 13), Row(Below(1350.0), 14), Row(Below(1440.0), 15),
    Row(Below(1530.0), 16), Row(Below(1620.0), 17), Row(Below(1710.0), 18), Row(Below(1800.0), 19),
    Row(Infinity, 20)]

  // Point tables of the positive components
  const ProteinsTable: Table := [
    Row(Below(2.4), 0), Row(Below(4.8), 1), Row(Below(7.2), 2), Row(Below(9.6), 3),
    Row(Below(12.0), 4), Row(Below(14.0), 5), Row(Below(17.0), 6), Row(Infinity, 7)]

  const FibresTable: Table := [
    Row(Below(3.0), 0), Row(Below(4.1), 1), Row(Below(5.2), 2), Row(Below(6.3), 3),
    Row(Below(7.4), 4), Row(Infinity, 5)]

  const FruitsVegetablesTable: Table := [
    Row(Below(40.0), 0), Row(Below(60.0), 1), Row(Below(80.0), 2), Row(Infinity, 5)]

  /** Points never drop from one row to the next. */
  predicate PointsNonDecreasing(t: Table)
  {
    forall i :: 0 <= i < |t| - 1 ==> t[i].points <= t[i + 1].points
  }

  /** Every row's points lie in [lo, hi]. */
  predicate PointsWithin(t: Table, lo: int, hi: int)
  {
    forall r :: r in t ==> lo <= r.points <= hi
  }

  /** The rows before `k` all have a threshold at or below v. */
  predicate PassedAll(v: real, t: Table, k: nat)
    requires k <= |t|
  {
    forall j :: 0 <= j < k ==> !Under(v, t[j].threshold)
  }

  /** The scan of the table from row `k` on. */
  function PointsFrom(v: real, t: Table, k: nat): (r: int)
    requires 0 < |t| && k <= |t|
    requires PassedAll(v, t, k)
    ensures (exists i :: k <= i < |t| && Under(v, t[i].threshold) && PassedAll(v, t, i) && r == t[i].points)
         || (PassedAll(v, t, |t|) && r == t[|t| - 1].points)
    decreases |t| - k
  {
    if k == |t| then t[|t| - 1].points
    else if Under(v, t[k].threshold) then t[k].points
    else PointsFrom(v, t, k + 1)
  }

  /** The points of the first row whose threshold lies strictly above the value,
      or the last row's points when there is none. */
  function GetPoints(v: real, t: Table): (r: int)
    requires 0 < |t|
    ensures (exists i :: 0 <= i < |t| && Under(v, t[i].threshold) && PassedAll(v, t, i) && r == t[i].points)
         || (PassedAll(v, t, |t|) && r == t[|t| - 1].points)
  {
    PointsFrom(v, t, 0)
  }

  /** With non-decreasing points, any later row has at least the points of an earlier one. */
  lemma {:induction false} PointsOrdered(t: Table, i: nat, j: nat)
    requires PointsNonDecreasing(t)
    requires i <= j < |t|
    ensures t[i].points <= t[j].points
    decreases j - i
  {
    if i < j {
      PointsOrdered(t, i + 1, j);
    }
  }

  /** Scanning past row k never yields fewer points than row k has. */
  lemma PointsFromAbove(v: real, t: Table, k: nat)
    requires k < |t| && PointsNonDecreasing(t) && PassedAll(v, t, k + 1)
    ensures t[k].points <= PointsFrom(v, t, k + 1)
  {
    var r := PointsFrom(v, t, k + 1);
    if i :| k + 1 <= i < |t| && r == t[i].points {
      PointsOrdered(t, k, i);
    } else {
      PointsOrdered(t, k, |t| - 1);
    }
  }

  lemma {:induction false} PointsFromMonotone(v1: real, v2: real, t: Table, k: nat)
    requires 0 < |t| && k <= |t| && PointsNonDecreasing(t)
    requires v1 <= v2 && PassedAll(v1, t, k) && PassedAll(v2, t, k)
    ensures PointsFrom(v1, t, k) <= PointsFrom(v2, t, k)
    decreases |t| - k
  {
    if k < |t| {
      if Under(v2, t[k].threshold) {
        assert Under(v1, t[k].threshold);
        assert PointsFrom(v1, t, k) == t[k].points == PointsFrom(v2, t, k);
      } else if Under(v1, t[k].threshold) {
        assert PointsFrom(v2, t, k) == PointsFrom(v2, t, k + 1);
        PointsFromAbove(v2, t, k);
      } else {
        assert PointsFrom(v1, t, k) == PointsFrom(v1, t, k + 1);
        assert PointsFrom(v2, t, k) == PointsFrom(v2, t, k + 1);
        PointsFromMonotone(v1, v2, t, k + 1);
      }
    }
  }


  /** A larger value never earns fewer points from a table whose points never drop. */
  lemma GetPointsMonotone(v1: real, v2: real, t: Table)
    requires 0 < |t| && PointsNonDecreasing(t) && v1 <= v2
    ensures GetPoints(v1, t) <= GetPoints(v2, t)
  {
    PointsFromMonotone(v1, v2, t, 0);
  }

  /** The lookup returns one of the table's own points. */
  lemma GetPointsWithin(v: real, t: Table, lo: int, hi: int)
    requires 0 < |t| && PointsWithin(t, lo, hi)
    ensures lo <= GetPoints(v, t) <= hi
  {
    var r := GetPoints(v, t);
    assert exists i :: 0 <= i < |t| && r == t[i].points;
    var i :| 0 <= i < |t| && r == t[i].points;
    assert t[i] in t;
  }

  /** The scan stops at the first row whose threshold lies above the value. */
  lemma {:induction false} PointsFromAt(v: real, t: Table, k: nat, i: nat)
    requires k <= i < |t| && PassedAll(v, t, k)
    requires Under(v, t[i].threshold) && PassedAll(v, t, i)
    ensures PointsFrom(v, t, k) == t[i].points
    decreases i - k
  {
    if k < i {
      assert !Under(v, t[k].threshold);
      PointsFromAt(v, t, k + 1, i);
    }
  }

  lemma GetPointsAt(v: real, t: Table, i: nat)
    requires i < |t| && Under(v, t[i].threshold) && PassedAll(v, t, i)
    ensures GetPoints(v, t) == t[i].points
  {
    PointsFromAt(v, t, 0, i);
  }

  // Component points, each bounded by its table's first and last rows

  function EnergyPoints(energyKj: real): (r: int)
    ensures 0 <= r <= 10
  {
    GetPointsWithin(energyKj, EnergyTable, 0, 10);
    GetPoints(energyKj, EnergyTable)
  }

  function SaturatedFatPoints(grams: real): (r: int)
    ensures 0 <= r <= 10
  {
    GetPointsWithin(grams, SaturatedFatTable, 0, 10);
    GetPoints(grams, SaturatedFatTable)
  }

  function SugarsPoints(grams: real): (r: int)
    ensures 0 <= r <= 15
  {
    GetPointsWithin(grams, SugarsTable, 0, 15);
    GetPoints(grams, SugarsTable)
  }

  function SodiumPoints(milligrams: real): (r: int)
    ensures 0 <= r <= 20
  {
    GetPointsWithin(milligrams, SodiumTable, 0, 20);
    GetPoints(milligrams, SodiumTable)
  }

  function ProteinsPoints(grams: real): (r: int)
    ensures 0 <= r <= 7
  {
    GetPointsWithin(grams, ProteinsTable, 0, 7);
    GetPoints(grams, ProteinsTable)
  }

  function FibresPoints(grams: real): (r: int)
    ensures 0 <= r <= 5
  {
    GetPointsWithin(grams, FibresTable, 0, 5);
    GetPoints(grams, FibresTable)
  }

  function FruitsVegetablesPoints(percent: real): (r: int)
    ensures 0 <= r <= 5
  {
    GetPointsWithin(percent, FruitsVegetablesTable, 0, 5);
    GetPoints(percent, FruitsVegetablesTable)
  }

  lemma EnergyFatTablesNonDecreasing()
    ensures PointsNonDecreasing(EnergyTable) && PointsNonDecreasing(SaturatedFatTable)
  {
  }

  lemma SugarsSodiumTablesNonDecreasing()
    ensures PointsNonDecreasing(SugarsTable) && PointsNonDecreasing(SodiumTable)
  {
  }

  lemma PositiveTablesNonDecreasing()
    ensures PointsNonDecreasing(ProteinsTable) && PointsNonDecreasing(FibresTable)
    ensures PointsNonDecreasing(FruitsVegetablesTable)
  {
  }

  /** More of a nutrient never earns fewer points, on every one of the seven tables. */
  lemma ComponentPointsMonotone(v1: real, v2: real)
    requires v1 <= v2
    ensures EnergyPoints(v1) <= EnergyPoints(v2)
    ensures SaturatedFatPoints(v1) <= SaturatedFatPoints(v2)
    ensures SugarsPoints(v1) <= SugarsPoints(v2)
    ensures SodiumPoints(v1) <= SodiumPoints(v2)
    ensures ProteinsPoints(v1) <= ProteinsPoints(v2)
    ensures FibresPoints(v1) <= FibresPoints(v2)
    ensures FruitsVegetablesPoints(v1) <= FruitsVegetablesPoints(v2)
  {
    EnergyFatTablesNonDecreasing();
    SugarsSodiumTablesNonDecreasing();
    PositiveTablesNonDecreasing();
    GetPointsMonotone(v1, v2, EnergyTable);
    GetPointsMonotone(v1, v2, SaturatedFatTable);
    GetPointsMonotone(v1, v2, SugarsTable);
    GetPointsMonotone(v1, v2, SodiumTable);
    GetPointsMonotone(v1, v2, ProteinsTable);
    GetPointsMonotone(v1, v2, FibresTable);
    GetPointsMonotone(v1, v2, FruitsVegetablesTable);
  }

  lemma LookupExamples()
    ensures EnergyPoints(180.0) == 0
    ensures FruitsVegetablesPoints(80.0) == 5
  {
    GetPointsAt(180.0, EnergyTable, 0);
    GetPointsAt(80.0, FruitsVegetablesTable, 3);
  }

  /** 10.6 g and 10.0 g of sugars both fall in the band from 10 g to 14 g, worth
      3 points: a value equal to a threshold belongs to the band above it. */
  lemma SugarsLookupExamples()
    ensures SugarsPoints(10.6) == 3
    ensures SugarsPoints(10.0) == 3
  {
    GetPointsAt(10.6, SugarsTable, 3);
    GetPointsAt(10.0, SugarsTable, 3);
  }

  // Score labels

  /** A bound of a label band; the outer bands are open-ended. */
  datatype Limit = MinusInfinity | At(n: int) | PlusInfinity

  /** A closed band of scores and its label. */
  datatype Band = Band(low: Limit, high: Limit, grade: Grade)

  predicate InBand(s: int, b: Band)
  {
    (match b.low case MinusInfinity => true case At(n) => n <= s case PlusInfinity => false)
    && (match b.high case MinusInfinity => false case At(n) => s <= n case PlusInfinity => true)
  }

  /** The label bands in the order they are tested; A and B both contain 0. */
  const Classes: seq<Band> := [
    Band(MinusInfinity, At(0), A), Band(At(0), At(2), B), Band(At(3), At(10), C),
    Band(At(11), At(18), D), Band(At(19), PlusInfinity, E)]

  /** The scan of the bands from band `k` on, E when none contains the score. */
  function LabelFrom(s: int, bands: seq<Band>, k: nat): Grade
    requires k <= |bands|
    decreases |bands| - k
  {
    if k == |bands| then E
    else if InBand(s, bands[k]) then bands[k].grade
    else LabelFrom(s, bands, k + 1)
  }

  /** The label of the first band that contains the score. */
  function LabelFromScore(s: int): Grade
  {
    LabelFrom(s, Classes, 0)
  }

  /** The label of every integer score, by its range. */
  lemma LabelFromScoreRanges(s: int)
    ensures LabelFromScore(s) == A <==> s <= 0
    ensures LabelFromScore(s) == B <==> 1 <= s <= 2
    ensures LabelFromScore(s) == C <==> 3 <= s <= 10
    ensures LabelFromScore(s) == D <==> 11 <= s <= 18
    ensures LabelFromScore(s) == E <==> 19 <= s
  {
  }

  /** Every integer score lies in some band, so the default label is never needed. */
  lemma ClassesCoverEveryScore(s: int)
    ensures exists k :: 0 <= k < |Classes| && InBand(s, Classes[k])
  {
    if s <= 0 { assert InBand(s, Classes[0]); }
    else if s <= 2 { assert InBand(s, Classes[1]); }
    else if s <= 10 { assert InBand(s, Classes[2]); }
    else if s <= 18 { assert InBand(s, Classes[3]); }
    else { assert InBand(s, Classes[4]); }
  }

  /** Two bands share only the score 0, which the A band claims first. */
  lemma ClassesOverlapOnlyAtZero(s: int, i: nat, j: nat)
    requires i < j < |Classes|
    requires InBand(s, Classes[i]) && InBand(s, Classes[j])
    ensures s == 0 && i == 0 && j == 1 && LabelFromScore(s) == A
  {
  }

  // The score

  /** The seven nutrient quantities of a product (per 100 g). */
  datatype Nutrients = Nutrients(
    energyKj: real, saturatedFat: real, sugars: real, sodium: real,
    proteins: real, fibres: real, fruitsVegetables: real)

  /** The breakdown of a score; `proteins` is 0 when the protein rule excluded them. */
  datatype Details = Details(
    negative: int, positive: int,
    energy: int, saturatedFat: int, sugars: int, sodium: int,
    proteins: int, fibres: int, fruitsVegetables: int,
    proteinsCounted: bool)

  datatype ScoreResult = ScoreResult(score: int, grade: Grade, details: Details)

  /** The protein rule: a heavily penalised product that is not mostly fruit
      and vegetables gets no credit for its proteins. */
  predicate ProteinsExcluded(negative: int, fruitsVegetables: real)
  {
    negative >= 11 && fruitsVegetables < 80.0
  }

  function Evaluate(n: Nutrients): (r: ScoreResult)
    ensures r.details.energy == EnergyPoints(n.energyKj)
    ensures r.details.saturatedFat == SaturatedFatPoints(n.saturatedFat)
    ensures r.details.sugars == SugarsPoints(n.sugars)
    ensures r.details.sodium == SodiumPoints(n.sodium)
    ensures r.details.fibres == FibresPoints(n.fibres)
    ensures r.details.fruitsVegetables == FruitsVegetablesPoints(n.fruitsVegetables)
    ensures r.details.negative == r.details.energy + r.details.saturatedFat + r.details.sugars + r.details.sodium
    ensures r.details.proteinsCounted <==> !ProteinsExcluded(r.details.negative, n.fruitsVegetables)
    ensures r.details.proteins == if r.details.proteinsCounted then ProteinsPoints(n.proteins) else 0
    ensures r.details.positive == r.details.proteins + r.details.fibres + r.details.fruitsVegetables
    ensures r.score == r.details.negative - r.details.positive
    ensures r.grade == LabelFromScore(r.score)
  {
    var energy := EnergyPoints(n.energyKj);
    var fat := SaturatedFatPoints(n.saturatedFat);
    var sugars := SugarsPoints(n.sugars);
    var sodium := SodiumPoints(n.sodium);
    var negative := energy + fat + sugars + sodium;
    var proteins := ProteinsPoints(n.proteins);
    var fibres := FibresPoints(n.fibres);
    var fruits := FruitsVegetablesPoints(n.fruitsVegetables);
    var counted := !ProteinsExcluded(negative, n.fruitsVegetables);
    var positive := if counted then proteins + fibres + fruits else fibres + fruits;
    var score := negative - positive;
    ScoreResult(score, LabelFromScore(score),
      Details(negative, positive, energy, fat, sugars, sodium,
              if counted then proteins else 0, fibres, fruits, counted))
  }

  /** Each score part stays within the sum of its components' table ranges. */
  lemma ScoreBounds(n: Nutrients)
    ensures 0 <= Evaluate(n).details.negative <= 55
    ensures 0 <= Evaluate(n).details.positive <= 17
    ensures -17 <= Evaluate(n).score <= 55
  {
  }

  /** When the protein rule applies the protein value changes nothing in the result;
      when it does not, the score moves by exactly the difference in protein points. */
  lemma ProteinRule(n: Nutrients, proteins: real)
    ensures ProteinsExcluded(Evaluate(n).details.negative, n.fruitsVegetables)
            ==> Evaluate(n.(proteins := proteins)) == Evaluate(n)
    ensures !ProteinsExcluded(Evaluate(n).details.negative, n.fruitsVegetables)
            ==> Evaluate(n.(proteins := proteins)).score
                == Evaluate(n).score + ProteinsPoints(n.proteins) - ProteinsPoints(proteins)
  {
    var r, q := Evaluate(n).details, Evaluate(n.(proteins := proteins)).details;
    assert q.negative == r.negative;
    assert q.fibres + q.fruitsVegetables == r.fibres + r.fruitsVegetables;
    assert q.proteinsCounted == r.proteinsCounted;
    if !r.proteinsCounted {
      assert q == r;
    }
  }

  /** Negative points 8 and positive points 3 + 2 + 1 give the score 2, label B. */
  lemma EvaluateExampleB()
    ensures var r := Evaluate(Nutrients(1340.0, 2.0, 6.8, 0.0, 8.0, 4.5, 50.0));
      r.details.negative == 8 && r.details.proteinsCounted && r.details.proteins == 3
      && r.details.positive == 6 && r.score == 2 && r.grade == B
  {
    ExampleBNegativePoints();
    ExampleBPositivePoints();
    LabelFromScoreRanges(2);
  }

  /** Negative points 20 and fruit below 80 %: 7 protein points are dropped. */
  lemma EvaluateExampleExcluded()
    ensures var r := Evaluate(Nutrients(3400.0, 10.0, 0.0, 0.0, 20.0, 0.0, 0.0));
      ProteinsPoints(20.0) == 7 && r.details.negative == 20 && !r.details.proteinsCounted
      && r.details.proteins == 0 && r.details.positive == 0 && r.score == 20 && r.grade == E
  {
    ExampleExcludedNegativePoints();
    ExampleExcludedPositivePoints();
    LabelFromScoreRanges(20);
  }

  lemma ExampleBNegativePoints()
    ensures EnergyPoints(1340.0) == 4 && SaturatedFatPoints(2.0) == 2
    ensures SugarsPoints(6.8) == 2 && SodiumPoints(0.0) == 0
  {
    GetPointsAt(1340.0, EnergyTable, 4);
    GetPointsAt(2.0, SaturatedFatTable, 2);
    GetPointsAt(6.8, SugarsTable, 2);
    GetPointsAt(0.0, SodiumTable, 0);
  }

  lemma ExampleBPositivePoints()
    ensures ProteinsPoints(8.0) == 3 && FibresPoints(4.5) == 2 && FruitsVegetablesPoints(50.0) == 1
  {
    GetPointsAt(8.0, ProteinsTable, 3);
    GetPointsAt(4.5, FibresTable, 2);
    GetPointsAt(50.0, FruitsVegetablesTable, 1);
  }

  lemma ExampleExcludedNegativePoints()
    ensures EnergyPoints(3400.0) == 10 && SaturatedFatPoints(10.0) == 10
    ensures SugarsPoints(0.0) == 0 && SodiumPoints(0.0) == 0
  {
    GetPointsAt(3400.0, EnergyTable, 10);
    GetPointsAt(10.0, SaturatedFatTable, 10);
    GetPointsAt(0.0, SugarsTable, 0);
    GetPointsAt(0.0, SodiumTable, 0);
  }

  lemma ExampleExcludedPositivePoints()
    ensures ProteinsPoints(20.0) == 7 && FibresPoints(0.0) == 0 && FruitsVegetablesPoints(0.0) == 0
  {
    GetPointsAt(20.0, ProteinsTable, 7);
    GetPointsAt(0.0, FibresTable, 0);
    GetPointsAt(0.0, FruitsVegetablesTable, 0);
  }
}
