/** The eight criteria of the ELECTRE TRI model, the value of a product (or a
    boundary profile) on each of them, and the configured weights. */
module Criteria {

  /** The criteria, in the order of the product table's columns. */
  datatype Criterion =
    | EnergyKj | SaturatedFat | Sugars | Sodium
    | Proteins | Fibres | FruitsVegetables | Additives

  const AllCriteria: seq<Criterion> :=
    [EnergyKj, SaturatedFat, Sugars, Sodium, Proteins, Fibres, FruitsVegetables, Additives]

  lemma AllCriteriaListsEachOnce(c: Criterion)
    ensures c in AllCriteria
    ensures forall i, j :: 0 <= i < j < |AllCriteria| ==> AllCriteria[i] != AllCriteria[j]
  {
  }

  /** Proteins, fibres and fruit/vegetables are to be maximised; every other
      criterion is treated as one to minimise. */
  predicate Maximised(c: Criterion)
  {
    c == Proteins || c == Fibres || c == FruitsVegetables
  }

  /** The values of a product, or of a boundary profile, on the eight criteria. */
  datatype Vector = Vector(
    energyKj: real, saturatedFat: real, sugars: real, sodium: real,
    proteins: real, fibres: real, fruitsVegetables: real, additives: real)

  function Get(v: Vector, c: Criterion): real
  {
    match c
    case EnergyKj => v.energyKj
    case SaturatedFat => v.saturatedFat
    case Sugars => v.sugars
    case Sodium => v.sodium
    case Proteins => v.proteins
    case Fibres => v.fibres
    case FruitsVegetables => v.fruitsVegetables
    case Additives => v.additives
  }

  /** The vector with its value on `c` replaced by `x`. */
  function Set(v: Vector, c: Criterion, x: real): (r: Vector)
    ensures Get(r, c) == x
    ensures forall d :: d != c ==> Get(r, d) == Get(v, d)
  {
    match c
    case EnergyKj => v.(energyKj := x)
    case SaturatedFat => v.(saturatedFat := x)
    case Sugars => v.(sugars := x)
    case Sodium => v.(sodium := x)
    case Proteins => v.(proteins := x)
    case Fibres => v.(fibres := x)
    case FruitsVegetables => v.(fruitsVegetables := x)
    case Additives => v.(additives := x)
  }

  /** Two vectors agreeing on every criterion are equal. */
  lemma VectorExtensionality(u: Vector, v: Vector)
    requires forall c :: Get(u, c) == Get(v, c)
    ensures u == v
  {
    assert Get(u, EnergyKj) == Get(v, EnergyKj) && Get(u, SaturatedFat) == Get(v, SaturatedFat);
    assert Get(u, Sugars) == Get(v, Sugars) && Get(u, Sodium) == Get(v, Sodium);
    assert Get(u, Proteins) == Get(v, Proteins) && Get(u, Fibres) == Get(v, Fibres);
    assert Get(u, FruitsVegetables) == Get(v, FruitsVegetables) && Get(u, Additives) == Get(v, Additives);
  }

  /** x is at least as good as y on criterion c. */
  predicate AtLeastAsGood(c: Criterion, x: real, y: real)
  {
    if Maximised(c) then x >= y else x <= y
  }

  /** The profiles b1 .. b6 (indices 0 .. 5) never get worse from a lower to
      a higher one, on any criterion, in that criterion's preferred direction. */
  predicate ProfilesImprove(profiles: seq<Vector>)
  {
    |profiles| == 6 &&
    forall i, j, c :: 0 <= i <= j < 6 ==> AtLeastAsGood(c, Get(profiles[j], c), Get(profiles[i], c))
  }

  /** One entry of the weight dictionary, in the dictionary's order. */
  datatype Weight = Weight(criterion: Criterion, weight: real)

  type Weights = seq<Weight>

  function WeightSum(ws: Weights): real
  {
    if ws == [] then 0.0 else WeightSum(ws[..|ws| - 1]) + ws[|ws| - 1].weight
  }

  predicate NonNegative(ws: Weights)
  {
    forall k :: 0 <= k < |ws| ==> ws[k].weight >= 0.0
  }

  function Keys(ws: Weights): (r: seq<Criterion>)
    ensures |r| == |ws| && forall k :: 0 <= k < |ws| ==> r[k] == ws[k].criterion
  {
    if ws == [] then [] else Keys(ws[..|ws| - 1]) + [ws[|ws| - 1].criterion]
  }

  /** The default weights: 0.15 for energy, sugars, sodium and fruit/vegetables,
      0.10 for saturated fat, proteins, fibres and additives. */
  function DefaultWeights(): (ws: Weights)
    ensures Keys(ws) == AllCriteria
    ensures NonNegative(ws)
    ensures WeightSum(ws) == 1.0
  {
    DefaultTableSum();
    DefaultTable
  }

  const DefaultTable: Weights :=
    [Weight(EnergyKj, 0.15), Weight(SaturatedFat, 0.10), Weight(Sugars, 0.15), Weight(Sodium, 0.15),
     Weight(Proteins, 0.10), Weight(Fibres, 0.10), Weight(FruitsVegetables, 0.15), Weight(Additives, 0.10)]

  /** The weights of energy, saturated fat, sugars and sodium add up to 0.55. */
  lemma DefaultTableFirstHalf()
    ensures WeightSum(DefaultTable[..4]) == 0.55
  {
    var ws := DefaultTable;
    assert WeightSum(ws[..1]) == 0.15 by { assert ws[..1][..0] == []; }
    assert WeightSum(ws[..2]) == 0.25 by { assert ws[..2][..1] == ws[..1]; }
    assert WeightSum(ws[..3]) == 0.40 by { assert ws[..3][..2] == ws[..2]; }
    assert ws[..4][..3] == ws[..3];
  }

  /** All eight default weights add up to 1. */
  lemma DefaultTableSum()
    ensures WeightSum(DefaultTable) == 1.0
  {
    var ws := DefaultTable;
    DefaultTableFirstHalf();
    assert WeightSum(ws[..5]) == 0.65 by { assert ws[..5][..4] == ws[..4]; }
    assert WeightSum(ws[..6]) == 0.75 by { assert ws[..6][..5] == ws[..5]; }
    assert WeightSum(ws[..7]) == 0.90 by { assert ws[..7][..6] == ws[..6]; }
    assert ws[..8][..7] == ws[..7];
    assert ws[..8] == ws;
  }
}
