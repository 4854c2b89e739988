/** The confusion matrix comparing two columns of labels, such as the
    Nutri-Score grade and the ELECTRE TRI category of every product. */
module Analysis {

  import opened Wrappers
  import opened Labels

  /** The label with every apostrophe removed. */
  function StripQuotes(s: string): (r: string)
    ensures forall i :: 0 <= i < |r| ==> r[i] != '\''
    ensures |r| <= |s|
    ensures (forall i :: 0 <= i < |s| ==> s[i] != '\'') ==> r == s
  {
    if s == [] then []
    else if s[0] == '\'' then StripQuotes(s[1..])
    else [s[0]] + StripQuotes(s[1..])
  }

  lemma {:induction false} StripQuotesAppend(s: string, t: string)
    ensures StripQuotes(s + t) == StripQuotes(s) + StripQuotes(t)
  {
    if s == [] {
      assert s + t == t;
    } else {
      assert (s + t)[1..] == s[1..] + t;
      StripQuotesAppend(s[1..], t);
    }
  }

  /** Stripping is idempotent. */
  lemma StripQuotesIdempotent(s: string)
    ensures StripQuotes(StripQuotes(s)) == StripQuotes(s)
  {
  }

  /** An ELECTRE TRI category and a Nutri-Score label of the same grade are
      the same label once stripped. */
  lemma StripQuotesPrimed(g: Grade)
    ensures StripQuotes(Primed(g)) == Letter(g)
    ensures StripQuotes(Letter(g)) == Letter(g)
  {
    StripQuotesAppend(Letter(g), "'");
  }

  /** The grade a cell of either column stands for, if any. */
  function Classify(s: string): (r: Option<Grade>)
    ensures r.Some? ==> Letter(r.value) == StripQuotes(s)
  {
    ParseLetter(StripQuotes(s))
  }

  lemma ClassifyLabels(g: Grade)
    ensures Classify(Letter(g)) == Some(g)
    ensures Classify(Primed(g)) == Some(g)
  {
    StripQuotesPrimed(g);
    ParseLetterOfLetter(g);
  }

  /** Only one letter and apostrophes: "A", "A'" and "'A''" are all read as A;
      "F", "" and "AB" are not read at all. */
  lemma ClassifyExamples()
    ensures Classify("'A''") == Some(A)
    ensures Classify("F") == None && Classify("") == None && Classify("AB") == None
  {
    assert StripQuotes("'A''") == "A" by {
      assert "'A''"[1..] == "A''" && "A''"[1..] == "''" && "''"[1..] == "'" && "'"[1..] == "";
    }
    assert StripQuotes("AB") == "AB" by {
      assert "AB"[1..] == "B" && "B"[1..] == "";
    }
  }

  /** How every cell of a column is read. */
  function Readings(labels: seq<string>): (r: seq<Option<Grade>>)
    ensures |r| == |labels| && forall k :: 0 <= k < |labels| ==> r[k] == Classify(labels[k])
  {
    seq(|labels|, k requires 0 <= k < |labels| => Classify(labels[k]))
  }

  /** The pairs that enter the matrix: the first n of both columns. */
  function PairsConsidered(truth: seq<string>, predicted: seq<string>): (n: nat)
    ensures n <= |truth| && n <= |predicted|
    ensures n == |truth| || n == |predicted|
  {
    if |truth| <= |predicted| then |truth| else |predicted|
  }

  /** The number of positions k < n whose true reading is g and whose
      predicted reading is h. */
  function CellCount(ts: seq<Option<Grade>>, ps: seq<Option<Grade>>, n: nat, g: Grade, h: Grade): (r: nat)
    requires n <= |ts| && n <= |ps|
    ensures r <= n
  {
    if n == 0 then 0
    else CellCount(ts, ps, n - 1, g, h) + (if ts[n - 1] == Some(g) && ps[n - 1] == Some(h) then 1 else 0)
  }

  /** The number of positions k < n where both readings are grades. */
  function ValidCount(ts: seq<Option<Grade>>, ps: seq<Option<Grade>>, n: nat): (r: nat)
    requires n <= |ts| && n <= |ps|
    ensures r <= n
  {
    if n == 0 then 0
    else ValidCount(ts, ps, n - 1) + (if ts[n - 1].Some? && ps[n - 1].Some? then 1 else 0)
  }

  function RowTotal(ts: seq<Option<Grade>>, ps: seq<Option<Grade>>, n: nat, g: Grade): nat
    requires n <= |ts| && n <= |ps|
  {
    CellCount(ts, ps, n, g, A) + CellCount(ts, ps, n, g, B) + CellCount(ts, ps, n, g, C) +
    CellCount(ts, ps, n, g, D) + CellCount(ts, ps, n, g, E)
  }

  function Total(ts: seq<Option<Grade>>, ps: seq<Option<Grade>>, n: nat): nat
    requires n <= |ts| && n <= |ps|
  {
    RowTotal(ts, ps, n, A) + RowTotal(ts, ps, n, B) + RowTotal(ts, ps, n, C) +
    RowTotal(ts, ps, n, D) + RowTotal(ts, ps, n, E)
  }

  /** The number of positions k < n whose true reading is g and whose
      predicted reading is some grade. */
  function RowValid(ts: seq<Option<Grade>>, ps: seq<Option<Grade>>, n: nat, g: Grade): nat
    requires n <= |ts| && n <= |ps|
  {
    if n == 0 then 0
    else RowValid(ts, ps, n - 1, g) + (if ts[n - 1] == Some(g) && ps[n - 1].Some? then 1 else 0)
  }

  /** A predicted reading that is a grade falls in exactly one column. */
  lemma OneColumn(t: Option<Grade>, p: Option<Grade>, g: Grade)
    ensures (if t == Some(g) && p == Some(A) then 1 else 0) + (if t == Some(g) && p == Some(B) then 1 else 0) +
            (if t == Some(g) && p == Some(C) then 1 else 0) + (if t == Some(g) && p == Some(D) then 1 else 0) +
            (if t == Some(g) && p == Some(E) then 1 else 0) == (if t == Some(g) && p.Some? then 1 else 0)
  {
    match p
    case None =>
    case Some(h) =>
      match h
      case A => case B => case C => case D => case E =>
  }

  /** A row of the matrix adds up to the pairs with that true grade. */
  lemma {:induction false} RowTotalIsRowValid(ts: seq<Option<Grade>>, ps: seq<Option<Grade>>, n: nat, g: Grade)
    requires n <= |ts| && n <= |ps|
    ensures RowTotal(ts, ps, n, g) == RowValid(ts, ps, n, g)
  {
    if n > 0 {
      RowTotalIsRowValid(ts, ps, n - 1, g);
      OneColumn(ts[n - 1], ps[n - 1], g);
    }
  }

  /** A pair of readings falls in exactly one row when both are grades, and in none otherwise. */
  lemma OneRow(t: Option<Grade>, p: Option<Grade>)
    ensures (if t == Some(A) && p.Some? then 1 else 0) + (if t == Some(B) && p.Some? then 1 else 0) +
            (if t == Some(C) && p.Some? then 1 else 0) + (if t == Some(D) && p.Some? then 1 else 0) +
            (if t == Some(E) && p.Some? then 1 else 0) == (if t.Some? && p.Some? then 1 else 0)
  {
    match t
    case None =>
    case Some(g) =>
      match g
      case A => case B => case C => case D => case E =>
  }

  /** The five rows together cover exactly the pairs of two grades. */
  lemma {:induction false} RowsCoverValid(ts: seq<Option<Grade>>, ps: seq<Option<Grade>>, n: nat)
    requires n <= |ts| && n <= |ps|
    ensures RowValid(ts, ps, n, A) + RowValid(ts, ps, n, B) + RowValid(ts, ps, n, C) +
            RowValid(ts, ps, n, D) + RowValid(ts, ps, n, E) == ValidCount(ts, ps, n)
  {
    if n > 0 {
      RowsCoverValid(ts, ps, n - 1);
      OneRow(ts[n - 1], ps[n - 1]);
    }
  }

  /** Every pair whose two readings are grades is counted in exactly one of
      the 25 cells, so the cells add up to the number of such pairs. */
  lemma TotalIsValidCount(ts: seq<Option<Grade>>, ps: seq<Option<Grade>>, n: nat)
    requires n <= |ts| && n <= |ps|
    ensures Total(ts, ps, n) == ValidCount(ts, ps, n)
  {
    RowTotalIsRowValid(ts, ps, n, A);
    RowTotalIsRowValid(ts, ps, n, B);
    RowTotalIsRowValid(ts, ps, n, C);
    RowTotalIsRowValid(ts, ps, n, D);
    RowTotalIsRowValid(ts, ps, n, E);
    RowsCoverValid(ts, ps, n);
  }

  /** When the two columns agree on every pair where both labels are readable,
      the matrix is zero off its diagonal. */
  lemma {:induction false} AgreementIsDiagonal(ts: seq<Option<Grade>>, ps: seq<Option<Grade>>, n: nat, g: Grade, h: Grade)
    requires n <= |ts| && n <= |ps| && g != h
    requires forall k :: 0 <= k < n && ts[k].Some? && ps[k].Some? ==> ts[k] == ps[k]
    ensures CellCount(ts, ps, n, g, h) == 0
  {
    if n > 0 {
      AgreementIsDiagonal(ts, ps, n - 1, g, h);
    }
  }

  /** A column of Nutri-Score labels, and one of ELECTRE TRI categories. */
  function Letters(gs: seq<Grade>): (r: seq<string>)
    ensures |r| == |gs| && forall k :: 0 <= k < |gs| ==> r[k] == Letter(gs[k])
  {
    seq(|gs|, k requires 0 <= k < |gs| => Letter(gs[k]))
  }

  function Categories(gs: seq<Grade>): (r: seq<string>)
    ensures |r| == |gs| && forall k :: 0 <= k < |gs| ==> r[k] == Primed(gs[k])
  {
    seq(|gs|, k requires 0 <= k < |gs| => Primed(gs[k]))
  }

  /** Rendered labels are always read back as their grade. */
  lemma ReadingsOfRendered(gs: seq<Grade>)
    ensures Readings(Letters(gs)) == Readings(Categories(gs))
    ensures forall k :: 0 <= k < |gs| ==> Readings(Letters(gs))[k] == Some(gs[k])
  {
    forall k | 0 <= k < |gs| ensures Readings(Letters(gs))[k] == Some(gs[k]) == Readings(Categories(gs))[k] {
      ClassifyLabels(gs[k]);
    }
  }

  /** Comparing a column of Nutri-Score labels with a column of ELECTRE TRI
      categories, every pair is counted in some cell. */
  lemma {:induction false} RenderedPairsAllCounted(ts: seq<Option<Grade>>, ps: seq<Option<Grade>>, n: nat)
    requires n <= |ts| && n <= |ps|
    requires forall k :: 0 <= k < n ==> ts[k].Some? && ps[k].Some?
    ensures ValidCount(ts, ps, n) == n
  {
    if n > 0 {
      RenderedPairsAllCounted(ts, ps, n - 1);
    }
  }

  /** The matrix of two rendered columns counts every one of their pairs. */
  lemma RenderedMatrixTotal(truth: seq<Grade>, predicted: seq<Grade>)
    ensures var n := PairsConsidered(Letters(truth), Categories(predicted));
      Total(Readings(Letters(truth)), Readings(Categories(predicted)), n) == n
  {
    var ts, ps := Readings(Letters(truth)), Readings(Categories(predicted));
    var n := PairsConsidered(Letters(truth), Categories(predicted));
    ReadingsOfRendered(truth);
    ReadingsOfRendered(predicted);
    RenderedPairsAllCounted(ts, ps, n);
    TotalIsValidCount(ts, ps, n);
  }

  /** The 5 x 5 confusion matrix, rows the true grade A .. E and columns the
      predicted one. Labels are read with apostrophes removed; a pair with a
      label that is not a grade is skipped, and only the first
      min(|truth|, |predicted|) pairs are looked at. */
  method ConfusionMatrix(truth: seq<string>, predicted: seq<string>) returns (m: array2<int>)
    ensures fresh(m) && m.Length0 == 5 && m.Length1 == 5
    ensures forall i, j :: 0 <= i < 5 && 0 <= j < 5 ==>
      m[i, j] == CellCount(Readings(truth), Readings(predicted), PairsConsidered(truth, predicted), GradeAt(i), GradeAt(j))
  {
    m := new int[5, 5]((i, j) => 0);
    var n := PairsConsidered(truth, predicted);
    for k := 0 to n
      invariant forall i, j :: 0 <= i < 5 && 0 <= j < 5 ==>
        m[i, j] == CellCount(Readings(truth), Readings(predicted), k, GradeAt(i), GradeAt(j))
    {
      var t, p := Classify(truth[k]), Classify(predicted[k]);
      if t.Some? && p.Some? {
        var i, j := Rank(t.value), Rank(p.value);
        GradeAtRank(t.value);
        GradeAtRank(p.value);
        m[i, j] := m[i, j] + 1;
      }
    }
  }
}
