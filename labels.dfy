/** The five ordered grades shared by the Nutri-Score (A to E) and by the
    ELECTRE TRI classifier (A' to E'), and their textual forms. */
module Labels {

  import opened Wrappers

  /** A is the best grade and E the worst. */
  datatype Grade = A | B | C | D | E

  /** Position on the ordinal scale: 0 for the best grade, 4 for the worst. */
  function Rank(g: Grade): nat
  {
    match g
    case A => 0
    case B => 1
    case C => 2
    case D => 3
    case E => 4
  }

  /** The grade at a position of the scale, best first. */
  function GradeAt(i: nat): (g: Grade)
    requires i < 5
    ensures Rank(g) == i
  {
    [A, B, C, D, E][i]
  }

  lemma GradeAtRank(g: Grade)
    ensures GradeAt(Rank(g)) == g
  {
  }

  /** The Nutri-Score label: "A" .. "E". */
  function Letter(g: Grade): string
  {
    match g
    case A => "A"
    case B => "B"
    case C => "C"
    case D => "D"
    case E => "E"
  }

  /** The ELECTRE TRI category: "A'" .. "E'". */
  function Primed(g: Grade): string
  {
    Letter(g) + "'"
  }

  /** Reads a plain label back; anything that is not one of the five letters is rejected. */
  function ParseLetter(s: string): (r: Option<Grade>)
    ensures r.Some? ==> Letter(r.value) == s
  {
    if s == "A" then Some(A)
    else if s == "B" then Some(B)
    else if s == "C" then Some(C)
    else if s == "D" then Some(D)
    else if s == "E" then Some(E)
    else None
  }

  lemma ParseLetterOfLetter(g: Grade)
    ensures ParseLetter(Letter(g)) == Some(g)
  {
  }
}
