/**
 * DIMACS literals and unit clauses as both programs print them: a variable
 * index, negated by a leading '-', and a unit clause `<literal> 0`.
 */
module Literals {
  import opened Wrappers
  import opened Text

  /** `v` when `positive`, otherwise `-v`, written in decimal. */
  function Literal(positive: bool, v: nat): (s: string)
    ensures s != [] && NoSpace(s)
    ensures s[0] == '-' <==> !positive
    ensures positive ==> IsDigit(s[0])
    ensures !positive ==> s[1..] == NatToString(v)
    ensures PyInt(s) == Some(if positive then v else -(v as int))
  {
    if positive then
      PositiveLiteral(v);
      NatToString(v)
    else
      NegativeLiteral(v);
      "-" + NatToString(v)
  }

  lemma PositiveLiteral(v: nat)
    ensures NoSpace(NatToString(v)) && IsDigit(NatToString(v)[0])
    ensures PyInt(NatToString(v)) == Some(v)
  {
    PyIntOfNatToString(v);
  }

  lemma NegativeLiteral(v: nat)
    ensures NoSpace("-" + NatToString(v)) && ("-" + NatToString(v))[1..] == NatToString(v)
    ensures PyInt("-" + NatToString(v)) == Some(-(v as int))
  {
    PyIntOfNatToString(v);
    var s := NatToString(v);
    assert forall k :: 1 <= k < |"-" + s| ==> ("-" + s)[k] == s[k - 1];
  }

  /** The unit clause `<literal> 0`; a reader splitting it on blanks sees the literal and `0`. */
  function UnitClause(positive: bool, v: nat): (s: string)
    ensures s != [] && (s[0] == '-' <==> !positive) && (positive ==> IsDigit(s[0]))
    ensures IsDigit(s[|s| - 1])
    ensures Words(s) == [Literal(positive, v), "0"]
  {
    var lit := Literal(positive, v);
    WordsCons(lit, ' ', "0");
    WordsOfWord("0");
    assert lit + " 0" == lit + [' '] + "0";
    lit + " 0"
  }

  /** The text of a unit clause as the C++ loop assembles it. */
  lemma UnitClauseText(positive: bool, v: nat)
    ensures UnitClause(positive, v) == (if positive then "" else "-") + NatToString(v) + " 0"
  {
    if positive {
      assert "" + NatToString(v) == NatToString(v);
    }
  }

  /** The literal determines its sign and variable. */
  lemma LiteralInjective(p: bool, v: nat, q: bool, w: nat)
    requires Literal(p, v) == Literal(q, w)
    ensures p == q && v == w
  {
  }

  /** Two unit clauses of opposite sign differ already in their first character. */
  lemma UnitClauseSignsDiffer(v: nat, w: nat)
    ensures UnitClause(true, v)[0] != UnitClause(false, w)[0]
  {
  }
}
