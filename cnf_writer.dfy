/**
 * `write_clauses_cnf` of find_decomp_set.py: the working CNF handed to the
 * solver, as the sequence of its lines (each is written with a trailing '\n').
 */
module CnfWriter {
  import opened Text

  /** The DIMACS problem line `p cnf <var_num> <clause count>`. */
  function Header(varNum: nat, clauseCount: nat): string {
    "p cnf " + NatToString(varNum) + " " + NatToString(clauseCount)
  }

  /** The lines of the working CNF: the header, the main clauses, then the unit clauses. */
  function CnfLines(varNum: nat, mainClauses: seq<string>, oneLitClauses: seq<string>): seq<string> {
    [Header(varNum, |mainClauses| + |oneLitClauses|)] + mainClauses + oneLitClauses
  }

  /**
   * The header line, first; then every main clause in its order; then every
   * unit clause in its order: `1 + |main| + |units|` lines in all.
   */
  method WriteClausesCnf(varNum: nat, mainClauses: seq<string>, oneLitClauses: seq<string>)
    returns (lines: seq<string>)
    ensures |lines| == 1 + |mainClauses| + |oneLitClauses|
    ensures lines[0] == Header(varNum, |mainClauses| + |oneLitClauses|)
    ensures lines[1..1 + |mainClauses|] == mainClauses
    ensures lines[1 + |mainClauses|..] == oneLitClauses
    ensures lines == CnfLines(varNum, mainClauses, oneLitClauses)
  {
    lines := [Header(varNum, |mainClauses| + |oneLitClauses|)];
    for k := 0 to |mainClauses|
      invariant lines == [Header(varNum, |mainClauses| + |oneLitClauses|)] + mainClauses[..k]
    {
      lines := lines + [mainClauses[k]];
    }
    assert mainClauses[..|mainClauses|] == mainClauses;
    for k := 0 to |oneLitClauses|
      invariant lines == [Header(varNum, |mainClauses| + |oneLitClauses|)] + mainClauses + oneLitClauses[..k]
    {
      lines := lines + [oneLitClauses[k]];
    }
    assert oneLitClauses[..|oneLitClauses|] == oneLitClauses;
  }

  /** A reader splitting the header on blanks sees `p`, `cnf` and the two numbers. */
  lemma HeaderWords(varNum: nat, clauseCount: nat)
    ensures Words(Header(varNum, clauseCount)) == ["p", "cnf", NatToString(varNum), NatToString(clauseCount)]
  {
    var v, c := NatToString(varNum), NatToString(clauseCount);
    assert NoSpace(v) && NoSpace(c);
    var t3 := v + [' '] + c;
    var t2 := "cnf" + [' '] + t3;
    var t1 := "p" + [' '] + t2;
    assert Header(varNum, clauseCount) == t1 by {
      assert "p cnf " == "p" + [' '] + "cnf" + [' '];
    }
    assert Words(t3) == [v, c] by {
      WordsOfWord(c);
      WordsCons(v, ' ', c);
    }
    assert Words(t2) == ["cnf", v, c] by {
      WordsCons("cnf", ' ', t3);
    }
    assert Words(t1) == ["p", "cnf", v, c] by {
      WordsCons("p", ' ', t2);
    }
  }
}
