/**
 * `parse_solver_log` of find_decomp_set.py: the verdict a SAT solver's
 * textual output announces.
 */
module SolverLog {
  import opened Wrappers
  import opened Text

  datatype Verdict = SAT | UNSAT | INDET

  /**
   * The verdict one output line announces: none for a line shorter than 12
   * characters; `SAT` when it holds `s SATISFIABLE` (even if it also holds
   * `s UNSATISFIABLE`); `UNSAT` when it holds only `s UNSATISFIABLE`.
   */
  function LineVerdict(line: string): Option<Verdict> {
    if |line| < 12 then None
    else if Contains(line, "s SATISFIABLE") then Some(SAT)
    else if Contains(line, "s UNSATISFIABLE") then Some(UNSAT)
    else None
  }

  /** The lines of a log, as `log.split('\n')` gives them. */
  function LogLines(log: string): seq<string> {
    SplitOn(log, '\n')
  }

  predicate NoVerdictLine(lines: seq<string>) {
    forall k :: 0 <= k < |lines| ==> LineVerdict(lines[k]).None?
  }

  /** Some line announces `v`, and no line after it announces anything. */
  predicate IsLastVerdictLine(lines: seq<string>, v: Verdict) {
    exists k :: 0 <= k < |lines| && LineVerdict(lines[k]) == Some(v) &&
      forall j :: k < j < |lines| ==> LineVerdict(lines[j]).None?
  }

  /**
   * Scans the lines of `log` (split at '\n'). The result is `INDET` exactly
   * when no line announces a verdict; otherwise it is the verdict of the LAST
   * line that announces one.
   */
  method ParseSolverLog(log: string) returns (res: Verdict)
    ensures res == INDET <==> NoVerdictLine(LogLines(log))
    ensures res != INDET ==> IsLastVerdictLine(LogLines(log), res)
  {
    res := INDET;
    var lines := LogLines(log);
    ghost var last: nat := 0;
    for i := 0 to |lines|
      invariant res == INDET <==> forall k :: 0 <= k < i ==> LineVerdict(lines[k]).None?
      invariant res != INDET ==>
        last < i && LineVerdict(lines[last]) == Some(res) &&
        forall j :: last < j < i ==> LineVerdict(lines[j]).None?
    {
      var line := lines[i];
      if |line| < 12 {
        continue;
      }
      if Contains(line, "s SATISFIABLE") {
        res := SAT;
        last := i;
      } else if Contains(line, "s UNSATISFIABLE") {
        res := UNSAT;
        last := i;
      }
    }
    assert res == INDET <==> forall k :: 0 <= k < |lines| ==> LineVerdict(lines[k]).None?;
    assert res != INDET ==> LineVerdict(lines[last]) == Some(res);
  }

  /** The closing line of a satisfiable run. */
  lemma SatisfiableLine()
    ensures LineVerdict("s SATISFIABLE") == Some(SAT)
  {
    assert OccursAt("s SATISFIABLE", "s SATISFIABLE", 0);
  }

  /** The closing line of an unsatisfiable run, which does not hold `s SATISFIABLE`. */
  lemma UnsatisfiableLine()
    ensures LineVerdict("s UNSATISFIABLE") == Some(UNSAT)
  {
    var line := "s UNSATISFIABLE";
    var pat := "s SATISFIABLE";
    assert IndexFrom(line, pat, 3) == None;
    assert line[2..15] != pat by { assert line[2] != pat[0]; }
    assert IndexFrom(line, pat, 2) == None;
    assert line[1..14] != pat by { assert line[1] != pat[0]; }
    assert IndexFrom(line, pat, 1) == None;
    assert line[0..13] != pat by { assert line[2] != pat[2]; }
    assert IndexFrom(line, pat, 0) == None;
    assert OccursAt(line, "s UNSATISFIABLE", 0);
  }
}
