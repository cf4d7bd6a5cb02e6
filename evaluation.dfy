/**
 * The second half of `process_decomp_set` in find_decomp_set.py: for every
 * bit string of the sample, the working CNF (the main clauses plus one unit
 * clause per decomposition-set variable) is handed to the solver, until the
 * first run that decides nothing; the average runtime divides the decisive
 * runtimes by the size of the whole sample.
 *
 * The solver run (a `timeout` subprocess timed with the wall clock, its log
 * scanned by `ParseSolverLog`) is the parameter `oracle`; the file system is
 * the map `fs` from file names to their lines.
 */
module Evaluation {
  import opened Wrappers
  import opened Text
  import opened Literals
  import opened Failures
  import opened CnfWriter
  import opened SolverLog
  import opened StagedCnf

  /** What one solver run on one formula gives: its verdict and its runtime in seconds. */
  datatype Outcome = Outcome(verdict: Verdict, runtime: real)

  // ---------------------------------------------------------------------------
  // Unit clauses for a sample point
  // ---------------------------------------------------------------------------

  /** The unit clauses fixing `dset` to `bits`, position by position. */
  function UnitClauseList(dset: seq<nat>, bits: string): seq<string>
    requires |bits| >= |dset|
  {
    seq(|dset|, i requires 0 <= i < |dset| => UnitClause(bits[i] == '1', dset[i]))
  }

  /**
   * One unit clause per decomposition-set variable: clause `i` is
   * `dset[i] 0` when `bits[i]` is '1' and `-dset[i] 0` otherwise.
   */
  method UnitClauses(dset: seq<nat>, bits: string) returns (units: seq<string>)
    requires |bits| == |dset|
    ensures |units| == |dset|
    ensures forall i :: 0 <= i < |dset| ==> units[i] == UnitClause(bits[i] == '1', dset[i])
  {
    units := [];
    for i := 0 to |dset|
      invariant |units| == i
      invariant forall j :: 0 <= j < i ==> units[j] == UnitClause(bits[j] == '1', dset[j])
    {
      var s := if bits[i] == '1' then "" else "-";
      s := s + NatToString(dset[i]) + " 0";
      units := units + [s];
    }
  }

  /**
   * Read back as the solver reads DIMACS, unit clause `i` asserts variable
   * `dset[i]`, positively exactly when `bits[i]` is '1'.
   */
  lemma UnitClauseListFixes(dset: seq<nat>, bits: string, i: nat)
    requires |bits| >= |dset| && i < |dset|
    ensures |UnitClauseList(dset, bits)| == |dset|
    ensures |Words(UnitClauseList(dset, bits)[i])| == 2
    ensures Words(UnitClauseList(dset, bits)[i])[1] == "0"
    ensures PyInt(Words(UnitClauseList(dset, bits)[i])[0]) ==
      Some(if bits[i] == '1' then dset[i] as int else -(dset[i] as int))
  {
    var positive := bits[i] == '1';
    var u := UnitClauseList(dset, bits)[i];
    assert u == UnitClause(positive, dset[i]);
    var lit := Literal(positive, dset[i]);
    assert Words(u) == [lit, "0"];
    assert PyInt(lit) == Some(if positive then dset[i] as int else -(dset[i] as int));
  }

  lemma SmallUnitClauses()
    ensures UnitClause(true, 1) == "1 0" && UnitClause(false, 1) == "-1 0"
    ensures UnitClause(true, 2) == "2 0" && UnitClause(false, 2) == "-2 0"
    ensures UnitClause(true, 3) == "3 0"
  {
    assert NatToString(1) == "1" && NatToString(2) == "2" && NatToString(3) == "3";
  }

  /** The unit clauses for the decomposition set [1, 2, 3] and the sample "101". */
  lemma UnitClausesExample()
    ensures UnitClauseList([1, 2, 3], "101") == ["1 0", "-2 0", "3 0"]
  {
    assert UnitClauseList([1, 2, 3], "101") == [UnitClause(true, 1), UnitClause(false, 2), UnitClause(true, 3)];
    SmallUnitClauses();
  }

  /** The same decomposition set under the sample "011". */
  lemma UnitClausesOtherExample()
    ensures UnitClauseList([1, 2, 3], "011") == ["-1 0", "2 0", "3 0"]
  {
    assert UnitClauseList([1, 2, 3], "011") == [UnitClause(false, 1), UnitClause(true, 2), UnitClause(true, 3)];
    SmallUnitClauses();
  }

  // ---------------------------------------------------------------------------
  // The working CNF and its round trip through the reader
  // ---------------------------------------------------------------------------

  /** The working CNF for one bit string of the sample. */
  function SubInstance(cnf: Cnf, dset: seq<nat>, bits: string): seq<string>
    requires |bits| >= |dset|
  {
    CnfLines(cnf.varNum, cnf.mainClauses, UnitClauseList(dset, bits))
  }

  lemma {:induction false} AllMainClauses(ls: seq<string>, dset: seq<nat>)
    requires forall k :: 0 <= k < |ls| ==> ClassifyLine(ls[k], dset) == Ok(MainClause)
    ensures WellFormedLines(ls, dset)
    ensures MainClauses(ls, dset) == ls
    ensures DecompUnitCount(ls, dset) == 0 && LastVarNum(ls, dset) == None
  {
    if ls != [] {
      AllMainClauses(ls[1..], dset);
      assert [ls[0]] + ls[1..] == ls;
    }
  }

  lemma {:induction false} AllDecompUnits(ls: seq<string>, dset: seq<nat>)
    requires forall k :: 0 <= k < |ls| ==> ClassifyLine(ls[k], dset) == Ok(DecompUnit)
    ensures WellFormedLines(ls, dset)
    ensures MainClauses(ls, dset) == [] && DecompUnitCount(ls, dset) == |ls| && LastVarNum(ls, dset) == None
  {
    if ls != [] {
      AllDecompUnits(ls[1..], dset);
    }
  }

  lemma UnitClauseIsDecompUnit(positive: bool, v: nat, dset: seq<nat>)
    requires v in dset
    ensures ClassifyLine(UnitClause(positive, v), dset) == Ok(DecompUnit)
  {
    var s := UnitClause(positive, v);
    assert s[0] != 'c' && s[0] != 'p';
    assert Abs(PyInt(Words(s)[0]).value) == v;
  }

  lemma HeaderIsProblemLine(varNum: nat, clauseCount: nat, dset: seq<nat>)
    ensures ClassifyLine(Header(varNum, clauseCount), dset) == Ok(Problem(varNum))
  {
    HeaderWords(varNum, clauseCount);
    PyIntOfNatToString(varNum);
    assert Header(varNum, clauseCount)[0] == 'p';
  }

  lemma MainClausesClassify(lines: seq<string>, dset: seq<nat>)
    ensures forall k :: 0 <= k < |MainClauses(lines, dset)| ==>
      ClassifyLine(MainClauses(lines, dset)[k], dset) == Ok(MainClause)
  {
    MainClausesAreKeptLines(lines, dset);
    var main := MainClauses(lines, dset);
    forall k | 0 <= k < |main| ensures ClassifyLine(main[k], dset) == Ok(MainClause) {
      assert main[k] in main;
    }
  }

  /** The reference reading of a working CNF: its header's count, its main clauses, one unit per variable. */
  lemma WorkingCnfReference(cnf: Cnf, dset: seq<nat>, bits: string)
    requires |bits| >= |dset|
    requires forall k :: 0 <= k < |cnf.mainClauses| ==> ClassifyLine(cnf.mainClauses[k], dset) == Ok(MainClause)
    ensures WellFormedLines(SubInstance(cnf, dset, bits), dset)
    ensures MainClauses(SubInstance(cnf, dset, bits), dset) == cnf.mainClauses
    ensures DecompUnitCount(SubInstance(cnf, dset, bits), dset) == |dset|
    ensures LastVarNum(SubInstance(cnf, dset, bits), dset) == Some(cnf.varNum as int)
  {
    UnitsReference(dset, bits);
    CnfLinesReference(cnf.varNum, cnf.mainClauses, UnitClauseList(dset, bits), dset);
  }

  lemma CnfLinesReference(varNum: nat, main: seq<string>, units: seq<string>, dset: seq<nat>)
    requires forall k :: 0 <= k < |main| ==> ClassifyLine(main[k], dset) == Ok(MainClause)
    requires WellFormedLines(units, dset) && MainClauses(units, dset) == [] && LastVarNum(units, dset) == None
    ensures WellFormedLines(CnfLines(varNum, main, units), dset)
    ensures MainClauses(CnfLines(varNum, main, units), dset) == main
    ensures DecompUnitCount(CnfLines(varNum, main, units), dset) == DecompUnitCount(units, dset)
    ensures LastVarNum(CnfLines(varNum, main, units), dset) == Some(varNum as int)
  {
    var h := Header(varNum, |main| + |units|);
    HeaderIsProblemLine(varNum, |main| + |units|, dset);
    LinesReference(h, main, units, dset, varNum);
  }

  /** Lines made of one 'p' line, then main clauses, then decomposition-set unit clauses. */
  lemma LinesReference(h: string, main: seq<string>, units: seq<string>, dset: seq<nat>, varNum: nat)
    requires ClassifyLine(h, dset) == Ok(Problem(varNum))
    requires forall k :: 0 <= k < |main| ==> ClassifyLine(main[k], dset) == Ok(MainClause)
    requires WellFormedLines(units, dset) && MainClauses(units, dset) == [] && LastVarNum(units, dset) == None
    ensures WellFormedLines([h] + main + units, dset)
    ensures MainClauses([h] + main + units, dset) == main
    ensures DecompUnitCount([h] + main + units, dset) == DecompUnitCount(units, dset)
    ensures LastVarNum([h] + main + units, dset) == Some(varNum as int)
  {
    AllMainClauses(main, dset);
    assert [h][1..] == [];
    ThreePartReference([h], main, units, dset);
  }

  lemma ThreePartReference(a: seq<string>, b: seq<string>, c: seq<string>, dset: seq<nat>)
    ensures WellFormedLines(a + b + c, dset) <==>
      WellFormedLines(a, dset) && WellFormedLines(b, dset) && WellFormedLines(c, dset)
    ensures MainClauses(a + b + c, dset) == MainClauses(a, dset) + MainClauses(b, dset) + MainClauses(c, dset)
    ensures DecompUnitCount(a + b + c, dset) == DecompUnitCount(a, dset) + DecompUnitCount(b, dset) + DecompUnitCount(c, dset)
    ensures LastVarNum(c, dset).None? && LastVarNum(b, dset).None? ==> LastVarNum(a + b + c, dset) == LastVarNum(a, dset)
  {
    ReferenceAppend(a, b, dset);
    ReferenceAppend(a + b, c, dset);
    WellFormedAppend(a, b, dset);
    WellFormedAppend(a + b, c, dset);
  }

  lemma UnitsReference(dset: seq<nat>, bits: string)
    requires |bits| >= |dset|
    ensures WellFormedLines(UnitClauseList(dset, bits), dset)
    ensures MainClauses(UnitClauseList(dset, bits), dset) == []
    ensures DecompUnitCount(UnitClauseList(dset, bits), dset) == |dset|
    ensures LastVarNum(UnitClauseList(dset, bits), dset) == None
  {
    var units := UnitClauseList(dset, bits);
    forall k | 0 <= k < |units| ensures ClassifyLine(units[k], dset) == Ok(DecompUnit) {
      UnitClauseIsDecompUnit(bits[k] == '1', dset[k], dset);
    }
    AllDecompUnits(units, dset);
  }


  /**
   * The working CNF, read back by the reader of the staged CNF, gives the same
   * variable count and the same main clauses: the header is the one 'p' line
   * and the unit clauses are exactly one per decomposition-set variable.
   */
  lemma WorkingCnfReadsBack(lines: seq<string>, dset: seq<nat>, bits: string)
    requires ReadCnf(lines, dset).Ok?
    requires |bits| >= |dset|
    requires |ReadCnf(lines, dset).value.mainClauses| + |dset| >= 2
    ensures ReadCnf(SubInstance(ReadCnf(lines, dset).value, dset, bits), dset) == ReadCnf(lines, dset)
  {
    var cnf := ReadCnf(lines, dset).value;
    ReadCnfMeaning(lines, dset);
    MainClausesClassify(lines, dset);
    WorkingCnfReference(cnf, dset, bits);
    ReadCnfMeaning(SubInstance(cnf, dset, bits), dset);
  }

  // ---------------------------------------------------------------------------
  // Solver runs and the average runtime
  // ---------------------------------------------------------------------------

  /** The solver's outcome on the working CNF of every bit string of the sample. */
  function Outcomes(cnf: Cnf, dset: seq<nat>, sample: seq<string>, oracle: seq<string> -> Outcome): (outs: seq<Outcome>)
    requires forall k :: 0 <= k < |sample| ==> |sample[k]| >= |dset|
  {
    seq(|sample|, k requires 0 <= k < |sample| => oracle(SubInstance(cnf, dset, sample[k])))
  }

  /** The outcomes before the first INDET one. */
  function DecisivePrefix(outs: seq<Outcome>): seq<Outcome> {
    if outs == [] || outs[0].verdict == INDET then [] else [outs[0]] + DecisivePrefix(outs[1..])
  }

  function RuntimeSum(outs: seq<Outcome>): real {
    if outs == [] then 0.0 else RuntimeSum(outs[..|outs| - 1]) + outs[|outs| - 1].runtime
  }

  /**
   * The average runtime: the runtimes before the first INDET outcome, summed
   * and divided by the size of the sample (not by the number of runs made).
   */
  function AverageRuntime(outs: seq<Outcome>, sampleSize: nat): real
    requires sampleSize > 0
  {
    RuntimeSum(DecisivePrefix(outs)) / sampleSize as real
  }

  /** A run of decisive outcomes ended by an INDET one (or by the end) is the decisive prefix. */
  lemma {:induction false} DecisivePrefixIs(outs: seq<Outcome>, k: nat)
    requires k <= |outs|
    requires forall j :: 0 <= j < k ==> outs[j].verdict != INDET
    requires k == |outs| || outs[k].verdict == INDET
    ensures DecisivePrefix(outs) == outs[..k]
  {
    if k > 0 {
      DecisivePrefixIs(outs[1..], k - 1);
      assert outs[..k] == [outs[0]] + outs[1..][..k - 1];
    }
  }

  /**
   * The average is the sum of the runtimes of the runs before the first INDET
   * one, that run's own runtime and all later ones left out, over the sample size.
   */
  lemma AverageUpToFirstIndet(outs: seq<Outcome>, k: nat, sampleSize: nat)
    requires sampleSize > 0 && k <= |outs|
    requires forall j :: 0 <= j < k ==> outs[j].verdict != INDET
    requires k == |outs| || outs[k].verdict == INDET
    ensures AverageRuntime(outs, sampleSize) == RuntimeSum(outs[..k]) / sampleSize as real
  {
    DecisivePrefixIs(outs, k);
  }

  /** Four decisive runs of 1, 2, 3 and 4 seconds and then an INDET one, in a sample of 10, average 1.0. */
  lemma DilutedAverageExample()
    ensures AverageRuntime([Outcome(SAT, 1.0), Outcome(UNSAT, 2.0), Outcome(SAT, 3.0), Outcome(SAT, 4.0),
                            Outcome(INDET, 5000.0), Outcome(SAT, 1.0), Outcome(SAT, 1.0), Outcome(SAT, 1.0),
                            Outcome(SAT, 1.0), Outcome(SAT, 1.0)], 10) == 1.0
  {
    var outs := [Outcome(SAT, 1.0), Outcome(UNSAT, 2.0), Outcome(SAT, 3.0), Outcome(SAT, 4.0),
                 Outcome(INDET, 5000.0), Outcome(SAT, 1.0), Outcome(SAT, 1.0), Outcome(SAT, 1.0),
                 Outcome(SAT, 1.0), Outcome(SAT, 1.0)];
    AverageUpToFirstIndet(outs, 4, 10);
    var a, b, c, d := Outcome(SAT, 1.0), Outcome(UNSAT, 2.0), Outcome(SAT, 3.0), Outcome(SAT, 4.0);
    assert outs[..4] == [a, b, c, d];
    assert [a, b, c, d][..3] == [a, b, c];
    assert [a, b, c][..2] == [a, b];
    assert [a, b][..1] == [a];
    assert [a][..0] == [];
    assert RuntimeSum([a]) == 1.0;
    assert RuntimeSum([a, b]) == 3.0;
    assert RuntimeSum([a, b, c]) == 6.0;
    assert RuntimeSum([a, b, c, d]) == 10.0;
  }

  /** What `process_decomp_set` computes, or the failure it stops with. */
  function Evaluate(baseName: string, dset: seq<nat>, iterNum: nat, fs: map<string, seq<string>>,
                    sample: seq<string>, oracle: seq<string> -> Outcome): Result<real, Failure>
    requires iterNum <= 32 && |sample| > 0
    requires forall k :: 0 <= k < |sample| ==> |sample[k]| == |dset|
  {
    match StagedCnfName(baseName, iterNum)
    case Err(e) => Err(e)
    case Ok(name) =>
      if name !in fs then Err(NoSuchFile)
      else
        match ReadCnf(fs[name], dset)
        case Err(e) => Err(e)
        case Ok(cnf) => Ok(AverageRuntime(Outcomes(cnf, dset, sample, oracle), |sample|))
  }

  /**
   * `process_decomp_set`: stages the CNF name, reads the staged CNF, and runs
   * the solver on the working CNF of each bit string of the sample in turn,
   * stopping at the first INDET verdict; returns the average runtime.
   */
  method ProcessDecompSet(baseName: string, dset: seq<nat>, iterNum: nat, fs: map<string, seq<string>>,
                          sample: seq<string>, oracle: seq<string> -> Outcome)
    returns (r: Result<real, Failure>)
    requires iterNum <= 32 && |sample| >= 3
    requires forall k :: 0 <= k < |sample| ==> |sample[k]| == |dset|
    ensures r == Evaluate(baseName, dset, iterNum, fs, sample, oracle)
  {
    var name := StagedCnfName(baseName, iterNum);
    if name.Err? {
      return Err(name.error);
    }
    if name.value !in fs {
      return Err(NoSuchFile);
    }
    var read := ReadStagedCnf(fs[name.value], dset);
    if read.Err? {
      return Err(read.error);
    }
    var avg := SampleAverage(read.value, dset, sample, oracle);
    r := Ok(avg);
  }

  /**
   * The loop of `process_decomp_set`: the solver runs on the working CNF of
   * each bit string in turn until the first INDET verdict; the runtimes of
   * the runs before it are summed and divided by the sample size.
   */
  method SampleAverage(cnf: Cnf, dset: seq<nat>, sample: seq<string>, oracle: seq<string> -> Outcome)
    returns (avg: real)
    requires |sample| > 0
    requires forall k :: 0 <= k < |sample| ==> |sample[k]| == |dset|
    ensures avg == AverageRuntime(Outcomes(cnf, dset, sample, oracle), |sample|)
  {
    ghost var outs := Outcomes(cnf, dset, sample, oracle);
    var sumRuntime: real := 0.0;
    var k := 0;
    while k < |sample|
      invariant 0 <= k <= |sample|
      invariant forall j :: 0 <= j < k ==> outs[j].verdict != INDET
      invariant sumRuntime == RuntimeSum(outs[..k])
    {
      var units := UnitClauses(dset, sample[k]);
      assert units == UnitClauseList(dset, sample[k]);
      var lines := WriteClausesCnf(cnf.varNum, cnf.mainClauses, units);
      assert lines == SubInstance(cnf, dset, sample[k]);
      var outcome := oracle(lines);
      assert outcome == outs[k];
      if outcome.verdict == INDET {
        break;
      }
      assert outs[..k + 1][..k] == outs[..k];
      sumRuntime := sumRuntime + outcome.runtime;
      k := k + 1;
    }
    DecisivePrefixIs(outs, k);
    avg := sumRuntime / |sample| as real;
  }
}
