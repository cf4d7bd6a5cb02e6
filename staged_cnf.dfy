/**
 * The first half of `process_decomp_set` in find_decomp_set.py: the name of
 * the CNF staged for an iteration, and the reading of that CNF into its
 * variable count and its main clauses, the unit clauses over the
 * decomposition set being taken out and counted.
 */
module StagedCnf {
  import opened Wrappers
  import opened Text
  import opened Failures

  /** The suffix that ends every staged CNF name. */
  const Suffix := "bitM.cnf"

  // ---------------------------------------------------------------------------
  // The staged name
  // ---------------------------------------------------------------------------

  /**
   * The name of the CNF staged for iteration `iterNum`: in the part of
   * `baseName` before `bitM.cnf`, everything up to and including the last '_'
   * is kept, and the number of the iteration and `bitM.cnf` follow it. That
   * '_' must stand after position 0.
   */
  function StagedCnfName(baseName: string, iterNum: nat): (r: Result<string, Failure>)
    requires iterNum <= 32
    ensures r.Ok? <==>
      exists k :: 0 < k < |BeforeFirst(baseName, Suffix)| && BeforeFirst(baseName, Suffix)[k] == '_'
  {
    var s := BeforeFirst(baseName, Suffix);
    match LastIndexOf(s, '_')
    case None => Err(BadStagedName)
    case Some(ind) =>
      if ind > 0 then Ok(s[..ind + 1] + NatToString(iterNum) + Suffix) else Err(BadStagedName)
  }

  /**
   * A name of the staged shape `<prefix>_<digits>bitM.cnf` is restaged by
   * replacing its digits with the iteration number.
   */
  lemma StagedNameOfShape(prefix: string, digits: string, iterNum: nat)
    requires iterNum <= 32
    requires prefix != [] && AllDigits(digits)
    requires forall k :: !OccursAt(prefix, Suffix, k)
    ensures StagedCnfName(prefix + "_" + digits + Suffix, iterNum)
         == Ok(prefix + "_" + NatToString(iterNum) + Suffix)
  {
    var name := prefix + "_" + digits + Suffix;
    var q := |prefix| + 1 + |digits|;
    assert name[q..q + |Suffix|] == Suffix;
    assert OccursAt(name, Suffix, q);
    forall k | 0 <= k < q ensures !OccursAt(name, Suffix, k) {
      if k + |Suffix| <= |prefix| {
        assert name[k..k + |Suffix|] == prefix[k..k + |Suffix|];
        assert !OccursAt(prefix, Suffix, k);
      } else if k <= |prefix| {
        assert name[|prefix|] == '_';
        assert Suffix[|prefix| - k] != '_';
      } else {
        assert name[k] == digits[k - |prefix| - 1];
        assert IsDigit(name[k]);
        assert Suffix[0] == 'b';
      }
    }
    var s := BeforeFirst(name, Suffix);
    assert s == prefix + "_" + digits;
    assert s[|prefix|] == '_';
    assert forall j :: |prefix| < j < |s| ==> s[j] != '_' by {
      forall j | |prefix| < j < |s| ensures s[j] != '_' {
        assert s[j] == digits[j - |prefix| - 1];
      }
    }
    assert LastIndexOf(s, '_') == Some(|prefix|);
    assert s[..|prefix| + 1] == prefix + "_";
  }

  /** Restaging a staged name for another iteration is staging the original for it. */
  lemma RestagingIsStaging(baseName: string, i: nat, j: nat)
    requires i <= 32 && j <= 32
    requires StagedCnfName(baseName, i).Ok?
    ensures StagedCnfName(StagedCnfName(baseName, i).value, j) == StagedCnfName(baseName, j)
  {
    var s := BeforeFirst(baseName, Suffix);
    var ind := LastIndexOf(s, '_').value;
    var prefix := s[..ind];
    assert s[..ind + 1] == prefix + "_";
    forall k ensures !OccursAt(prefix, Suffix, k) {
      if OccursAt(prefix, Suffix, k) {
        assert baseName[k..k + |Suffix|] == prefix[k..k + |Suffix|];
        assert OccursAt(baseName, Suffix, k);
        assert false;
      }
    }
    StagedNameOfShape(prefix, NatToString(i), j);
    assert StagedCnfName(baseName, i).value == prefix + "_" + NatToString(i) + Suffix;
  }

  // ---------------------------------------------------------------------------
  // Reading the staged CNF
  // ---------------------------------------------------------------------------

  /** What a line of the staged CNF is to the reader. */
  datatype LineKind =
    | Comment              // starts with 'c'
    | Problem(varNum: int) // starts with 'p'; the integer in its third field
    | DecompUnit           // a unit clause over a decomposition-set variable
    | MainClause           // any other clause

  function Abs(x: int): nat {
    if x < 0 then -x else x
  }

  /** How the reader treats one line, or why it stops on it. */
  function ClassifyLine(line: string, dset: seq<nat>): Result<LineKind, Failure> {
    if line == [] then Err(EmptyLine)
    else if line[0] == 'c' then Ok(Comment)
    else if line[0] == 'p' then
      var ws := Words(line);
      if |ws| < 3 then Err(MalformedHeader)
      else match PyInt(ws[2])
        case None => Err(MalformedHeader)
        case Some(v) => Ok(Problem(v))
    else
      var ws := Words(line);
      if ws == [] then Err(BlankClause)
      else if ws[|ws| - 1] != "0" then Err(MissingTerminator)
      else if |ws| == 2 then
        match PyInt(ws[0])
        case None => Err(MalformedLiteral)
        case Some(lit) => if Abs(lit) in dset then Ok(DecompUnit) else Ok(MainClause)
      else Ok(MainClause)
  }

  /** The reader's running state: the variable count so far (-1 before any 'p' line), the main clauses, the unit count. */
  datatype ScanState = ScanState(varNum: int, mainClauses: seq<string>, unitCount: nat)

  /** The reader's state after one more line. */
  function Step(st: ScanState, line: string, dset: seq<nat>): Result<ScanState, Failure> {
    match ClassifyLine(line, dset)
    case Err(e) => Err(e)
    case Ok(Comment) => Ok(st)
    case Ok(Problem(v)) => Ok(st.(varNum := v))
    case Ok(DecompUnit) => Ok(st.(unitCount := st.unitCount + 1))
    case Ok(MainClause) => Ok(st.(mainClauses := st.mainClauses + [line]))
  }

  /** The reader's state after the lines, read first to last. */
  function Scan(lines: seq<string>, dset: seq<nat>): Result<ScanState, Failure> {
    if lines == [] then Ok(ScanState(-1, [], 0))
    else
      match Scan(lines[..|lines| - 1], dset)
      case Err(e) => Err(e)
      case Ok(st) => Step(st, lines[|lines| - 1], dset)
  }

  /** Once the reader has stopped on a line, the lines after it change nothing. */
  lemma {:induction false} ScanStaysFailed(lines: seq<string>, dset: seq<nat>, j: nat)
    requires j <= |lines| && Scan(lines[..j], dset).Err?
    ensures Scan(lines, dset) == Scan(lines[..j], dset)
    decreases |lines| - j
  {
    if j < |lines| {
      assert lines[..j + 1][..j] == lines[..j];
      ScanStaysFailed(lines, dset, j + 1);
    } else {
      assert lines[..j] == lines;
    }
  }

  /** A staged CNF as the search uses it. */
  datatype Cnf = Cnf(varNum: nat, mainClauses: seq<string>)

  /** The reading of the staged CNF, with its closing integrity checks. */
  function ReadCnf(lines: seq<string>, dset: seq<nat>): Result<Cnf, Failure> {
    if |lines| <= 2 then Err(TooFewLines)
    else
      match Scan(lines, dset)
      case Err(e) => Err(e)
      case Ok(st) =>
        if st.unitCount != |dset| then Err(UnitCountMismatch)
        else if st.varNum <= 0 then Err(NonPositiveVarNum)
        else Ok(Cnf(st.varNum, st.mainClauses))
  }

  /**
   * The reading loop of `process_decomp_set`: comment lines are skipped, a 'p'
   * line sets the variable count, a two-word unit clause over a
   * decomposition-set variable is counted and dropped, every other clause is
   * kept in order.
   */
  method ReadStagedCnf(lines: seq<string>, dset: seq<nat>) returns (r: Result<Cnf, Failure>)
    ensures r == ReadCnf(lines, dset)
  {
    if |lines| <= 2 {
      return Err(TooFewLines);
    }
    var st := ScanState(-1, [], 0);
    for k := 0 to |lines|
      invariant Scan(lines[..k], dset) == Ok(st)
    {
      assert lines[..k + 1][..k] == lines[..k];
      var next := ReadLine(st, lines[k], dset);
      if next.Err? {
        ScanStaysFailed(lines, dset, k + 1);
        return Err(next.error);
      }
      st := next.value;
    }
    assert lines[..|lines|] == lines;
    if st.unitCount != |dset| {
      return Err(UnitCountMismatch);
    }
    if st.varNum <= 0 {
      return Err(NonPositiveVarNum);
    }
    r := Ok(Cnf(st.varNum, st.mainClauses));
  }

  /**
   * The body of the reading loop, for one line, statement by statement as the
   * script runs it: a comment is skipped, a 'p' line sets the variable count,
   * a two-word unit clause over a decomposition-set variable is counted, any
   * other clause is kept. `ClassifyLine` and `Step` are its specification,
   * the form the reference lemmas below reason about.
   */
  method ReadLine(st: ScanState, line: string, dset: seq<nat>) returns (r: Result<ScanState, Failure>)
    ensures r == Step(st, line, dset)
  {
    if line == [] {
      return Err(EmptyLine);
    }
    if line[0] == 'c' {
      return Ok(st);
    }
    if line[0] == 'p' {
      var fields := Words(line);
      if |fields| < 3 {
        return Err(MalformedHeader);
      }
      var v := PyInt(fields[2]);
      if v.None? {
        return Err(MalformedHeader);
      }
      return Ok(st.(varNum := v.value));
    }
    var words := Words(line);
    if words == [] {
      return Err(BlankClause);
    }
    if words[|words| - 1] != "0" {
      return Err(MissingTerminator);
    }
    if |words| == 2 {
      var lit := PyInt(words[0]);
      if lit.None? {
        return Err(MalformedLiteral);
      }
      if Abs(lit.value) in dset {
        return Ok(st.(unitCount := st.unitCount + 1));
      }
    }
    return Ok(st.(mainClauses := st.mainClauses + [line]));
  }

  // ---------------------------------------------------------------------------
  // The same reading, stated line by line from the first line on
  // ---------------------------------------------------------------------------

  /** Every line is one the reader accepts. */
  predicate WellFormedLines(lines: seq<string>, dset: seq<nat>) {
    forall k :: 0 <= k < |lines| ==> ClassifyLine(lines[k], dset).Ok?
  }

  /** The lines that are main clauses, in their order. */
  function MainClauses(lines: seq<string>, dset: seq<nat>): seq<string> {
    if lines == [] then []
    else (if ClassifyLine(lines[0], dset) == Ok(MainClause) then [lines[0]] else []) + MainClauses(lines[1..], dset)
  }

  /** The number of unit clauses over decomposition-set variables. */
  function DecompUnitCount(lines: seq<string>, dset: seq<nat>): nat {
    if lines == [] then 0
    else (if ClassifyLine(lines[0], dset) == Ok(DecompUnit) then 1 else 0) + DecompUnitCount(lines[1..], dset)
  }

  /** The variable count declared by the last 'p' line, if there is one. */
  function LastVarNum(lines: seq<string>, dset: seq<nat>): Option<int> {
    if lines == [] then None
    else
      match LastVarNum(lines[1..], dset)
      case Some(v) => Some(v)
      case None =>
        match ClassifyLine(lines[0], dset)
        case Ok(Problem(v)) => Some(v)
        case _ => None
  }

  function OrMinusOne(v: Option<int>): int {
    match v
    case Some(n) => n
    case None => -1
  }

  /** The reference reading of two blocks of lines is the readings of the blocks, combined. */
  lemma ReferenceAppend(a: seq<string>, b: seq<string>, dset: seq<nat>)
    ensures MainClauses(a + b, dset) == MainClauses(a, dset) + MainClauses(b, dset)
    ensures DecompUnitCount(a + b, dset) == DecompUnitCount(a, dset) + DecompUnitCount(b, dset)
    ensures LastVarNum(a + b, dset) == if LastVarNum(b, dset).Some? then LastVarNum(b, dset) else LastVarNum(a, dset)
  {
    MainClausesAppend(a, b, dset);
    DecompUnitCountAppend(a, b, dset);
    LastVarNumAppend(a, b, dset);
  }

  lemma {:induction false} MainClausesAppend(a: seq<string>, b: seq<string>, dset: seq<nat>)
    ensures MainClauses(a + b, dset) == MainClauses(a, dset) + MainClauses(b, dset)
  {
    if a == [] {
      assert a + b == b;
    } else {
      assert (a + b)[1..] == a[1..] + b;
      MainClausesAppend(a[1..], b, dset);
    }
  }

  lemma {:induction false} DecompUnitCountAppend(a: seq<string>, b: seq<string>, dset: seq<nat>)
    ensures DecompUnitCount(a + b, dset) == DecompUnitCount(a, dset) + DecompUnitCount(b, dset)
  {
    if a == [] {
      assert a + b == b;
    } else {
      assert (a + b)[1..] == a[1..] + b;
      DecompUnitCountAppend(a[1..], b, dset);
    }
  }

  lemma {:induction false} LastVarNumAppend(a: seq<string>, b: seq<string>, dset: seq<nat>)
    ensures LastVarNum(a + b, dset) == if LastVarNum(b, dset).Some? then LastVarNum(b, dset) else LastVarNum(a, dset)
  {
    if a == [] {
      assert a + b == b;
    } else {
      assert (a + b)[1..] == a[1..] + b;
      LastVarNumAppend(a[1..], b, dset);
    }
  }

  lemma WellFormedAppend(a: seq<string>, b: seq<string>, dset: seq<nat>)
    ensures WellFormedLines(a + b, dset) <==> WellFormedLines(a, dset) && WellFormedLines(b, dset)
  {
    if WellFormedLines(a, dset) && WellFormedLines(b, dset) {
      forall k | 0 <= k < |a + b| ensures ClassifyLine((a + b)[k], dset).Ok? {
        if k < |a| {
          assert (a + b)[k] == a[k];
        } else {
          assert (a + b)[k] == b[k - |a|];
        }
      }
    }
    if WellFormedLines(a + b, dset) {
      forall k | 0 <= k < |b| ensures ClassifyLine(b[k], dset).Ok? {
        assert (a + b)[|a| + k] == b[k];
      }
      forall k | 0 <= k < |a| ensures ClassifyLine(a[k], dset).Ok? {
        assert (a + b)[k] == a[k];
      }
    }
  }

  /**
   * The reader, read last line last, agrees with the reference: it succeeds
   * exactly on well-formed lines, stops with the error of the first line it
   * rejects, and otherwise holds the last declared variable count, the main
   * clauses in order and the number of decomposition-set unit clauses.
   */
  lemma {:induction false} ScanMatchesReference(lines: seq<string>, dset: seq<nat>)
    ensures Scan(lines, dset).Ok? <==> WellFormedLines(lines, dset)
    ensures Scan(lines, dset).Ok? ==>
      Scan(lines, dset).value ==
        ScanState(OrMinusOne(LastVarNum(lines, dset)), MainClauses(lines, dset), DecompUnitCount(lines, dset))
    ensures Scan(lines, dset).Err? ==>
      exists k :: 0 <= k < |lines| && ClassifyLine(lines[k], dset) == Err(Scan(lines, dset).error) &&
        WellFormedLines(lines[..k], dset)
  {
    if lines != [] {
      var init, x := lines[..|lines| - 1], lines[|lines| - 1];
      assert lines == init + [x];
      ScanMatchesReference(init, dset);
      ReferenceAppend(init, [x], dset);
      assert [x][1..] == [];
      if Scan(init, dset).Err? {
        var k :| 0 <= k < |init| && ClassifyLine(init[k], dset) == Err(Scan(init, dset).error) &&
          WellFormedLines(init[..k], dset);
        assert lines[k] == init[k] && lines[..k] == init[..k];
      } else if ClassifyLine(x, dset).Err? {
        assert lines[..|lines| - 1] == init;
      }
    }
  }

  /**
   * What `ReadCnf` delivers: it succeeds exactly when there are more than two
   * lines, every line is accepted, the decomposition-set unit clauses number
   * `|dset|` and the last 'p' line declares a positive variable count; the
   * result holds that count and the main clauses in order.
   */
  lemma ReadCnfMeaning(lines: seq<string>, dset: seq<nat>)
    ensures ReadCnf(lines, dset).Ok? <==>
      |lines| > 2 && WellFormedLines(lines, dset) && DecompUnitCount(lines, dset) == |dset| &&
      LastVarNum(lines, dset).Some? && LastVarNum(lines, dset).value > 0
    ensures ReadCnf(lines, dset).Ok? ==>
      ReadCnf(lines, dset).value == Cnf(LastVarNum(lines, dset).value, MainClauses(lines, dset))
  {
    ScanMatchesReference(lines, dset);
  }

  /**
   * The main clauses are exactly the kept lines: each is a line of the input
   * that is no comment and no 'p' line, whose last word is `0`, and that is
   * not a two-word unit clause over a decomposition-set variable.
   */
  lemma {:induction false} MainClausesAreKeptLines(lines: seq<string>, dset: seq<nat>)
    ensures |MainClauses(lines, dset)| <= |lines|
    ensures forall l :: l in MainClauses(lines, dset) <==> l in lines && ClassifyLine(l, dset) == Ok(MainClause)
    ensures forall l :: l in MainClauses(lines, dset) ==>
      l != [] && l[0] != 'c' && l[0] != 'p' &&
      Words(l) != [] && Words(l)[|Words(l)| - 1] == "0" &&
      !(|Words(l)| == 2 && PyInt(Words(l)[0]).Some? && Abs(PyInt(Words(l)[0]).value) in dset)
  {
    if lines != [] {
      MainClausesAreKeptLines(lines[1..], dset);
      assert lines == [lines[0]] + lines[1..];
    }
  }
}
