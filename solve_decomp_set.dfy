/**
 * gen_decomp_set_icnfs/solve_decomp_set.cpp: for a CNF and a decomposition
 * set, writes one incremental CNF (`.icnf`) per assignment of the set's first
 * 14 variables; each holds the CNF's clauses, the 14 unit clauses of that
 * assignment, and one cube per assignment of the remaining variables.
 */
module SolveDecompSet {
  import opened Wrappers
  import opened Text
  import opened Bits
  import opened Literals
  import opened Failures
  import opened SolveInputs

  /** The number of leading decomposition-set variables fixed per task. */
  const TaskVarNum: nat := 14

  /**
   * The decomposition set can be split into the 14 task variables and the
   * `|dset| - 14` cube variables, with fewer than 32 cube variables (the cube
   * count `2^m` must fit an `unsigned`, and `std::bitset<32>` holds the index).
   */
  predicate Splittable(dset: seq<nat>) {
    TaskVarNum <= |dset| < TaskVarNum + 32
  }

  /** The number of cube variables, `increm_var_num`. */
  function CubeVarNum(dset: seq<nat>): nat
    requires Splittable(dset)
  {
    |dset| - TaskVarNum
  }

  // ---------------------------------------------------------------------------
  // Sign patterns
  // ---------------------------------------------------------------------------

  /** The literals of `vars` signed by `pattern`: variable `j` is negated when `pattern[j]` is not '1'. */
  function SignedLiterals(vars: seq<nat>, pattern: string): (lits: seq<string>)
    requires |pattern| <= |vars|
    ensures |lits| == |pattern|
  {
    seq(|pattern|, j requires 0 <= j < |pattern| => Literal(pattern[j] == '1', vars[j]))
  }

  /** The unit clauses of `vars` signed by `pattern`. */
  function SignedUnits(vars: seq<nat>, pattern: string): (units: seq<string>)
    requires |pattern| <= |vars|
    ensures |units| == |pattern|
  {
    seq(|pattern|, j requires 0 <= j < |pattern| => UnitClause(pattern[j] == '1', vars[j]))
  }

  lemma SignedLiteralsAreWords(vars: seq<nat>, pattern: string)
    requires |pattern| <= |vars|
    ensures forall k :: 0 <= k < |pattern| ==> SignedLiterals(vars, pattern)[k] != [] && NoSpace(SignedLiterals(vars, pattern)[k])
  {
    var lits := SignedLiterals(vars, pattern);
    forall k | 0 <= k < |pattern| ensures lits[k] != [] && NoSpace(lits[k]) {
      assert lits[k] == Literal(pattern[k] == '1', vars[k]);
    }
  }

  /** Two bit strings of one length that differ differ at some position. */
  lemma DifferAt(p: string, q: string) returns (j: nat)
    requires |p| == |q| && p != q
    ensures j < |p| && p[j] != q[j]
  {
    j :| 0 <= j < |p| && p[j] != q[j];
  }

  /** Distinct bit strings sign the variables differently. */
  lemma SignedLiteralsDiffer(vars: seq<nat>, p: string, q: string)
    requires |p| == |q| <= |vars| && IsBitString(p) && IsBitString(q) && p != q
    ensures SignedLiterals(vars, p) != SignedLiterals(vars, q)
  {
    var j := DifferAt(p, q);
    assert (p[j] == '1') != (q[j] == '1');
    assert SignedLiterals(vars, p)[j] == Literal(p[j] == '1', vars[j]);
    assert SignedLiterals(vars, q)[j] == Literal(q[j] == '1', vars[j]);
  }

  /** Distinct bit strings give distinct unit clauses. */
  lemma SignedUnitsDiffer(vars: seq<nat>, p: string, q: string)
    requires |p| == |q| <= |vars| && IsBitString(p) && IsBitString(q) && p != q
    ensures SignedUnits(vars, p) != SignedUnits(vars, q)
  {
    var j := DifferAt(p, q);
    assert (p[j] == '1') != (q[j] == '1');
    var a, b := SignedUnits(vars, p)[j], SignedUnits(vars, q)[j];
    assert a == UnitClause(p[j] == '1', vars[j]) && b == UnitClause(q[j] == '1', vars[j]);
    assert Words(a)[0] == Literal(p[j] == '1', vars[j]);
    assert Words(b)[0] == Literal(q[j] == '1', vars[j]);
  }

  // ---------------------------------------------------------------------------
  // Cubes
  // ---------------------------------------------------------------------------

  /** The literals of cube `i`: the cube variables signed by the `m`-digit numeral of `i`. */
  function CubeLiterals(dset: seq<nat>, i: nat): (lits: seq<string>)
    requires Splittable(dset)
    ensures |lits| == CubeVarNum(dset)
  {
    var m := CubeVarNum(dset);
    BinaryBELength(i, m);
    SignedLiterals(dset[TaskVarNum..], BinaryBE(i, m))
  }

  /** The cube line `a <literals> 0`. */
  function CubeLine(lits: seq<string>): string {
    "a " + Spaced(lits) + "0"
  }

  /** The cube line of index `i`. */
  function Cube(dset: seq<nat>, i: nat): string
    requires Splittable(dset) && i < Pow2(CubeVarNum(dset))
  {
    CubeLine(CubeLiterals(dset, i))
  }

  /** All cubes, in increasing order of their index. */
  function AllCubes(dset: seq<nat>): (cubes: seq<string>)
    requires Splittable(dset)
    ensures |cubes| == Pow2(CubeVarNum(dset))
  {
    seq(Pow2(CubeVarNum(dset)), i requires 0 <= i < Pow2(CubeVarNum(dset)) => Cube(dset, i))
  }

  /**
   * The cube lines, one per index below `2^m`: the bit string of the index
   * decides, position by position, the sign of each cube variable.
   */
  method BuildCubes(dset: seq<nat>) returns (cubes: seq<string>)
    requires Splittable(dset)
    ensures cubes == AllCubes(dset)
  {
    var m := CubeVarNum(dset);
    var cubeVars := dset[TaskVarNum..];
    ghost var all := AllCubes(dset);
    cubes := [];
    var i := 0;
    while i < Pow2(m)
      invariant i <= Pow2(m)
      invariant cubes == all[..i]
    {
      CubeFromBitset(dset, i);
      var str := LowBitString(i, m);
      var s := BuildCube(cubeVars, str);
      PrefixStep(all, i, s);
      cubes := cubes + [s];
      i := i + 1;
    }
    assert all[..Pow2(m)] == all;
  }

  /** Extending the prefix `a[..i]` by the element at `i`. */
  lemma PrefixStep<T>(a: seq<T>, i: nat, x: T)
    requires i < |a| && a[i] == x
    ensures a[..i + 1] == a[..i] + [x]
  {
  }

  /**
   * Every cube index fits the `unsigned` loop counter, and the line the loop
   * builds from the bitset string of `i` is cube `i`.
   */
  lemma CubeFromBitset(dset: seq<nat>, i: nat)
    requires Splittable(dset) && i < Pow2(CubeVarNum(dset))
    ensures i < Pow2(32)
    ensures CubeLine(SignedLiterals(dset[TaskVarNum..], LowBitString(i, CubeVarNum(dset)))) == AllCubes(dset)[i]
  {
    Pow2Monotone(CubeVarNum(dset), 32);
    LowBitStringIsBinary(i, CubeVarNum(dset));
  }

  /** One cube line: `a `, then `<sign><variable> ` per character of the bit string, then `0`. */
  method BuildCube(vars: seq<nat>, str: string) returns (s: string)
    requires |str| <= |vars|
    ensures s == CubeLine(SignedLiterals(vars, str))
  {
    ghost var lits := SignedLiterals(vars, str);
    var body := "";
    for j := 0 to |str|
      invariant body == Spaced(lits[..j])
    {
      var piece := (if str[j] == '1' then "" else "-") + NatToString(vars[j]);
      assert piece == lits[j];
      SpacedStep(lits, j);
      body := body + piece + " ";
    }
    assert lits[..|str|] == lits;
    s := "a " + body + "0";
  }

  /** The sign of literal `j` of cube `i` is bit `m - 1 - j` of `i`: the bit string is big-endian. */
  lemma CubeSigns(dset: seq<nat>, i: nat, j: nat)
    requires Splittable(dset) && i < Pow2(CubeVarNum(dset)) && j < CubeVarNum(dset)
    ensures CubeLiterals(dset, i)[j] == Literal(TestBit(i, CubeVarNum(dset) - 1 - j), dset[TaskVarNum + j])
  {
    var m := CubeVarNum(dset);
    BinaryBEAt(i, m, j);
    var str, b := BinaryBE(i, m), TestBit(i, m - 1 - j);
    assert (str[j] == '1') == b;
    assert dset[TaskVarNum..][j] == dset[TaskVarNum + j];
    assert CubeLiterals(dset, i)[j] == SignedLiterals(dset[TaskVarNum..], str)[j];
  }

  /** A cube line reads back as `a`, its literals in order, and `0`. */
  lemma CubeLineWords(lits: seq<string>)
    requires forall k :: 0 <= k < |lits| ==> lits[k] != [] && NoSpace(lits[k])
    ensures Words(CubeLine(lits)) == ["a"] + lits + ["0"]
  {
    WordsOfSpaced(lits, "0");
    assert CubeLine(lits) == "a" + [' '] + (Spaced(lits) + "0");
    WordsCons("a", ' ', Spaced(lits) + "0");
  }

  /** Distinct literal sequences give distinct cube lines. */
  lemma CubeLinesDiffer(l1: seq<string>, l2: seq<string>)
    requires forall k :: 0 <= k < |l1| ==> l1[k] != [] && NoSpace(l1[k])
    requires forall k :: 0 <= k < |l2| ==> l2[k] != [] && NoSpace(l2[k])
    requires l1 != l2
    ensures CubeLine(l1) != CubeLine(l2)
  {
    CubeLineWords(l1);
    CubeLineWords(l2);
    assert l1 == (["a"] + l1 + ["0"])[1..|l1| + 1];
    assert l2 == (["a"] + l2 + ["0"])[1..|l2| + 1];
  }

  /** Distinct indices give distinct cubes. */
  lemma CubesDiffer(dset: seq<nat>, i: nat, k: nat)
    requires Splittable(dset) && i < Pow2(CubeVarNum(dset)) && k < Pow2(CubeVarNum(dset)) && i != k
    ensures Cube(dset, i) != Cube(dset, k)
  {
    var m, cubeVars := CubeVarNum(dset), dset[TaskVarNum..];
    BinaryBELength(i, m);
    BinaryBELength(k, m);
    BinaryBEInjective(i, k, m);
    var si, sk := BinaryBE(i, m), BinaryBE(k, m);
    SignedLiteralsDiffer(cubeVars, si, sk);
    SignedLiteralsAreWords(cubeVars, si);
    SignedLiteralsAreWords(cubeVars, sk);
    CubeLinesDiffer(SignedLiterals(cubeVars, si), SignedLiterals(cubeVars, sk));
  }

  /** Every sign pattern over the cube variables is the pattern of exactly one cube index. */
  lemma CubesCoverAll(dset: seq<nat>, bits: string)
    requires Splittable(dset) && |bits| == CubeVarNum(dset) && IsBitString(bits)
    ensures exists i :: 0 <= i < Pow2(CubeVarNum(dset)) && CubeHasSigns(dset, i, bits)
  {
    BitsValueRoundTrip(bits);
    var i := BitsValue(bits);
    assert CubeLiterals(dset, i) == SignedLiterals(dset[TaskVarNum..], bits);
    assert CubeHasSigns(dset, i, bits);
  }

  /** Cube `i` gives cube variable `j` the sign `bits[j]` stands for ('1' for positive). */
  predicate CubeHasSigns(dset: seq<nat>, i: nat, bits: string)
    requires Splittable(dset) && i < Pow2(CubeVarNum(dset)) && |bits| == CubeVarNum(dset)
  {
    forall j :: 0 <= j < |bits| ==> CubeLiterals(dset, i)[j] == Literal(bits[j] == '1', dset[TaskVarNum + j])
  }

  // ---------------------------------------------------------------------------
  // The unit clauses of a task
  // ---------------------------------------------------------------------------

  /** The unit clauses fixing the first `n` variables of `vars` as the `n`-digit bit string of `i` says. */
  function FixingUnits(vars: seq<nat>, i: nat, n: nat): (units: seq<string>)
    requires n <= |vars|
    ensures |units| == n
  {
    BinaryBELength(i, n);
    SignedUnits(vars, BinaryBE(i, n))
  }

  /** The 14 unit clauses of task `i`. */
  function TaskUnits(dset: seq<nat>, i: nat): (units: seq<string>)
    requires TaskVarNum <= |dset| && i < Pow2(TaskVarNum)
    ensures |units| == TaskVarNum
  {
    FixingUnits(dset, i, TaskVarNum)
  }

  /** The unit clauses signed by a bit string, built character by character. */
  method BuildUnits(vars: seq<nat>, str: string) returns (units: seq<string>)
    requires |str| <= |vars|
    ensures units == SignedUnits(vars, str)
  {
    ghost var want := SignedUnits(vars, str);
    units := [];
    for j := 0 to |str|
      invariant units == want[..j]
    {
      var lit := (if str[j] == '1' then "" else "-") + NatToString(vars[j]);
      var clause := lit + " 0";
      UnitClauseText(str[j] == '1', vars[j]);
      assert want[j] == UnitClause(str[j] == '1', vars[j]);
      PrefixStep(want, j, clause);
      units := units + [clause];
    }
    assert want[..|str|] == want;
  }

  /** Unit clause `j` asserts variable `j` positively exactly when bit `n - 1 - j` of `i` is set. */
  lemma FixingUnitSigns(vars: seq<nat>, i: nat, n: nat, j: nat)
    requires n <= |vars| && j < n
    ensures FixingUnits(vars, i, n)[j] == UnitClause(TestBit(i, n - 1 - j), vars[j])
  {
    BinaryBEAt(i, n, j);
    assert FixingUnits(vars, i, n)[j] == UnitClause(BinaryBE(i, n)[j] == '1', vars[j]);
  }

  /**
   * `FixingUnitSigns` for the 14 task variables: unit clause `j` of task `i`
   * fixes `dset[j]`, positively exactly when bit `13 - j` of `i` is set.
   */
  lemma TaskUnitSigns(dset: seq<nat>, i: nat, j: nat)
    requires TaskVarNum <= |dset| && i < Pow2(TaskVarNum) && j < TaskVarNum
    ensures TaskUnits(dset, i)[j] == UnitClause(TestBit(i, TaskVarNum - 1 - j), dset[j])
  {
    FixingUnitSigns(dset, i, TaskVarNum, j);
  }

  /** Distinct indices fix the variables differently. */
  lemma FixingUnitsDiffer(vars: seq<nat>, i: nat, k: nat, n: nat)
    requires n <= |vars| && i < Pow2(n) && k < Pow2(n) && i != k
    ensures FixingUnits(vars, i, n) != FixingUnits(vars, k, n)
  {
    BinaryBELength(i, n);
    BinaryBELength(k, n);
    BinaryBEInjective(i, k, n);
    SignedUnitsDiffer(vars, BinaryBE(i, n), BinaryBE(k, n));
  }

  /** Every sign pattern over the first `n` variables is the pattern of some index below `2^n`. */
  lemma FixingUnitsCoverAll(vars: seq<nat>, bits: string)
    requires |bits| <= |vars| && IsBitString(bits)
    ensures exists i :: 0 <= i < Pow2(|bits|) && FixesAs(vars, i, bits)
  {
    BitsValueRoundTrip(bits);
    var i := BitsValue(bits);
    assert FixingUnits(vars, i, |bits|) == SignedUnits(vars, bits);
    assert FixesAs(vars, i, bits);
  }

  /** The units of index `i` give variable `j` the sign `bits[j]` stands for ('1' for positive). */
  predicate FixesAs(vars: seq<nat>, i: nat, bits: string)
    requires |bits| <= |vars|
  {
    forall j :: 0 <= j < |bits| ==> FixingUnits(vars, i, |bits|)[j] == UnitClause(bits[j] == '1', vars[j])
  }

  // ---------------------------------------------------------------------------
  // Task files
  // ---------------------------------------------------------------------------

  /**
   * `cnf_name` with its first "./" erased, and then its first ".cnf": six
   * characters fewer. A name lacking either makes `find` return `npos`, which
   * `erase` rejects by throwing.
   */
  function CleanedCnfName(name: string): (r: Result<string, SolveFailure>)
    ensures r.Ok? ==> |r.value| + 6 == |name|
  {
    match IndexOf(name, "./")
    case None => Err(NoDotSlash)
    case Some(p) =>
      var withoutDir := Erase(name, p, 2);
      match IndexOf(withoutDir, ".cnf")
      case None => Err(NoCnfSuffix)
      case Some(q) => Ok(Erase(withoutDir, q, 4))
  }

  /** The output file name of task `i`. */
  function TaskFileName(cleaned: string, i: nat): string {
    "task_" + NatToString(i) + "_" + cleaned + ".icnf"
  }

  /** The lines of a task file: the `p inccnf` header, the clauses, the task's unit clauses, the cubes. */
  function TaskContent(clauses: seq<string>, units: seq<string>, cubes: seq<string>): seq<string> {
    ["p inccnf"] + clauses + units + cubes
  }

  datatype TaskFile = TaskFile(name: string, lines: seq<string>)

  /** The file of task `i`. */
  function Task(cleaned: string, clauses: seq<string>, dset: seq<nat>, i: nat): TaskFile
    requires Splittable(dset) && i < Pow2(TaskVarNum)
  {
    TaskFile(TaskFileName(cleaned, i), TaskContent(clauses, TaskUnits(dset, i), AllCubes(dset)))
  }

  /**
   * What `solve` writes: one file per task index below `2^14`, in index
   * order, or the failure that stops it before the first file.
   */
  function Tasks(fs: map<string, seq<string>>, cnfName: string, dset: seq<nat>): (r: Result<seq<TaskFile>, SolveFailure>)
    requires Splittable(dset)
    ensures r.Ok? ==> |r.value| == Pow2(TaskVarNum)
  {
    match CnfClauses(fs, cnfName)
    case Err(e) => Err(e)
    case Ok(clauses) =>
      match CleanedCnfName(cnfName)
      case Err(e) => Err(e)
      case Ok(cleaned) =>
        Ok(AllTasks(cleaned, clauses, dset))
  }

  /** The task files, in index order, for a cleaned name and the CNF's clauses. */
  function AllTasks(cleaned: string, clauses: seq<string>, dset: seq<nat>): (files: seq<TaskFile>)
    requires Splittable(dset)
    ensures |files| == Pow2(TaskVarNum)
  {
    seq(Pow2(TaskVarNum), i requires 0 <= i < Pow2(TaskVarNum) => Task(cleaned, clauses, dset, i))
  }

  /**
   * Reads the CNF's clauses, builds the cubes, then for every task index
   * builds its unit clauses, its file name and its file's lines.
   */
  method Solve(fs: map<string, seq<string>>, cnfName: string, dset: seq<nat>) returns (r: Result<seq<TaskFile>, SolveFailure>)
    requires Splittable(dset)
    ensures r == Tasks(fs, cnfName, dset)
  {
    var read := ReadCnf(fs, cnfName);
    if read.Err? {
      return Err(read.error);
    }
    var clauses := read.value;
    var cubes := BuildCubes(dset);
    var cleaned := cnfName;
    var start := IndexOf(cleaned, "./");
    if start.None? {
      return Err(NoDotSlash);
    }
    cleaned := Erase(cleaned, start.value, 2);
    start := IndexOf(cleaned, ".cnf");
    if start.None? {
      return Err(NoCnfSuffix);
    }
    cleaned := Erase(cleaned, start.value, 4);
    assert CleanedCnfName(cnfName) == Ok(cleaned);
    ghost var all := AllTasks(cleaned, clauses, dset);
    var files := [];
    var i := 0;
    while i < Pow2(TaskVarNum)
      invariant i <= Pow2(TaskVarNum)
      invariant files == all[..i]
    {
      TaskFromBitset(cleaned, clauses, dset, i);
      var str := LowBitString(i, TaskVarNum);
      var units := BuildUnits(dset, str);
      var content := ["p inccnf"] + clauses + units + cubes;
      var file := TaskFile(TaskFileName(cleaned, i), content);
      PrefixStep(all, i, file);
      files := files + [file];
      i := i + 1;
    }
    assert files == all by {
      assert all[..Pow2(TaskVarNum)] == all;
    }
    assert CnfClauses(fs, cnfName) == Ok(clauses);
    assert Tasks(fs, cnfName, dset) == Ok(all);
    return Ok(files);
  }

  /**
   * `main` once its two arguments are read: the decomposition set from its
   * file, read as `read_decomp_set` is written, then `solve`, which reads
   * the CNF before it splits the set.
   */
  function Run(fs: map<string, seq<string>>, cnfName: string, dsetName: string): (r: Result<seq<TaskFile>, SolveFailure>)
    ensures DecompSetAsWritten(fs, dsetName).Err? ==> r == Err(DecompSetAsWritten(fs, dsetName).error)
    ensures DecompSetAsWritten(fs, dsetName).Ok? && CnfClauses(fs, cnfName).Err? ==> r == Err(CnfClauses(fs, cnfName).error)
    ensures DecompSetAsWritten(fs, dsetName).Ok? && CnfClauses(fs, cnfName).Ok? && !Splittable(DecompSetAsWritten(fs, dsetName).value) ==>
      r == Err(UnsupportedSize)
    ensures r.Ok? ==> DecompSetAsWritten(fs, dsetName).Ok? && Splittable(DecompSetAsWritten(fs, dsetName).value)
    ensures r.Ok? ==> r == Tasks(fs, cnfName, DecompSetAsWritten(fs, dsetName).value)
  {
    match DecompSetAsWritten(fs, dsetName)
    case Err(e) => Err(e)
    case Ok(dset) =>
      match CnfClauses(fs, cnfName)
      case Err(e) => Err(e)
      case Ok(_) =>
        if Splittable(dset) then Tasks(fs, cnfName, dset) else Err(UnsupportedSize)
  }

  /** `main` with the corrected reader, which checks that every variable is positive. */
  function RunChecked(fs: map<string, seq<string>>, cnfName: string, dsetName: string): (r: Result<seq<TaskFile>, SolveFailure>)
    ensures DecompSetFile(fs, dsetName).Err? ==> r == Err(DecompSetFile(fs, dsetName).error)
    ensures DecompSetFile(fs, dsetName).Ok? && CnfClauses(fs, cnfName).Err? ==> r == Err(CnfClauses(fs, cnfName).error)
    ensures DecompSetFile(fs, dsetName).Ok? && CnfClauses(fs, cnfName).Ok? && !Splittable(DecompSetFile(fs, dsetName).value) ==>
      r == Err(UnsupportedSize)
    ensures r.Ok? ==> DecompSetFile(fs, dsetName).Ok? && Splittable(DecompSetFile(fs, dsetName).value)
    ensures r.Ok? ==> r == Tasks(fs, cnfName, DecompSetFile(fs, dsetName).value)
  {
    match DecompSetFile(fs, dsetName)
    case Err(e) => Err(e)
    case Ok(dset) =>
      match CnfClauses(fs, cnfName)
      case Err(e) => Err(e)
      case Ok(_) =>
        if Splittable(dset) then Tasks(fs, cnfName, dset) else Err(UnsupportedSize)
  }

  /**
   * Line `1 + c + j` of every task file a run writes, `c` being the number of
   * clauses, is the unit clause fixing variable `j` of the set as it was read,
   * positively exactly when bit `13 - j` of the task index is set.
   */
  lemma RunFixesReadVariables(fs: map<string, seq<string>>, cnfName: string, dsetName: string, dset: seq<nat>, i: nat, j: nat)
    requires Run(fs, cnfName, dsetName).Ok? && DecompSetAsWritten(fs, dsetName) == Ok(dset)
    requires i < Pow2(TaskVarNum) && j < TaskVarNum
    ensures Splittable(dset) && CnfClauses(fs, cnfName).Ok?
    ensures var files, c := Run(fs, cnfName, dsetName).value, |CnfClauses(fs, cnfName).value|;
      i < |files| && 1 + c + j < |files[i].lines| &&
      files[i].lines[1 + c + j] == UnitClause(TestBit(i, TaskVarNum - 1 - j), dset[j])
  {
    assert Splittable(dset);
    TaskUnitLine(fs, cnfName, dset, i, j);
  }

  /**
   * With the checked reader, line `1 + c + j` of every task file fixes
   * variable `j` of the set, which is positive.
   */
  lemma RunFixesPositiveVariables(fs: map<string, seq<string>>, cnfName: string, dsetName: string, dset: seq<nat>, i: nat, j: nat)
    requires RunChecked(fs, cnfName, dsetName).Ok? && DecompSetFile(fs, dsetName) == Ok(dset)
    requires i < Pow2(TaskVarNum) && j < TaskVarNum
    ensures Splittable(dset) && CnfClauses(fs, cnfName).Ok?
    ensures var files, c := RunChecked(fs, cnfName, dsetName).value, |CnfClauses(fs, cnfName).value|;
      0 < dset[j] && i < |files| && 1 + c + j < |files[i].lines| &&
      files[i].lines[1 + c + j] == UnitClause(TestBit(i, TaskVarNum - 1 - j), dset[j])
  {
    assert Splittable(dset);
    DecompSetFileVariable(fs, dsetName, j);
    TaskUnitLine(fs, cnfName, dset, i, j);
  }

  /** On every set file the checked reader accepts, the program as written behaves as the checked run. */
  lemma RunsAgreeOnAcceptedSets(fs: map<string, seq<string>>, cnfName: string, dsetName: string)
    requires DecompSetFile(fs, dsetName).Ok?
    ensures Run(fs, cnfName, dsetName) == RunChecked(fs, cnfName, dsetName)
  {
    CorrectedReaderAgrees(fs, dsetName);
  }

  /** The file the loop builds from the bitset string of `i` is the file of task `i`. */
  lemma TaskFromBitset(cleaned: string, clauses: seq<string>, dset: seq<nat>, i: nat)
    requires Splittable(dset) && i < Pow2(TaskVarNum)
    ensures TaskFile(TaskFileName(cleaned, i), ["p inccnf"] + clauses + SignedUnits(dset, LowBitString(i, TaskVarNum)) + AllCubes(dset))
      == AllTasks(cleaned, clauses, dset)[i]
  {
    LowBitStringIsBinary(i, TaskVarNum);
  }

  /** For the usual `./<base>.cnf`, where `<base>` holds no ".cnf", the cleaned name is `<base>`. */
  lemma CleanedTypicalName(base: string)
    requires !Contains(base, ".cnf")
    ensures CleanedCnfName("./" + base + ".cnf") == Ok(base)
  {
    var name := "./" + base + ".cnf";
    assert OccursAt(name, "./", 0);
    var withoutDir := Erase(name, 0, 2);
    assert withoutDir == base + ".cnf";
    SuffixIsFirstOccurrence(base);
    assert Erase(withoutDir, |base|, 4) == base;
  }

  /** When `base` holds no ".cnf", the first ".cnf" of `base + ".cnf"` is the appended one. */
  lemma SuffixIsFirstOccurrence(base: string)
    requires !Contains(base, ".cnf")
    ensures IndexOf(base + ".cnf", ".cnf") == Some(|base|)
  {
    var s, n := base + ".cnf", |base|;
    assert OccursAt(s, ".cnf", n);
    forall k | 0 <= k < n ensures !OccursAt(s, ".cnf", k) {
      NoEarlyOccurrence(base, k);
    }
  }

  lemma NoEarlyOccurrence(base: string, k: nat)
    requires !Contains(base, ".cnf") && k < |base|
    ensures !OccursAt(base + ".cnf", ".cnf", k)
  {
    var s, n := base + ".cnf", |base|;
    if k + 4 <= n {
      assert s[k..k + 4] == base[k..k + 4];
      assert !OccursAt(base, ".cnf", k);
    } else {
      assert s[n] == '.';
      assert k + 4 <= |s| ==> s[k..k + 4][n - k] == '.';
    }
  }

  /** Two strings of digits, each followed by '_', start identical strings only when they are equal. */
  lemma {:induction false} DigitsBeforeUnderscore(d1: string, r1: string, d2: string, r2: string)
    requires AllDigits(d1) && AllDigits(d2)
    requires d1 + "_" + r1 == d2 + "_" + r2
    ensures d1 == d2
  {
    var s := d1 + "_" + r1;
    assert forall j :: 0 <= j < |d1| ==> IsDigit(s[j]);
    assert forall j :: 0 <= j < |d2| ==> IsDigit(s[j]);
    assert s[|d1|] == '_' && s[|d2|] == '_';
    assert d1 == s[..|d1|] == d2;
  }

  /** Distinct tasks write to distinct files. */
  lemma TaskFileNamesDiffer(cleaned: string, i: nat, k: nat)
    requires i != k
    ensures TaskFileName(cleaned, i) != TaskFileName(cleaned, k)
  {
    var di, dk := NatToString(i), NatToString(k);
    var tail := cleaned + ".icnf";
    if TaskFileName(cleaned, i) == TaskFileName(cleaned, k) {
      assert TaskFileName(cleaned, i) == "task_" + (di + "_" + tail);
      assert TaskFileName(cleaned, k) == "task_" + (dk + "_" + tail);
      assert di + "_" + tail == TaskFileName(cleaned, i)[5..] == dk + "_" + tail;
      DigitsBeforeUnderscore(di, tail, dk, tail);
      NatToStringInjective(i, k);
    }
  }

  /**
   * The file of task `i` holds the `p inccnf` header, the CNF's clauses in
   * order, the task's 14 unit clauses, and all cubes in index order.
   */
  lemma TaskLayout(fs: map<string, seq<string>>, cnfName: string, dset: seq<nat>, i: nat)
    requires Splittable(dset) && Tasks(fs, cnfName, dset).Ok? && i < Pow2(TaskVarNum)
    ensures CnfClauses(fs, cnfName).Ok? && CleanedCnfName(cnfName).Ok?
    ensures Tasks(fs, cnfName, dset).value[i].name == TaskFileName(CleanedCnfName(cnfName).value, i)
    ensures TaskLines(Tasks(fs, cnfName, dset).value[i].lines, CnfClauses(fs, cnfName).value, TaskUnits(dset, i), AllCubes(dset))
  {
    var clauses, cleaned := CnfClauses(fs, cnfName).value, CleanedCnfName(cnfName).value;
    assert Tasks(fs, cnfName, dset).value[i] == AllTasks(cleaned, clauses, dset)[i] == Task(cleaned, clauses, dset, i);
    ContentLayout(clauses, TaskUnits(dset, i), AllCubes(dset));
  }

  /**
   * Line `1 + c + j` of task file `i`, `c` being the number of clauses, fixes
   * `dset[j]`, positively exactly when bit `13 - j` of `i` is set.
   */
  lemma TaskUnitLine(fs: map<string, seq<string>>, cnfName: string, dset: seq<nat>, i: nat, j: nat)
    requires Splittable(dset) && Tasks(fs, cnfName, dset).Ok? && i < Pow2(TaskVarNum) && j < TaskVarNum
    ensures CnfClauses(fs, cnfName).Ok?
    ensures var lines, c := Tasks(fs, cnfName, dset).value[i].lines, |CnfClauses(fs, cnfName).value|;
      1 + c + j < |lines| && lines[1 + c + j] == UnitClause(TestBit(i, TaskVarNum - 1 - j), dset[j])
  {
    TaskLayout(fs, cnfName, dset, i);
    UnitLine(Tasks(fs, cnfName, dset).value[i].lines, CnfClauses(fs, cnfName).value, TaskUnits(dset, i), AllCubes(dset), j);
    TaskUnitSigns(dset, i, j);
  }

  /** In a file laid out as a task, line `1 + c + j` is unit clause `j`. */
  lemma UnitLine(lines: seq<string>, clauses: seq<string>, units: seq<string>, cubes: seq<string>, j: nat)
    requires TaskLines(lines, clauses, units, cubes) && j < |units|
    ensures 1 + |clauses| + j < |lines| && lines[1 + |clauses| + j] == units[j]
  {
    var c := |clauses|;
    assert lines[1 + c + j] == lines[1 + c..1 + c + |units|][j];
  }

  /** `lines` is the header, then `clauses`, then `units`, then `cubes`, and nothing else. */
  predicate TaskLines(lines: seq<string>, clauses: seq<string>, units: seq<string>, cubes: seq<string>) {
    var c, u := |clauses|, |units|;
    |lines| == 1 + c + u + |cubes| &&
    lines[0] == "p inccnf" &&
    lines[1..1 + c] == clauses &&
    lines[1 + c..1 + c + u] == units &&
    lines[1 + c + u..] == cubes
  }

  lemma ContentLayout(clauses: seq<string>, units: seq<string>, cubes: seq<string>)
    ensures TaskLines(TaskContent(clauses, units, cubes), clauses, units, cubes)
  {
    var lines := TaskContent(clauses, units, cubes);
    var c, u := |clauses|, |units|;
    assert lines[1..1 + c] == clauses;
    assert lines[1 + c..1 + c + u] == units;
    assert lines[1 + c + u..] == cubes;
  }

  /**
   * Any two task files agree on everything outside the 14 unit-clause lines:
   * the header and clauses before them, the cubes after them.
   */
  lemma TasksShareClausesAndCubes(fs: map<string, seq<string>>, cnfName: string, dset: seq<nat>, i: nat, k: nat)
    requires Splittable(dset) && Tasks(fs, cnfName, dset).Ok? && i < Pow2(TaskVarNum) && k < Pow2(TaskVarNum)
    ensures CnfClauses(fs, cnfName).Ok?
    ensures var c, files := |CnfClauses(fs, cnfName).value|, Tasks(fs, cnfName, dset).value;
      |files[i].lines| == |files[k].lines| &&
      files[i].lines[..1 + c] == files[k].lines[..1 + c] &&
      files[i].lines[1 + c + TaskVarNum..] == files[k].lines[1 + c + TaskVarNum..]
  {
    var files := Tasks(fs, cnfName, dset).value;
    TaskLayout(fs, cnfName, dset, i);
    TaskLayout(fs, cnfName, dset, k);
    SharedParts(files[i].lines, files[k].lines, CnfClauses(fs, cnfName).value, TaskUnits(dset, i), TaskUnits(dset, k), AllCubes(dset));
  }

  lemma SharedParts(a: seq<string>, b: seq<string>, clauses: seq<string>, ua: seq<string>, ub: seq<string>, cubes: seq<string>)
    requires TaskLines(a, clauses, ua, cubes) && TaskLines(b, clauses, ub, cubes) && |ua| == |ub|
    ensures |a| == |b| && a[..1 + |clauses|] == b[..1 + |clauses|]
    ensures a[1 + |clauses| + |ua|..] == b[1 + |clauses| + |ua|..]
  {
    var c := |clauses|;
    assert a[..1 + c] == [a[0]] + a[1..1 + c];
    assert b[..1 + c] == [b[0]] + b[1..1 + c];
  }

  /** Distinct tasks have distinct file names and distinct unit clauses. */
  lemma TasksDiffer(fs: map<string, seq<string>>, cnfName: string, dset: seq<nat>, i: nat, k: nat)
    requires Splittable(dset) && Tasks(fs, cnfName, dset).Ok?
    requires i < Pow2(TaskVarNum) && k < Pow2(TaskVarNum) && i != k
    ensures CnfClauses(fs, cnfName).Ok?
    ensures var c, files := |CnfClauses(fs, cnfName).value|, Tasks(fs, cnfName, dset).value;
      files[i].name != files[k].name &&
      files[i].lines[1 + c..1 + c + TaskVarNum] != files[k].lines[1 + c..1 + c + TaskVarNum]
  {
    TaskLayout(fs, cnfName, dset, i);
    TaskLayout(fs, cnfName, dset, k);
    TaskFileNamesDiffer(CleanedCnfName(cnfName).value, i, k);
    FixingUnitsDiffer(dset, i, k, TaskVarNum);
  }

  /**
   * The tasks are exhaustive: for every sign pattern over the 14 task
   * variables and every sign pattern over the cube variables, some task's
   * unit clauses fix the first and one of the cubes fixes the second.
   */
  lemma TasksCoverAll(dset: seq<nat>, taskBits: string, cubeBits: string)
    requires Splittable(dset)
    requires |taskBits| == TaskVarNum && IsBitString(taskBits)
    requires |cubeBits| == CubeVarNum(dset) && IsBitString(cubeBits)
    ensures exists i, c :: (0 <= i < Pow2(TaskVarNum) && 0 <= c < Pow2(CubeVarNum(dset)) &&
      FixesAs(dset, i, taskBits) && CubeHasSigns(dset, c, cubeBits))
  {
    FixingUnitsCoverAll(dset, taskBits);
    CubesCoverAll(dset, cubeBits);
    var i :| 0 <= i < Pow2(TaskVarNum) && FixesAs(dset, i, taskBits);
    var c :| 0 <= c < Pow2(CubeVarNum(dset)) && CubeHasSigns(dset, c, cubeBits);
    assert 0 <= i < Pow2(TaskVarNum) && 0 <= c < Pow2(CubeVarNum(dset)) &&
      FixesAs(dset, i, taskBits) && CubeHasSigns(dset, c, cubeBits);
  }
}

