/**
 * The two readers of gen_decomp_set_icnfs/solve_decomp_set.cpp: `read_cnf`,
 * which keeps a CNF's clause lines, and `read_decomp_set`, which reads the
 * variables on the first line of the decomposition-set file. A file is the
 * sequence of its lines, as successive `getline` calls return them, and the
 * files that can be opened are a map from name to lines.
 */
module SolveInputs {
  import opened Wrappers
  import opened Text
  import opened Failures

  // ---------------------------------------------------------------------------
  // read_cnf
  // ---------------------------------------------------------------------------

  /** A line `read_cnf` keeps: not empty, and not starting with 'p' or 'c'. */
  predicate IsClauseLine(line: string) {
    line != [] && line[0] != 'p' && line[0] != 'c'
  }

  /** The clause lines among `lines`, in their order. */
  function ClauseLines(lines: seq<string>): (kept: seq<string>)
    ensures |kept| <= |lines|
  {
    if lines == [] then []
    else
      var last := lines[|lines| - 1];
      ClauseLines(lines[..|lines| - 1]) + (if IsClauseLine(last) then [last] else [])
  }

  /** The clauses `read_cnf` returns for the file `name`, or why it stops the program. */
  function CnfClauses(fs: map<string, seq<string>>, name: string): Result<seq<string>, SolveFailure> {
    if name !in fs then Err(CannotOpen)
    else
      var kept := ClauseLines(fs[name]);
      if kept == [] then Err(NoClauses) else Ok(kept)
  }

  /** Reads the file line by line, skipping empty, 'p' and 'c' lines; at least one clause must remain. */
  method ReadCnf(fs: map<string, seq<string>>, name: string) returns (r: Result<seq<string>, SolveFailure>)
    ensures r == CnfClauses(fs, name)
  {
    if name !in fs {
      return Err(CannotOpen);
    }
    var lines := fs[name];
    var clauses := [];
    for k := 0 to |lines|
      invariant clauses == ClauseLines(lines[..k])
    {
      assert lines[..k + 1][..k] == lines[..k];
      var str := lines[k];
      if str == [] || str[0] == 'p' || str[0] == 'c' {
        continue;
      }
      clauses := clauses + [str];
    }
    assert lines[..|lines|] == lines;
    if clauses == [] {
      return Err(NoClauses);
    }
    return Ok(clauses);
  }

  /** Filtering a concatenation filters each part: kept lines stay in their order. */
  lemma {:induction false} ClauseLinesAppend(a: seq<string>, b: seq<string>)
    ensures ClauseLines(a + b) == ClauseLines(a) + ClauseLines(b)
    decreases |b|
  {
    if b == [] {
      assert a + b == a;
    } else {
      var init := b[..|b| - 1];
      assert (a + b)[..|a + b| - 1] == a + init;
      ClauseLinesAppend(a, init);
    }
  }

  /** A line is kept exactly when it is a line of the file and a clause line. */
  lemma {:induction false} ClauseLinesMembers(lines: seq<string>, x: string)
    ensures x in ClauseLines(lines) <==> x in lines && IsClauseLine(x)
  {
    if lines != [] {
      var init := lines[..|lines| - 1];
      ClauseLinesMembers(init, x);
      assert lines == init + [lines[|lines| - 1]];
    }
  }

  /** A file of clause lines only is kept whole. */
  lemma {:induction false} ClauseLinesKeepAll(lines: seq<string>)
    requires forall k :: 0 <= k < |lines| ==> IsClauseLine(lines[k])
    ensures ClauseLines(lines) == lines
  {
    if lines != [] {
      ClauseLinesKeepAll(lines[..|lines| - 1]);
    }
  }

  /** Filtering twice keeps what filtering once kept. */
  lemma ClauseLinesIdempotent(lines: seq<string>)
    ensures ClauseLines(ClauseLines(lines)) == ClauseLines(lines)
  {
    var kept := ClauseLines(lines);
    forall k | 0 <= k < |kept| ensures IsClauseLine(kept[k]) {
      ClauseLinesMembers(lines, kept[k]);
    }
    ClauseLinesKeepAll(kept);
  }

  // ---------------------------------------------------------------------------
  // std::stoi and the conversion to unsigned
  // ---------------------------------------------------------------------------

  const IntMin: int := -0x8000_0000
  const IntMax: int := 0x7fff_ffff
  const UnsignedRange: nat := 0x1_0000_0000

  /** The longest prefix of `s` made of decimal digits. */
  function LeadingDigits(s: string): (d: string)
    ensures d <= s && AllDigits(d)
    ensures |d| == |s| || !IsDigit(s[|d|])
  {
    if s == [] || !IsDigit(s[0]) then [] else [s[0]] + LeadingDigits(s[1..])
  }

  /**
   * `std::stoi(w)` on a word without blanks: an optional sign, then the
   * longest run of decimal digits, whatever follows; no digit throws
   * `invalid_argument` and a value outside `int` throws `out_of_range`.
   */
  function Stoi(w: string): (r: Result<int, SolveFailure>)
    ensures r.Ok? ==> IntMin <= r.value <= IntMax
  {
    var signed := w != [] && (w[0] == '-' || w[0] == '+');
    var d := LeadingDigits(if signed then w[1..] else w);
    if d == [] then Err(NotANumber)
    else
      var v := if signed && w[0] == '-' then -(DigitsValue(d) as int) else DigitsValue(d);
      if v < IntMin || v > IntMax then Err(OutOfIntRange) else Ok(v)
  }

  /** The `int` stored into a `std::vector<unsigned>`: the value modulo 2^32. */
  function AsUnsigned(v: int): (u: nat)
    requires IntMin <= v <= IntMax
    ensures u < UnsignedRange && (u - v) % UnsignedRange == 0
    ensures v >= 0 ==> u == v
  {
    if v < 0 then v + UnsignedRange else v
  }

  lemma {:induction false} LeadingDigitsOfDigits(s: string)
    requires AllDigits(s)
    ensures LeadingDigits(s) == s
  {
    if s != [] {
      LeadingDigitsOfDigits(s[1..]);
    }
  }

  /** `std::stoi` reads a decimal numeral that fits an `int` back as its value. */
  lemma StoiOfNatToString(n: nat)
    requires n <= IntMax
    ensures Stoi(NatToString(n)) == Ok(n as int)
  {
    LeadingDigitsOfDigits(NatToString(n));
  }

  // ---------------------------------------------------------------------------
  // read_decomp_set
  // ---------------------------------------------------------------------------

  /** The line the first `getline` leaves in `str`: nothing when the file is empty. */
  function FirstLine(lines: seq<string>): string {
    if lines == [] then "" else lines[0]
  }

  /** One word as the loop body treats it: the word "0" is rejected, any other is converted with `stoi`. */
  function TokenValueAsWritten(w: string): Result<nat, SolveFailure> {
    if w == "0" then Err(ZeroToken)
    else
      match Stoi(w)
      case Err(e) => Err(e)
      case Ok(v) => Ok(AsUnsigned(v))
  }

  /** One word as the corrected loop body treats it: it must convert to a positive variable. */
  function TokenValue(w: string): Result<nat, SolveFailure> {
    match Stoi(w)
    case Err(e) => Err(e)
    case Ok(v) => if v > 0 then Ok(v as nat) else Err(NonPositiveVariable)
  }

  /** The loop over the words, converting each with `conv` and stopping at the first word it rejects. */
  function TokenValues(ws: seq<string>, conv: string -> Result<nat, SolveFailure>): Result<seq<nat>, SolveFailure> {
    if ws == [] then Ok([])
    else
      match TokenValues(ws[..|ws| - 1], conv)
      case Err(e) => Err(e)
      case Ok(vs) =>
        match conv(ws[|ws| - 1])
        case Err(e) => Err(e)
        case Ok(v) => Ok(vs + [v])
  }

  /** The variables of the file `name`: the values of its first line's words; there must be one at least. */
  function DecompSetBy(fs: map<string, seq<string>>, name: string, conv: string -> Result<nat, SolveFailure>):
    Result<seq<nat>, SolveFailure>
  {
    if name !in fs then Err(CannotOpen)
    else
      match TokenValues(Words(FirstLine(fs[name])), conv)
      case Err(e) => Err(e)
      case Ok(vs) => if vs == [] then Err(NoVariables) else Ok(vs)
  }

  /** `read_decomp_set` as written, whose guard compares the word with the text "0". */
  function DecompSetAsWritten(fs: map<string, seq<string>>, name: string): Result<seq<nat>, SolveFailure> {
    DecompSetBy(fs, name, TokenValueAsWritten)
  }

  /** The corrected `read_decomp_set`, whose guard is on the value rather than on the text. */
  function DecompSetFile(fs: map<string, seq<string>>, name: string): Result<seq<nat>, SolveFailure> {
    DecompSetBy(fs, name, TokenValue)
  }

  lemma {:induction false} TokenValuesStaysFailed(ws: seq<string>, j: nat, conv: string -> Result<nat, SolveFailure>)
    requires j <= |ws| && TokenValues(ws[..j], conv).Err?
    ensures TokenValues(ws, conv) == TokenValues(ws[..j], conv)
    decreases |ws|
  {
    if j < |ws| {
      assert ws[..|ws| - 1][..j] == ws[..j];
      TokenValuesStaysFailed(ws[..|ws| - 1], j, conv);
    } else {
      assert ws[..j] == ws;
    }
  }

  /** Reads the first line, converts its words, and requires one variable at least. */
  method ReadDecompSet(fs: map<string, seq<string>>, name: string) returns (r: Result<seq<nat>, SolveFailure>)
    ensures r == DecompSetAsWritten(fs, name)
  {
    if name !in fs {
      return Err(CannotOpen);
    }
    var str := FirstLine(fs[name]);
    var words := Words(str);
    var read := ReadWords(words);
    if read.Err? {
      return Err(read.error);
    }
    if read.value == [] {
      return Err(NoVariables);
    }
    return Ok(read.value);
  }

  /** The reading loop: converts word after word, stopping at the first failure. */
  method ReadWords(words: seq<string>) returns (r: Result<seq<nat>, SolveFailure>)
    ensures r == TokenValues(words, TokenValueAsWritten)
  {
    var dset: seq<nat> := [];
    for k := 0 to |words|
      invariant TokenValues(words[..k], TokenValueAsWritten) == Ok(dset)
    {
      assert words[..k + 1][..k] == words[..k];
      var v := ReadToken(words[k]);
      if v.Err? {
        TokenValuesStaysFailed(words, k + 1, TokenValueAsWritten);
        return Err(v.error);
      }
      dset := dset + [v.value];
    }
    assert words[..|words|] == words;
    return Ok(dset);
  }

  /** The body of the reading loop, for one word: the word "0" is refused, any other is converted by `stoi`. */
  method ReadToken(word: string) returns (r: Result<nat, SolveFailure>)
    ensures r == TokenValueAsWritten(word)
  {
    if word == "0" {
      return Err(ZeroToken);
    }
    var v := Stoi(word);
    if v.Err? {
      return Err(v.error);
    }
    return Ok(AsUnsigned(v.value));
  }

  /**
   * The words are accepted exactly when each is accepted alone; the values
   * are then the words' values, in order.
   */
  lemma {:induction false} TokenValuesMeaning(ws: seq<string>, conv: string -> Result<nat, SolveFailure>)
    ensures TokenValues(ws, conv).Ok? <==> forall k :: 0 <= k < |ws| ==> conv(ws[k]).Ok?
    ensures TokenValues(ws, conv).Ok? ==>
      |TokenValues(ws, conv).value| == |ws| &&
      forall k :: 0 <= k < |ws| ==> TokenValues(ws, conv).value[k] == conv(ws[k]).value
  {
    if ws != [] {
      var init := ws[..|ws| - 1];
      TokenValuesMeaning(init, conv);
      assert forall k :: 0 <= k < |init| ==> init[k] == ws[k];
    }
  }

  /** Every variable the corrected reader accepts is a positive `int`, and there is one at least. */
  lemma DecompSetFileIsPositive(fs: map<string, seq<string>>, name: string)
    requires DecompSetFile(fs, name).Ok?
    ensures DecompSetFile(fs, name).value != []
    ensures forall k :: 0 <= k < |DecompSetFile(fs, name).value| ==> 0 < DecompSetFile(fs, name).value[k] <= IntMax
  {
    TokenValuesMeaning(Words(FirstLine(fs[name])), TokenValue);
    forall k | 0 <= k < |DecompSetFile(fs, name).value| ensures 0 < DecompSetFile(fs, name).value[k] <= IntMax {
      var w := Words(FirstLine(fs[name]))[k];
      assert DecompSetFile(fs, name).value[k] == TokenValue(w).value;
    }
  }

  /** A word the corrected loop body accepts gets the same value from the loop body as written. */
  lemma AcceptedTokenAgrees(w: string)
    requires TokenValue(w).Ok?
    ensures TokenValueAsWritten(w) == TokenValue(w)
  {
    StoiOfZero();
  }

  /** `std::stoi("0")` is 0, so the only word the guard refuses is one the corrected body refuses too. */
  lemma StoiOfZero()
    ensures Stoi("0") == Ok(0)
  {
    StoiOfNatToString(0);
    assert NatToString(0) == "0";
  }

  /**
   * Whenever the corrected reader accepts a file, the reader as written reads
   * the same set from it: the two differ only on files the correction refuses.
   */
  lemma CorrectedReaderAgrees(fs: map<string, seq<string>>, name: string)
    requires DecompSetFile(fs, name).Ok?
    ensures DecompSetAsWritten(fs, name) == DecompSetFile(fs, name)
  {
    var ws := Words(FirstLine(fs[name]));
    TokenValuesMeaning(ws, TokenValue);
    var vs := TokenValues(ws, TokenValue).value;
    forall k | 0 <= k < |ws|
      ensures TokenValueAsWritten(ws[k]).Ok? && TokenValueAsWritten(ws[k]).value == vs[k]
    {
      AcceptedTokenAgrees(ws[k]);
    }
    ValuesOfWords(ws, vs, TokenValueAsWritten);
  }

  /** Variable `k` of a set the corrected reader accepts is positive. */
  lemma DecompSetFileVariable(fs: map<string, seq<string>>, name: string, k: nat)
    requires DecompSetFile(fs, name).Ok? && k < |DecompSetFile(fs, name).value|
    ensures 0 < DecompSetFile(fs, name).value[k] <= IntMax
  {
    DecompSetFileIsPositive(fs, name);
  }

  /** The word "00" passes the guard `word != "0"` and yields the variable 0. */
  lemma ZeroVariableSlipsThrough()
    ensures DecompSetAsWritten(map["d" := ["00"]], "d") == Ok([0])
    ensures DecompSetFile(map["d" := ["00"]], "d") == Err(NonPositiveVariable)
  {
    var fs := map["d" := ["00"]];
    assert Words(FirstLine(fs["d"])) == ["00"] by { WordsOfWord("00"); }
    LeadingDigitsOfDigits("00");
    assert DigitsValue("00") == 0 by {
      assert "00"[..1] == "0";
      assert DigitsValue("0") == 0 by { assert "0"[..0] == []; }
    }
    assert Stoi("00") == Ok(0);
    assert "00" != "0" by { assert |"00"| != |"0"|; }
    assert TokenValueAsWritten("00") == Ok(0);
    ValuesOfWords(["00"], [0], TokenValueAsWritten);
    assert ["00"][..0] == [];
    assert TokenValues(["00"], TokenValue) == Err(NonPositiveVariable);
  }

  /** Both loop bodies read the numeral of a positive `int` back as its value. */
  lemma NumeralOfPositive(v: nat)
    requires 0 < v <= IntMax
    ensures TokenValue(NatToString(v)).Ok? && TokenValue(NatToString(v)).value == v
    ensures TokenValueAsWritten(NatToString(v)).Ok? && TokenValueAsWritten(NatToString(v)).value == v
  {
    StoiOfNatToString(v);
  }

  /** Words each converting to the matching value are read as exactly those values. */
  lemma ValuesOfWords(ws: seq<string>, vs: seq<nat>, conv: string -> Result<nat, SolveFailure>)
    requires |ws| == |vs|
    requires forall k :: 0 <= k < |ws| ==> conv(ws[k]).Ok? && conv(ws[k]).value == vs[k]
    ensures TokenValues(ws, conv) == Ok(vs)
  {
    TokenValuesMeaning(ws, conv);
    assert TokenValues(ws, conv).value == vs;
  }

  /** A file whose first line lists positive `int` variables is read back as those variables, by both readers. */
  lemma DecompSetRoundTrip(dset: seq<nat>, rest: seq<string>, name: string)
    requires dset != []
    requires forall k :: 0 <= k < |dset| ==> 0 < dset[k] <= IntMax
    ensures DecompSetFile(map[name := [NumeralLine(dset)] + rest], name) == Ok(dset)
    ensures DecompSetAsWritten(map[name := [NumeralLine(dset)] + rest], name) == Ok(dset)
  {
    var ws := Numerals(dset);
    NumeralLineWords(dset);
    forall k | 0 <= k < |ws|
      ensures TokenValue(ws[k]).Ok? && TokenValue(ws[k]).value == dset[k]
      ensures TokenValueAsWritten(ws[k]).Ok? && TokenValueAsWritten(ws[k]).value == dset[k]
    {
      NumeralOfPositive(dset[k]);
    }
    ValuesOfWords(ws, dset, TokenValue);
    ValuesOfWords(ws, dset, TokenValueAsWritten);
  }
}
