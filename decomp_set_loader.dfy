/**
 * The decomposition-set loader of find_decomp_set.py (its top-level code):
 * the file holds one line, either a range `A-B` or a blank-separated list of
 * variables, and the set must have 32 variables, all positive.
 */
module DecompSetLoader {
  import opened Wrappers
  import opened Text
  import opened Failures

  /** The size every initial decomposition set must have. */
  const InitialSize := 32

  /** `range(a, b + 1)` with every value checked positive. */
  function RangeValues(a: int, b: int): Result<seq<nat>, Failure> {
    if b < a then Ok([])
    else if a <= 0 then Err(NonPositiveValue)
    else Ok(seq(b - a + 1, k requires 0 <= k < b - a + 1 => (a + k) as nat))
  }

  /** The listed values, in their order; the first word that is no integer or not positive fails. */
  function WordValues(ws: seq<string>): Result<seq<nat>, Failure> {
    if ws == [] then Ok([])
    else
      match WordValues(ws[..|ws| - 1])
      case Err(e) => Err(e)
      case Ok(vs) =>
        match PyInt(ws[|ws| - 1])
        case None => Err(MalformedNumber)
        case Some(v) => if v > 0 then Ok(vs + [v as nat]) else Err(NonPositiveValue)
  }

  /**
   * The set one line describes: with a '-', the range between the first two
   * '-'-separated fields (the empty set when either is empty); otherwise the
   * blank-separated words.
   */
  function ParseDecompSetLine(line: string): Result<seq<nat>, Failure> {
    if '-' in line then
      SplitOnSeparatorPresent(line, '-');
      var parts := SplitOn(line, '-');
      if parts[0] != [] && parts[1] != [] then
        match PyInt(parts[0])
        case None => Err(MalformedNumber)
        case Some(a) =>
          match PyInt(parts[1])
          case None => Err(MalformedNumber)
          case Some(b) => RangeValues(a, b)
      else Ok([])
    else WordValues(Words(line))
  }

  /** What the loader yields for the lines of the decomposition-set file. */
  function DecompSetOf(lines: seq<string>): Result<seq<nat>, Failure> {
    if |lines| != 1 then Err(NotOneLine)
    else
      match ParseDecompSetLine(lines[0])
      case Err(e) => Err(e)
      case Ok(d) => if |d| == InitialSize then Ok(d) else Err(WrongSize)
  }

  lemma {:induction false} WordValuesStaysFailed(ws: seq<string>, j: nat)
    requires j <= |ws| && WordValues(ws[..j]).Err?
    ensures WordValues(ws) == WordValues(ws[..j])
    decreases |ws|
  {
    if j < |ws| {
      assert ws[..|ws| - 1][..j] == ws[..j];
      WordValuesStaysFailed(ws[..|ws| - 1], j);
    } else {
      assert ws[..j] == ws;
    }
  }

  /**
   * Reads the lines of the decomposition-set file: one line, a range or a
   * list, then the size check.
   */
  method LoadDecompSet(lines: seq<string>) returns (r: Result<seq<nat>, Failure>)
    ensures r == DecompSetOf(lines)
  {
    if |lines| != 1 {
      return Err(NotOneLine);
    }
    var line := lines[0];
    var dset: seq<nat> := [];
    if '-' in line {
      SplitOnSeparatorPresent(line, '-');
      var parts := SplitOn(line, '-');
      var fromStr, toStr := parts[0], parts[1];
      if fromStr != [] && toStr != [] {
        var fromVal := PyInt(fromStr);
        if fromVal.None? {
          return Err(MalformedNumber);
        }
        var toVal := PyInt(toStr);
        if toVal.None? {
          return Err(MalformedNumber);
        }
        var a, b := fromVal.value, toVal.value;
        var i := a;
        while i <= b
          invariant a <= i && (i > a ==> a > 0 && i <= b + 1)
          invariant |dset| == i - a
          invariant forall k :: 0 <= k < |dset| ==> dset[k] == a + k
        {
          if i <= 0 {
            return Err(NonPositiveValue);
          }
          dset := dset + [i as nat];
          i := i + 1;
        }
        if a <= b {
          assert a > 0 && i == b + 1;
          assert dset == seq(b - a + 1, k requires 0 <= k < b - a + 1 => (a + k) as nat);
        }
      }
    } else {
      var words := Words(line);
      for k := 0 to |words|
        invariant WordValues(words[..k]) == Ok(dset)
      {
        assert words[..k + 1][..k] == words[..k];
        var v := PyInt(words[k]);
        if v.None? {
          WordValuesStaysFailed(words, k + 1);
          return Err(MalformedNumber);
        }
        if v.value <= 0 {
          WordValuesStaysFailed(words, k + 1);
          return Err(NonPositiveValue);
        }
        dset := dset + [v.value as nat];
      }
      assert words[..|words|] == words;
    }
    if |dset| != InitialSize {
      return Err(WrongSize);
    }
    return Ok(dset);
  }

  /** A range yields the ascending run `a, a + 1, ..., b`, and nothing when `b < a`. */
  lemma RangeIsAscendingRun(a: int, b: int)
    requires RangeValues(a, b).Ok?
    ensures |RangeValues(a, b).value| == if b < a then 0 else b - a + 1
    ensures forall k :: 0 <= k < |RangeValues(a, b).value| ==> RangeValues(a, b).value[k] == a + k
    ensures b >= a ==> a > 0
  {
  }

  /**
   * A list is accepted exactly when every word is a positive integer, and the
   * set then holds the words' values in their order.
   */
  lemma {:induction false} WordValuesMeaning(ws: seq<string>)
    ensures WordValues(ws).Ok? <==> forall k :: 0 <= k < |ws| ==> PyInt(ws[k]).Some? && PyInt(ws[k]).value > 0
    ensures WordValues(ws).Ok? ==>
      |WordValues(ws).value| == |ws| &&
      forall k :: 0 <= k < |ws| ==> WordValues(ws).value[k] == PyInt(ws[k]).value
  {
    if ws != [] {
      var init := ws[..|ws| - 1];
      WordValuesMeaning(init);
      assert forall k :: 0 <= k < |init| ==> init[k] == ws[k];
    }
  }

  /** Every accepted set has 32 variables, all positive. */
  lemma LoadedSetShape(lines: seq<string>)
    requires DecompSetOf(lines).Ok?
    ensures |lines| == 1 && |DecompSetOf(lines).value| == InitialSize
    ensures forall k :: 0 <= k < InitialSize ==> DecompSetOf(lines).value[k] > 0
  {
    var line := lines[0];
    if '-' in line {
      SplitOnSeparatorPresent(line, '-');
    } else {
      var ws := Words(line);
      WordValuesMeaning(ws);
    }
  }

  /** The line `A-B`, for decimal `A > 0` and `B`, is the range from A to B. */
  lemma RangeLine(a: nat, b: nat)
    requires a > 0
    ensures ParseDecompSetLine(NatToString(a) + "-" + NatToString(b)) == RangeValues(a, b)
  {
    var x, y := NatToString(a), NatToString(b);
    var line := x + "-" + y;
    assert line == x + ['-'] + y;
    assert '-' !in x && '-' !in y;
    SplitOnCons(x, '-', y);
    SplitOnPiece(y, '-');
    assert line[|x|] == '-';
    PyIntOfNatToString(a);
    PyIntOfNatToString(b);
  }

  /** `5-8` describes 5, 6, 7, 8. */
  lemma RangeExample()
    ensures ParseDecompSetLine("5-8") == Ok([5, 6, 7, 8])
  {
    assert NatToString(5) == "5" && NatToString(8) == "8";
    RangeLine(5, 8);
    assert "5-8" == NatToString(5) + "-" + NatToString(8);
    var r := RangeValues(5, 8).value;
    assert |r| == 4 && r[0] == 5 && r[1] == 6 && r[2] == 7 && r[3] == 8;
    assert r == [5, 6, 7, 8];
  }

  /** A line listing positive values, separated by blanks, describes exactly those values in that order. */
  lemma ListLine(vs: seq<nat>)
    requires vs != [] && forall k :: 0 <= k < |vs| ==> vs[k] > 0
    ensures ParseDecompSetLine(NumeralLine(vs)) == Ok(vs)
  {
    NumeralLineHasNoDash(vs);
    NumeralLineWords(vs);
    var ws := Numerals(vs);
    forall k | 0 <= k < |ws| ensures PyInt(ws[k]) == Some(vs[k] as int) {
      PyIntOfNatToString(vs[k]);
    }
    WordValuesMeaning(ws);
    assert WordValues(ws).value == vs;
  }

  /** `5 6 7 8` describes the same variables, in the same order. */
  lemma ListExample()
    ensures ParseDecompSetLine("5 6 7 8") == Ok([5, 6, 7, 8])
  {
    ListLine([5, 6, 7, 8]);
    ListExampleLine();
  }

  lemma ListExampleLine()
    ensures NumeralLine([5, 6, 7, 8]) == "5 6 7 8"
  {
    var vs := [5, 6, 7, 8];
    assert vs[..3] == [5, 6, 7];
    assert Numerals([5, 6, 7]) == ["5", "6", "7"] by {
      assert NatToString(5) == "5" && NatToString(6) == "6" && NatToString(7) == "7";
    }
    assert Spaced(["5", "6", "7"]) == "5 6 7 " by {
      assert ["5", "6", "7"][..2] == ["5", "6"];
      assert ["5", "6"][..1] == ["5"];
      assert ["5"][..0] == [];
    }
    assert NatToString(8) == "8";
  }

  /** A line whose first field is empty, like `-5`, describes the empty set, so the load fails. */
  lemma LeadingDashExample()
    ensures ParseDecompSetLine("-5") == Ok([])
    ensures DecompSetOf(["-5"]) == Err(WrongSize)
  {
    var line := "-5";
    assert line == [] + ['-'] + "5";
    SplitOnCons([], '-', "5");
    SplitOnPiece("5", '-');
  }
}
