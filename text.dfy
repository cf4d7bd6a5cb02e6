/**
 * The string operations both programs are built from: Python's `str.split()`
 * and `str.split(sep)`, `in`, `str.find`/`str.rfind`, `str(n)` and `int(s)`,
 * and their C++ counterparts (`std::string::find`, `operator>>` on a
 * `std::stringstream`, `operator<<` of an unsigned).
 * Strings are sequences of characters; only ASCII blanks are treated as blanks.
 */
module Text {
  import opened Wrappers

  // ---------------------------------------------------------------------------
  // Blanks and words
  // ---------------------------------------------------------------------------

  /**
   * The blank characters of C's `isspace`: ' ', '\t', '\n', '\v', '\f', '\r'.
   * Python's `str.split()` and `int()` also treat '\x1c' to '\x1f' and the
   * non-ASCII white space as blanks; here they are word characters.
   */
  predicate IsSpace(c: char) {
    c == ' ' || c == '\t' || c == '\n' || c == '\r' || c == '\U{000B}' || c == '\U{000C}'
  }

  predicate NoSpace(s: string) {
    forall k :: 0 <= k < |s| ==> !IsSpace(s[k])
  }

  /** `s` without its leading blanks. */
  function TrimLeft(s: string): (r: string)
    ensures |r| <= |s|
    ensures r == [] || !IsSpace(r[0])
    ensures s != [] && !IsSpace(s[0]) ==> r == s
  {
    if s != [] && IsSpace(s[0]) then TrimLeft(s[1..]) else s
  }

  /** The longest prefix of `s` that holds no blank. */
  function LeadingWord(s: string): (w: string)
    ensures |w| <= |s| && w == s[..|w|] && NoSpace(w)
    ensures |w| == |s| || IsSpace(s[|w|])
  {
    if s != [] && !IsSpace(s[0]) then [s[0]] + LeadingWord(s[1..]) else []
  }

  /**
   * Python's `s.split()` with no separator, which is also what repeated
   * `stream >> word` extracts from a C++ string stream: the maximal runs of
   * non-blank characters of `s`, in order.
   */
  function Words(s: string): (ws: seq<string>)
    ensures forall i :: 0 <= i < |ws| ==> ws[i] != [] && NoSpace(ws[i])
    decreases |s|
  {
    var t := TrimLeft(s);
    if t == [] then []
    else
      var w := LeadingWord(t);
      assert w != [];
      var ws := [w] + Words(t[|w|..]);
      assert ws[0] == w;
      ws
  }

  lemma LeadingWordOf(w: string, rest: string)
    requires NoSpace(w)
    requires rest == [] || IsSpace(rest[0])
    ensures LeadingWord(w + rest) == w
  {
    if w != [] {
      assert (w + rest)[1..] == w[1..] + rest;
      LeadingWordOf(w[1..], rest);
    }
  }

  /** A blank in front of a text adds no word. */
  lemma WordsAfterBlank(c: char, rest: string)
    requires IsSpace(c)
    ensures Words([c] + rest) == Words(rest)
  {
    assert ([c] + rest)[1..] == rest;
  }

  /** A non-blank word followed by a blank is the first word of the text. */
  lemma WordsCons(w: string, c: char, rest: string)
    requires w != [] && NoSpace(w) && IsSpace(c)
    ensures Words(w + [c] + rest) == [w] + Words(rest)
  {
    var s := w + [c] + rest;
    assert s[0] == w[0];
    assert TrimLeft(s) == s;
    LeadingWordOf(w, [c] + rest);
    assert s == w + ([c] + rest);
    assert LeadingWord(s) == w;
    assert s[|w|..] == [c] + rest;
    WordsAfterBlank(c, rest);
    assert Words(s) == [w] + Words([c] + rest);
  }

  /** A non-empty text without blanks is one word. */
  lemma WordsOfWord(w: string)
    requires w != [] && NoSpace(w)
    ensures Words(w) == [w]
  {
    assert TrimLeft(w) == w;
    LeadingWordOf(w, []);
    assert w + [] == w;
    assert w[|w|..] == [];
  }

  // ---------------------------------------------------------------------------
  // Splitting on one separator character
  // ---------------------------------------------------------------------------

  /** The inverse of Python's `s.split(c)`: the parts glued together by `c`. */
  function JoinWith(parts: seq<string>, c: char): string
    requires |parts| >= 1
  {
    if |parts| == 1 then parts[0] else parts[0] + [c] + JoinWith(parts[1..], c)
  }

  /**
   * Python's `s.split(c)` for a one-character separator: the pieces between
   * separators, empty pieces included (so `"a\n".split("\n") == ["a", ""]`).
   */
  function SplitOn(s: string, c: char): (parts: seq<string>)
    ensures |parts| >= 1
    ensures forall i :: 0 <= i < |parts| ==> c !in parts[i]
    ensures JoinWith(parts, c) == s
  {
    if s == [] then [[]]
    else
      var rest := SplitOn(s[1..], c);
      if s[0] == c then [[]] + rest
      else
        assert [s[0]] + s[1..] == s;
        [[s[0]] + rest[0]] + rest[1..]
  }

  lemma {:induction false} SplitOnPiece(p: string, c: char)
    requires c !in p
    ensures SplitOn(p, c) == [p]
  {
    if p != [] {
      assert p[1..] + [] == p[1..];
      SplitOnPiece(p[1..], c);
      assert [p[0]] + p[1..] == p;
    }
  }

  lemma {:induction false} SplitOnCons(p: string, c: char, s: string)
    requires c !in p
    ensures SplitOn(p + [c] + s, c) == [p] + SplitOn(s, c)
  {
    if p == [] {
      assert ([c] + s)[1..] == s;
    } else {
      assert (p + [c] + s)[1..] == p[1..] + [c] + s;
      SplitOnCons(p[1..], c, s);
      assert [p[0]] + p[1..] == p;
    }
  }

  /** Splitting undoes joining: `c.join(ps).split(c) == ps` when no part holds `c`. */
  lemma {:induction false} SplitJoin(parts: seq<string>, c: char)
    requires |parts| >= 1
    requires forall i :: 0 <= i < |parts| ==> c !in parts[i]
    ensures SplitOn(JoinWith(parts, c), c) == parts
  {
    if |parts| == 1 {
      SplitOnPiece(parts[0], c);
    } else {
      SplitJoin(parts[1..], c);
      SplitOnCons(parts[0], c, JoinWith(parts[1..], c));
    }
  }

  /** A text that holds the separator splits into at least two pieces. */
  lemma SplitOnSeparatorPresent(s: string, c: char)
    requires c in s
    ensures |SplitOn(s, c)| >= 2
  {
  }

  // ---------------------------------------------------------------------------
  // Searching
  // ---------------------------------------------------------------------------

  predicate OccursAt(s: string, pat: string, k: int) {
    0 <= k && k + |pat| <= |s| && s[k..k + |pat|] == pat
  }

  /** The first occurrence of `pat` in `s` at position `from` or later. */
  function IndexFrom(s: string, pat: string, from: nat): (r: Option<nat>)
    ensures r.Some? ==> from <= r.value && OccursAt(s, pat, r.value)
    ensures r.Some? ==> forall k :: from <= k < r.value ==> !OccursAt(s, pat, k)
    ensures r.None? ==> forall k :: from <= k ==> !OccursAt(s, pat, k)
    decreases |s| - from
  {
    if from + |pat| > |s| then None
    else if s[from..from + |pat|] == pat then Some(from)
    else IndexFrom(s, pat, from + 1)
  }

  /**
   * Python's `s.find(pat)` and C++'s `s.find(pat)`: the position of the first
   * occurrence of `pat`, or `None` for not found (-1 and `npos`).
   */
  function IndexOf(s: string, pat: string): (r: Option<nat>)
    ensures r.Some? ==> OccursAt(s, pat, r.value)
    ensures r.Some? ==> forall k :: 0 <= k < r.value ==> !OccursAt(s, pat, k)
    ensures r.None? ==> forall k :: !OccursAt(s, pat, k)
  {
    IndexFrom(s, pat, 0)
  }

  /** Python's `pat in s` on strings. */
  predicate Contains(s: string, pat: string) {
    IndexOf(s, pat).Some?
  }

  /** Python's `s.rfind(c)` for one character: the last position holding `c`. */
  function LastIndexOf(s: string, c: char): (r: Option<nat>)
    ensures r.Some? ==> r.value < |s| && s[r.value] == c
    ensures r.Some? ==> forall k :: r.value < k < |s| ==> s[k] != c
    ensures r.None? ==> c !in s
  {
    if s == [] then None
    else if s[|s| - 1] == c then Some(|s| - 1)
    else
      var r := LastIndexOf(s[..|s| - 1], c);
      assert s == s[..|s| - 1] + [s[|s| - 1]];
      r
  }

  /** Python's `s.split(pat)[0]`: the part of `s` before the first occurrence of `pat`. */
  function BeforeFirst(s: string, pat: string): (r: string)
    ensures r <= s
    ensures Contains(s, pat) ==> OccursAt(s, pat, |r|)
    ensures forall k :: 0 <= k < |r| ==> !OccursAt(s, pat, k)
  {
    match IndexOf(s, pat)
    case Some(k) => s[..k]
    case None => s
  }

  /** C++'s `s.erase(start, n)`. */
  function Erase(s: string, start: nat, n: nat): (r: string)
    requires start + n <= |s|
    ensures |r| == |s| - n
    ensures r[..start] == s[..start] && r[start..] == s[start + n..]
  {
    s[..start] + s[start + n..]
  }

  /** The words separated and followed by one blank each, as `<< w << " "` writes them. */
  function Spaced(ws: seq<string>): string {
    if ws == [] then [] else Spaced(ws[..|ws| - 1]) + ws[|ws| - 1] + " "
  }

  lemma SpacedStep(ws: seq<string>, j: nat)
    requires j < |ws|
    ensures Spaced(ws[..j + 1]) == Spaced(ws[..j]) + ws[j] + " "
  {
    assert ws[..j + 1][..j] == ws[..j];
  }

  lemma {:induction false} SpacedCons(w: string, ws: seq<string>)
    ensures Spaced([w] + ws) == w + " " + Spaced(ws)
    decreases |ws|
  {
    if ws != [] {
      var init, last := ws[..|ws| - 1], ws[|ws| - 1];
      var v := [w] + ws;
      assert v[..|v| - 1] == [w] + init && v[|v| - 1] == last;
      SpacedCons(w, init);
      assert Spaced(v) == Spaced([w] + init) + last + " ";
      assert Spaced(ws) == Spaced(init) + last + " ";
    } else {
      assert [w] + ws == [w];
      assert [w][..0] == [];
    }
  }

  /** Words each followed by a blank and then a final word read back as those words. */
  lemma {:induction false} WordsOfSpaced(ws: seq<string>, last: string)
    requires forall k :: 0 <= k < |ws| ==> ws[k] != [] && NoSpace(ws[k])
    requires last != [] && NoSpace(last)
    ensures Words(Spaced(ws) + last) == ws + [last]
    decreases |ws|
  {
    if ws == [] {
      WordsOfWord(last);
      assert Spaced(ws) + last == last;
    } else {
      var rest := ws[1..];
      assert ws == [ws[0]] + rest;
      SpacedCons(ws[0], rest);
      WordsOfSpaced(rest, last);
      assert Spaced(ws) + last == ws[0] + [' '] + (Spaced(rest) + last);
      WordsCons(ws[0], ' ', Spaced(rest) + last);
    }
  }

  // ---------------------------------------------------------------------------
  // Decimal numerals
  // ---------------------------------------------------------------------------

  predicate IsDigit(c: char) {
    '0' <= c <= '9'
  }

  predicate AllDigits(s: string) {
    forall k :: 0 <= k < |s| ==> IsDigit(s[k])
  }

  function DigitValue(c: char): nat
    requires IsDigit(c)
  {
    c as int - '0' as int
  }

  function DigitChar(d: nat): (c: char)
    requires d < 10
    ensures IsDigit(c) && DigitValue(c) == d
  {
    ('0' as int + d) as char
  }

  /** The value of a string of decimal digits (0 for the empty string). */
  function DigitsValue(s: string): nat
    requires AllDigits(s)
  {
    if s == [] then 0 else 10 * DigitsValue(s[..|s| - 1]) + DigitValue(s[|s| - 1])
  }

  /**
   * Python's `str(n)` and C++'s `stream << n` for a natural number: its
   * decimal numeral, which reads back as `n`.
   */
  function NatToString(n: nat): (s: string)
    ensures s != [] && AllDigits(s) && DigitsValue(s) == n
  {
    if n < 10 then [DigitChar(n)]
    else
      var s := NatToString(n / 10) + [DigitChar(n % 10)];
      assert s[..|s| - 1] == NatToString(n / 10);
      s
  }

  /** Distinct numbers print differently. */
  lemma NatToStringInjective(a: nat, b: nat)
    requires NatToString(a) == NatToString(b)
    ensures a == b
  {
  }

  /** An optionally signed decimal literal without blanks. */
  function ParseSignedDecimal(w: string): Option<int> {
    if w != [] && (w[0] == '-' || w[0] == '+') then
      if |w| > 1 && AllDigits(w[1..]) then
        var v: int := DigitsValue(w[1..]);
        Some(if w[0] == '-' then -v else v)
      else None
    else if w != [] && AllDigits(w) then Some(DigitsValue(w))
    else None
  }

  /**
   * Python's `int(s)` on decimal text: blanks around the literal are allowed,
   * anything else that is not an optionally signed run of digits fails.
   */
  function PyInt(s: string): Option<int> {
    var ws := Words(s);
    if |ws| == 1 then ParseSignedDecimal(ws[0]) else None
  }

  /** `int(str(n)) == n` and `int("-" + str(n)) == -n`. */
  lemma PyIntOfNatToString(n: nat)
    ensures PyInt(NatToString(n)) == Some(n)
    ensures PyInt("-" + NatToString(n)) == Some(-(n as int))
  {
    var s := NatToString(n);
    WordsOfWord(s);
    var m := "-" + s;
    assert m[1..] == s;
    WordsOfWord(m);
  }

  /** The decimal numerals of the values, in order. */
  function Numerals(vs: seq<nat>): (ws: seq<string>)
    ensures |ws| == |vs|
    ensures forall k :: 0 <= k < |vs| ==> ws[k] == NatToString(vs[k])
  {
    seq(|vs|, k requires 0 <= k < |vs| => NatToString(vs[k]))
  }

  /** The values written in decimal on one line, separated by single blanks. */
  function NumeralLine(vs: seq<nat>): string
    requires vs != []
  {
    Spaced(Numerals(vs[..|vs| - 1])) + NatToString(vs[|vs| - 1])
  }

  lemma NumeralIsWord(v: nat)
    ensures NatToString(v) != [] && NoSpace(NatToString(v))
  {
    var s := NatToString(v);
    assert forall k :: 0 <= k < |s| ==> IsDigit(s[k]);
  }

  /** A reader splitting the line on blanks sees the numerals of the values. */
  lemma NumeralLineWords(vs: seq<nat>)
    requires vs != []
    ensures Words(NumeralLine(vs)) == Numerals(vs)
  {
    var n := |vs|;
    var nums := Numerals(vs[..n - 1]);
    forall k | 0 <= k < |nums| ensures nums[k] != [] && NoSpace(nums[k]) {
      NumeralIsWord(vs[k]);
    }
    NumeralIsWord(vs[n - 1]);
    WordsOfSpaced(nums, NatToString(vs[n - 1]));
    assert nums + [NatToString(vs[n - 1])] == Numerals(vs);
  }

  /** A character absent from every word, other than the blank, is absent from the spaced words. */
  lemma {:induction false} SpacedAvoids(ws: seq<string>, c: char)
    requires c != ' ' && forall k :: 0 <= k < |ws| ==> c !in ws[k]
    ensures c !in Spaced(ws)
  {
    if ws != [] {
      SpacedAvoids(ws[..|ws| - 1], c);
      assert c !in ws[|ws| - 1];
    }
  }

  /** A line of numerals holds no '-'. */
  lemma NumeralLineHasNoDash(vs: seq<nat>)
    requires vs != []
    ensures '-' !in NumeralLine(vs)
  {
    var nums := Numerals(vs[..|vs| - 1]);
    forall k | 0 <= k < |nums| ensures '-' !in nums[k] {
      assert AllDigits(nums[k]);
    }
    SpacedAvoids(nums, '-');
    assert AllDigits(NatToString(vs[|vs| - 1]));
  }
}

