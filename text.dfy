/**
 * The few pieces of Python's `str` behaviour the report generator relies on:
 * the whitespace set used by `str.split()` and `str.strip()`, `str.lower()`,
 * splitting on runs of sentence terminators (`re.split(r'[.!?]+', ...)`) and
 * `str(n)` for a natural number.
 */
module Text {

  /** The characters Python's `str.isspace()` accepts; `split()` and `strip()` use this set. */
  predicate IsSpace(c: char) {
    || c == ' '
    || ('\t' <= c <= '\r')
    || ('\U{1C}' <= c <= '\U{1F}')
    || c == '\U{85}' || c == '\U{A0}' || c == '\U{1680}'
    || ('\U{2000}' <= c <= '\U{200A}')
    || c == '\U{2028}' || c == '\U{2029}' || c == '\U{202F}' || c == '\U{205F}' || c == '\U{3000}'
  }

  predicate IsWordChar(c: char) { !IsSpace(c) }

  /** The characters of the character class `[.!?]`. */
  predicate IsTerminator(c: char) { c == '.' || c == '!' || c == '?' }

  predicate IsSentenceChar(c: char) { !IsTerminator(c) }

  predicate NoTerminator(s: string) { forall k :: 0 <= k < |s| ==> IsSentenceChar(s[k]) }

  predicate HasNonSpace(s: string) { exists k :: 0 <= k < |s| && !IsSpace(s[k]) }

  /** Length of the longest prefix of `s` whose characters all satisfy `p`. */
  function Span(s: string, p: char -> bool): (n: nat)
    ensures n <= |s|
    ensures forall k :: 0 <= k < n ==> p(s[k])
    ensures n < |s| ==> !p(s[n])
  {
    if s == [] || !p(s[0]) then 0 else 1 + Span(s[1..], p)
  }

  /** Length of the longest suffix of `s` made of whitespace. */
  function TrailingSpaces(s: string): (n: nat)
    ensures n <= |s|
    ensures forall k :: |s| - n <= k < |s| ==> IsSpace(s[k])
    ensures n < |s| ==> !IsSpace(s[|s| - 1 - n])
  {
    if s == [] || !IsSpace(s[|s| - 1]) then 0 else 1 + TrailingSpaces(s[..|s| - 1])
  }

  /** Python's `s.strip()`: drop leading and trailing whitespace. */
  function Strip(s: string): (r: string)
    ensures |r| <= |s|
    ensures r == [] <==> !HasNonSpace(s)
    ensures r != [] ==> !IsSpace(r[0]) && !IsSpace(r[|r| - 1])
    ensures var i := Span(s, IsSpace);
      && i + |r| <= |s| && r == s[i..i + |r|]
      && forall k :: i + |r| <= k < |s| ==> IsSpace(s[k])
  {
    var lead := Span(s, IsSpace);
    if lead == |s| then
      []
    else
      var trail := TrailingSpaces(s);
      assert !IsSpace(s[lead]);
      var r := s[lead..|s| - trail];
      assert r[0] == s[lead] && r[|r| - 1] == s[|s| - 1 - trail];
      assert HasNonSpace(s) by { assert !IsSpace(s[lead]); }
      r
  }

  /**
   * Python's `s.split()` with no argument: the maximal runs of non-whitespace
   * characters, in order.
   */
  function Words(s: string): (ws: seq<string>)
    ensures forall w :: w in ws ==> w != [] && forall k :: 0 <= k < |w| ==> IsWordChar(w[k])
    decreases |s|
  {
    if s == [] then []
    else if IsSpace(s[0]) then Words(s[1..])
    else
      var n := Span(s, IsWordChar);
      [s[..n]] + Words(s[n..])
  }

  /**
   * Python's `re.split(r'[.!?]+', s)`: the pieces between maximal runs of
   * terminators, including the empty piece before a leading run and after a
   * trailing one.
   */
  function Segments(s: string): (segs: seq<string>)
    ensures |segs| >= 1
    ensures forall k :: 0 <= k < |segs| ==> NoTerminator(segs[k])
    decreases |s|
  {
    var i := Span(s, IsSentenceChar);
    if i == |s| then [s]
    else
      var j := i + Span(s[i..], IsTerminator);
      [s[..i]] + Segments(s[j..])
  }

  /** The maximal runs of terminators that `Segments` cuts at, in order. */
  function Separators(s: string): (seps: seq<string>)
    ensures forall sep :: sep in seps ==> sep != [] && forall k :: 0 <= k < |sep| ==> IsTerminator(sep[k])
    decreases |s|
  {
    var i := Span(s, IsSentenceChar);
    if i == |s| then []
    else
      var j := i + Span(s[i..], IsTerminator);
      assert s[i..][0] == s[i];
      assert forall k :: 0 <= k < j - i ==> s[i..j][k] == s[i..][k];
      [s[i..j]] + Separators(s[j..])
  }

  /** Pieces and separators taken alternately, starting and ending with a piece. */
  function Interleave(segs: seq<string>, seps: seq<string>): string
    requires |segs| == |seps| + 1
    decreases |seps|
  {
    if seps == [] then segs[0] else segs[0] + seps[0] + Interleave(segs[1..], seps[1..])
  }

  /**
   * `re.split(r'[.!?]+', s)` cuts `s` exactly at its maximal terminator runs:
   * the pieces, which hold no terminator, alternated with the non-empty runs
   * of terminators rebuild `s`, and there is one piece more than runs. Runs
   * are maximal, so every piece between two runs is non-empty; only the
   * first and the last piece can be empty.
   */
  lemma {:induction false} SegmentsInterleave(s: string)
    ensures |Segments(s)| == |Separators(s)| + 1
    ensures Interleave(Segments(s), Separators(s)) == s
    ensures forall k :: 0 < k < |Segments(s)| - 1 ==> Segments(s)[k] != []
    decreases |s|
  {
    var i := Span(s, IsSentenceChar);
    if i < |s| {
      var j := i + Span(s[i..], IsTerminator);
      SegmentsInterleave(s[j..]);
      SegmentsUnfold(s, i, j);
      SeparatorsUnfold(s, i, j);
      InterleaveCons(s[..i], s[i..j], Segments(s[j..]), Separators(s[j..]));
      SplitThree(s, i, j);
      if |Segments(s[j..])| > 1 {
        FirstSegmentNonEmpty(s, i, j);
      }
    }
  }

  /** After a maximal run of terminators, the next piece starts with a sentence character. */
  lemma FirstSegmentNonEmpty(s: string, i: nat, j: nat)
    requires i == Span(s, IsSentenceChar) < |s|
    requires j == i + Span(s[i..], IsTerminator)
    requires |Segments(s[j..])| > 1
    ensures Segments(s[j..])[0] != []
  {
    var t := s[j..];
    assert t != [];
    assert s[i..][j - i] == t[0];
    assert Span(t, IsSentenceChar) > 0;
  }

  lemma SplitThree(s: string, i: nat, j: nat)
    requires i <= j <= |s|
    ensures s == s[..i] + s[i..j] + s[j..]
  {
    assert s[..j] == s[..i] + s[i..j];
  }

  lemma SegmentsUnfold(s: string, i: nat, j: nat)
    requires i == Span(s, IsSentenceChar) < |s|
    requires j == i + Span(s[i..], IsTerminator)
    ensures Segments(s) == [s[..i]] + Segments(s[j..])
  {
  }

  lemma SeparatorsUnfold(s: string, i: nat, j: nat)
    requires i == Span(s, IsSentenceChar) < |s|
    requires j == i + Span(s[i..], IsTerminator)
    ensures Separators(s) == [s[i..j]] + Separators(s[j..])
  {
  }

  lemma InterleaveCons(g: string, sep: string, segs: seq<string>, seps: seq<string>)
    requires |segs| == |seps| + 1
    ensures Interleave([g] + segs, [sep] + seps) == g + sep + Interleave(segs, seps)
  {
    assert ([g] + segs)[1..] == segs && ([sep] + seps)[1..] == seps;
  }

  function LowerChar(c: char): char {
    if 'A' <= c <= 'Z' then (c as int - 'A' as int + 'a' as int) as char else c
  }

  /** Python's `s.lower()`, restricted to ASCII letters. */
  function Lower(s: string): (r: string)
    ensures |r| == |s|
    ensures forall k :: 0 <= k < |s| ==> r[k] == LowerChar(s[k])
  {
    seq(|s|, k requires 0 <= k < |s| => LowerChar(s[k]))
  }

  function DigitChar(d: nat): (c: char)
    requires d < 10
  {
    "0123456789"[d]
  }

  predicate IsDigits(s: string) { forall k :: 0 <= k < |s| ==> '0' <= s[k] <= '9' }

  /** Python's `str(n)` for a natural number: its decimal digits, no leading zeros. */
  function NatToString(n: nat): (s: string)
    ensures |s| >= 1 && IsDigits(s)
    ensures |s| > 1 ==> s[0] != '0'
  {
    if n < 10 then [DigitChar(n)] else NatToString(n / 10) + [DigitChar(n % 10)]
  }

  /** The value of a string of decimal digits. */
  function ParseNat(s: string): (n: nat)
    requires IsDigits(s)
  {
    if s == [] then 0 else 10 * ParseNat(s[..|s| - 1]) + (s[|s| - 1] as int - '0' as int)
  }

  lemma {:induction false} ParseNatToString(n: nat)
    ensures ParseNat(NatToString(n)) == n
  {
    var s := NatToString(n);
    if n >= 10 {
      ParseNatToString(n / 10);
      assert s[..|s| - 1] == NatToString(n / 10);
    }
  }

  /** The strings joined end to end. */
  function Concat(ss: seq<string>): string {
    if ss == [] then [] else ss[0] + Concat(ss[1..])
  }

  /** `s` with every character satisfying `p` removed. */
  function Without(s: string, p: char -> bool): string {
    if s == [] then [] else (if p(s[0]) then [] else [s[0]]) + Without(s[1..], p)
  }

  lemma {:induction false} WithoutSpan(s: string, p: char -> bool, q: char -> bool, n: nat)
    requires n <= |s|
    requires forall k :: 0 <= k < n ==> q(s[k]) && !p(s[k])
    ensures Without(s, p) == s[..n] + Without(s[n..], p)
  {
    if n > 0 {
      WithoutSpan(s[1..], p, q, n - 1);
      assert s[1..][n - 1..] == s[n..];
      assert s[..n] == [s[0]] + s[1..][..n - 1];
    }
  }

  /** Joining the words gives back the text with its whitespace removed. */
  lemma {:induction false} WordsConcat(s: string)
    ensures Concat(Words(s)) == Without(s, IsSpace)
    decreases |s|
  {
    if s == [] {
    } else if IsSpace(s[0]) {
      WordsConcat(s[1..]);
    } else {
      var n := Span(s, IsWordChar);
      WordsConcat(s[n..]);
      WithoutSpan(s, IsSpace, IsWordChar, n);
      assert Words(s)[1..] == Words(s[n..]);
    }
  }

  /** Index `i` begins a word: a non-space character at the start or after a space. */
  predicate IsWordStart(s: string, i: nat)
    requires i < |s|
  {
    !IsSpace(s[i]) && (i == 0 || IsSpace(s[i - 1]))
  }

  /** The number of word starts at indices `i` and beyond. */
  function WordStartsFrom(s: string, i: nat): nat
    requires i <= |s|
    decreases |s| - i
  {
    if i == |s| then 0 else (if IsWordStart(s, i) then 1 else 0) + WordStartsFrom(s, i + 1)
  }

  lemma {:induction false} NoStartsInsideWord(s: string, i: nat, j: nat)
    requires 0 < i <= j <= |s|
    requires forall k :: i - 1 <= k < j ==> !IsSpace(s[k])
    ensures WordStartsFrom(s, i) == WordStartsFrom(s, j)
    decreases j - i
  {
    if i < j {
      NoStartsInsideWord(s, i + 1, j);
    }
  }

  /** Index `i` is the start of the text or follows a space. */
  predicate AfterSpace(s: string, i: nat)
    requires i <= |s|
  {
    i == 0 || IsSpace(s[i - 1])
  }

  lemma {:induction false} WordsCountFrom(s: string, i: nat)
    requires i <= |s| && AfterSpace(s, i)
    ensures |Words(s[i..])| == WordStartsFrom(s, i)
    decreases |s| - i
  {
    if i == |s| {
    } else if IsSpace(s[i]) {
      SpaceStep(s, i);
      WordsCountFrom(s, i + 1);
    } else {
      WordsCountAtWord(s, i);
    }
  }

  lemma {:induction false} WordsCountAtWord(s: string, i: nat)
    requires i < |s| && !IsSpace(s[i]) && AfterSpace(s, i)
    ensures |Words(s[i..])| == WordStartsFrom(s, i)
    decreases |s| - i, 0
  {
    var n := WordHead(s, i);
    StartsAcrossWord(s, i, n);
    if i + n < |s| {
      var j := i + n;
      SpaceStep(s, j);
      WordsCountFrom(s, j + 1);
      var words, after := |Words(s[i..])|, |Words(s[j..])|;
      var starts, startsAfter := WordStartsFrom(s, i), WordStartsFrom(s, j);
      assert words == 1 + after && starts == 1 + startsAfter && after == startsAfter;
    } else {
      EndOfText(s, i + n);
    }
  }

  /** Past the last character there are no words and no word starts. */
  lemma EndOfText(s: string, j: nat)
    requires j == |s|
    ensures |Words(s[j..])| == 0 && WordStartsFrom(s, j) == 0
  {
    assert s[j..] == [];
  }

  /** The word starting at `i` spans `n` non-space characters and is one word. */
  lemma WordHead(s: string, i: nat) returns (n: nat)
    requires i < |s| && !IsSpace(s[i])
    ensures 0 < n && i + n <= |s|
    ensures |Words(s[i..])| == 1 + |Words(s[i + n..])|
    ensures forall k :: i <= k < i + n ==> !IsSpace(s[k])
    ensures i + n < |s| ==> IsSpace(s[i + n])
  {
    var t := s[i..];
    n := Span(t, IsWordChar);
    assert t[n..] == s[i + n..];
    forall k | i <= k < i + n ensures !IsSpace(s[k]) { assert s[k] == t[k - i]; }
    if i + n < |s| {
      assert s[i + n] == t[n];
    }
  }

  /** A word starting at `i` and spanning `n` characters holds exactly one word start. */
  lemma StartsAcrossWord(s: string, i: nat, n: nat)
    requires 0 < n && i + n <= |s| && AfterSpace(s, i)
    requires forall k :: i <= k < i + n ==> !IsSpace(s[k])
    ensures WordStartsFrom(s, i) == 1 + WordStartsFrom(s, i + n)
  {
    assert IsWordStart(s, i);
    NoStartsInsideWord(s, i + 1, i + n);
  }

  /** A space contributes no word and no word start, and what follows it is after a space. */
  lemma SpaceStep(s: string, j: nat)
    requires j < |s| && IsSpace(s[j])
    ensures AfterSpace(s, j + 1)
    ensures |Words(s[j..])| == |Words(s[j + 1..])|
    ensures WordStartsFrom(s, j) == WordStartsFrom(s, j + 1)
  {
    assert s[j..][1..] == s[j + 1..];
    assert !IsWordStart(s, j);
  }

  /** The number of words `split()` finds is the number of word starts. */
  lemma WordsCount(s: string)
    ensures |Words(s)| == WordStartsFrom(s, 0)
  {
    WordsCountFrom(s, 0);
    assert s[0..] == s;
  }
}
