/**
 * Length metrics of a draft's raw text: words, characters, sentences and the
 * average number of words per sentence.
 */
module DraftMetrics {
  import opened Text

  datatype LengthMetrics = LengthMetrics(words: nat, characters: nat, sentences: nat, avgWordsPerSentence: real)

  /** The metrics of an empty draft. */
  const EmptyDraft := LengthMetrics(0, 0, 0, 0.0)

  /** The number of segments holding a non-whitespace character. */
  function CountNonBlank(segs: seq<string>): nat {
    if segs == [] then 0 else (if HasNonSpace(segs[0]) then 1 else 0) + CountNonBlank(segs[1..])
  }

  /** Sentences before the floor at 1: non-blank pieces of the stripped text split on runs of `.`, `!`, `?`. */
  function SentenceCount(text: string): nat {
    CountNonBlank(Segments(Strip(text)))
  }

  function DraftLength(text: string): (m: LengthMetrics)
    ensures text == [] ==> m == EmptyDraft
    ensures text != [] ==> m.characters == |text| && m.words == |Words(text)|
    ensures text != [] ==> m.sentences >= 1 && m.avgWordsPerSentence == m.words as real / m.sentences as real
    ensures text != [] ==> m.sentences == if SentenceCount(text) > 0 then SentenceCount(text) else 1
  {
    if text == [] then EmptyDraft
    else
      var words := |Words(text)|;
      var sentences := SentenceCount(text);
      var floored := if sentences > 1 then sentences else 1;
      LengthMetrics(words, |text|, floored, words as real / floored as real)
  }

  /** A character that can belong to a sentence's content. */
  predicate IsContent(c: char) { !IsSpace(c) && !IsTerminator(c) }

  predicate HasContent(s: string) { exists k :: 0 <= k < |s| && IsContent(s[k]) }

  lemma {:induction false} SegmentsConcat(s: string)
    ensures Concat(Segments(s)) == Without(s, IsTerminator)
    decreases |s|
  {
    var i := Span(s, IsSentenceChar);
    WithoutSpan(s, IsTerminator, IsSentenceChar, i);
    if i == |s| {
      assert s[i..] == [];
      assert Concat([s]) == s + Concat([]);
    } else {
      var j := i + Span(s[i..], IsTerminator);
      SegmentsConcat(s[j..]);
      DropTerminators(s[i..], j - i);
      assert s[i..][j - i..] == s[j..];
      SegmentsStep(s, i, j);
    }
  }

  lemma SegmentsStep(s: string, i: nat, j: nat)
    requires i == Span(s, IsSentenceChar) < |s|
    requires j == i + Span(s[i..], IsTerminator)
    ensures Concat(Segments(s)) == s[..i] + Concat(Segments(s[j..]))
  {
    SegmentsUnfold(s, i, j);
    ConcatCons(s[..i], Segments(s[j..]));
  }

  lemma ConcatCons(x: string, xs: seq<string>)
    ensures Concat([x] + xs) == x + Concat(xs)
  {
    assert ([x] + xs)[1..] == xs;
  }

  lemma {:induction false} DropTerminators(s: string, n: nat)
    requires n <= |s| && forall k :: 0 <= k < n ==> IsTerminator(s[k])
    ensures Without(s, IsTerminator) == Without(s[n..], IsTerminator)
  {
    if n > 0 {
      DropTerminators(s[1..], n - 1);
      assert s[1..][n - 1..] == s[n..];
    }
  }

  lemma {:induction false} CountNonBlankPositive(segs: seq<string>)
    ensures CountNonBlank(segs) > 0 <==> HasNonSpace(Concat(segs))
  {
    if segs != [] {
      CountNonBlankPositive(segs[1..]);
      HasNonSpaceAppend(segs[0], Concat(segs[1..]));
    }
  }

  lemma HasNonSpaceAppend(a: string, b: string)
    ensures HasNonSpace(a + b) <==> HasNonSpace(a) || HasNonSpace(b)
  {
    if HasNonSpace(a + b) {
      var k :| 0 <= k < |a + b| && !IsSpace((a + b)[k]);
      if k >= |a| { assert b[k - |a|] == (a + b)[k]; }
    }
    if HasNonSpace(a) {
      var k :| 0 <= k < |a| && !IsSpace(a[k]);
      assert (a + b)[k] == a[k];
    }
    if HasNonSpace(b) {
      var k :| 0 <= k < |b| && !IsSpace(b[k]);
      assert (a + b)[|a| + k] == b[k];
    }
  }

  lemma {:induction false} WithoutTerminatorsHasNonSpace(s: string)
    ensures HasNonSpace(Without(s, IsTerminator)) <==> HasContent(s)
  {
    if s != [] {
      WithoutTerminatorsHasNonSpace(s[1..]);
      var head: string := if IsTerminator(s[0]) then [] else [s[0]];
      HasNonSpaceAppend(head, Without(s[1..], IsTerminator));
      if HasContent(s) {
        var k :| 0 <= k < |s| && IsContent(s[k]);
        if k > 0 { assert s[1..][k - 1] == s[k]; }
      }
      if HasContent(s[1..]) {
        var k :| 0 <= k < |s[1..]| && IsContent(s[1..][k]);
        assert s[k + 1] == s[1..][k];
      }
    }
  }

  lemma StripKeepsContent(s: string)
    ensures HasContent(Strip(s)) <==> HasContent(s)
  {
    var r := Strip(s);
    var i := Span(s, IsSpace);
    if HasContent(s) {
      var k :| 0 <= k < |s| && IsContent(s[k]);
      assert i <= k < i + |r|;
      assert r[k - i] == s[k];
    }
    if HasContent(r) {
      var k :| 0 <= k < |r| && IsContent(r[k]);
      assert s[i + k] == r[k];
    }
  }

  /**
   * The sentence count is positive exactly when the text holds a character
   * that is neither whitespace nor a terminator; otherwise the reported count
   * is the floor, 1.
   */
  lemma SentencesIff(text: string)
    ensures SentenceCount(text) > 0 <==> HasContent(text)
  {
    var segs := Segments(Strip(text));
    CountNonBlankPositive(segs);
    SegmentsConcat(Strip(text));
    WithoutTerminatorsHasNonSpace(Strip(text));
    StripKeepsContent(text);
  }

  /** The word count is the number of positions where a word begins. */
  lemma WordsAreWordStarts(text: string)
    ensures DraftLength(text).words == WordStartsFrom(text, 0)
  {
    WordsCount(text);
  }
}
