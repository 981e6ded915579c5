/**
 * Overall sentiment of a draft's comments: every comment's score is put on
 * the signed scale, and the report gives the mean, a confidence of one minus
 * the population variance, and a three-way label.
 */
module OverallSentiment {
  import opened Entities

  datatype Summary = Summary(score: real, sentimentLabel: string, confidence: real)

  /** The result for a draft without comments. */
  const NoComments := Summary(0.0, "neutral", 0.0)

  /**
   * One comment's contribution. A number in [0, 1] is read as a probability
   * and mapped onto [-1, 1]; any other number is taken to be on the signed
   * scale already; a missing or unparseable score contributes 0.
   */
  function Normalize(s: Score): (v: real)
    ensures s.Num? && 0.0 <= s.x <= 1.0 ==> -1.0 <= v <= 1.0 && (v > 0.0 <==> s.x > 0.5) && (v < 0.0 <==> s.x < 0.5)
    ensures s.Num? && !(0.0 <= s.x <= 1.0) ==> v == s.x
    ensures !s.Num? ==> v == 0.0
  {
    match s
    case Num(x) => if 0.0 <= x <= 1.0 then (x - 0.5) * 2.0 else x
    case _ => 0.0
  }

  function Identity(x: real): real { x }

  function SquaredDeviation(m: real): real -> real { x => (x - m) * (x - m) }

  /** The sum of `f` over the values, in order. */
  function SumBy(s: seq<real>, f: real -> real): real {
    if s == [] then 0.0 else f(s[0]) + SumBy(s[1..], f)
  }

  lemma {:induction false} SumByRemove(s: seq<real>, f: real -> real, k: nat)
    requires k < |s|
    ensures SumBy(s, f) == f(s[k]) + SumBy(s[..k] + s[k + 1..], f)
  {
    if k > 0 {
      SumByRemove(s[1..], f, k - 1);
      assert s[1..][..k - 1] + s[1..][k..] == (s[..k] + s[k + 1..])[1..];
    } else {
      assert s[..0] + s[1..] == s[1..];
    }
  }

  /** A sum does not depend on the order of its terms. */
  lemma {:induction false} SumByPermutation(a: seq<real>, b: seq<real>, f: real -> real)
    requires multiset(a) == multiset(b)
    ensures SumBy(a, f) == SumBy(b, f)
    decreases |a|
  {
    if a != [] {
      assert a[0] in multiset(b);
      var k :| 0 <= k < |b| && b[k] == a[0];
      var rest := b[..k] + b[k + 1..];
      assert b == b[..k] + [b[k]] + b[k + 1..];
      assert multiset(b) == multiset(b[..k]) + multiset{b[k]} + multiset(b[k + 1..]);
      assert multiset(rest) == multiset(b[..k]) + multiset(b[k + 1..]);
      assert a == [a[0]] + a[1..];
      assert multiset(a) == multiset{a[0]} + multiset(a[1..]);
      assert multiset(a[1..]) == multiset(a) - multiset{a[0]};
      assert multiset(rest) == multiset(b) - multiset{b[k]};
      SumByPermutation(a[1..], rest, f);
      SumByRemove(b, f, k);
    }
  }

  lemma {:induction false} SumByBounds(s: seq<real>, f: real -> real, lo: real, hi: real)
    requires forall k :: 0 <= k < |s| ==> lo <= f(s[k]) <= hi
    ensures |s| as real * lo <= SumBy(s, f) <= |s| as real * hi
  {
    if s != [] {
      SumByBounds(s[1..], f, lo, hi);
    }
  }

  lemma {:induction false} SumByNonNegative(s: seq<real>, f: real -> real)
    requires forall k :: 0 <= k < |s| ==> f(s[k]) >= 0.0
    ensures SumBy(s, f) >= 0.0
  {
    if s != [] {
      SumByNonNegative(s[1..], f);
    }
  }

  function Mean(s: seq<real>): real
    requires s != []
  {
    SumBy(s, Identity) / |s| as real
  }

  /** Population variance (divide by N), defined as 0 for a single value. */
  function Variance(s: seq<real>): (v: real)
    requires s != []
    ensures v >= 0.0
  {
    if |s| > 1 then
      var f := SquaredDeviation(Mean(s));
      SumByNonNegative(s, f);
      SumBy(s, f) / |s| as real
    else 0.0
  }

  /** The three-way label of a mean score. */
  function Label(avg: real): string {
    if avg > 0.1 then "positive" else if avg < -0.1 then "negative" else "neutral"
  }

  /** Mean, three-way label and confidence of the normalized scores. */
  function Summarize(scores: seq<real>): (r: Summary)
    ensures scores == [] ==> r == NoComments
    ensures scores != [] ==> r.score == Mean(scores)
    ensures 0.0 <= r.confidence <= 1.0
    ensures |scores| == 1 ==> r.confidence == 1.0
    ensures r.sentimentLabel == "positive" <==> r.score > 0.1
    ensures r.sentimentLabel == "negative" <==> r.score < -0.1
    ensures r.sentimentLabel == "neutral" <==> -0.1 <= r.score <= 0.1
  {
    if scores == [] then NoComments
    else
      var avg := Mean(scores);
      var confidence := if 1.0 - Variance(scores) > 0.0 then 1.0 - Variance(scores) else 0.0;
      Summary(avg, Label(avg), confidence)
  }

  /** The value each comment contributes, one per comment and in order. */
  function NormalizedScores(comments: seq<Comment>): (vs: seq<real>)
    ensures |vs| == |comments|
  {
    seq(|comments|, k requires 0 <= k < |comments| => Normalize(comments[k].sentimentScore))
  }

  /** The overall sentiment the report shows for these comments. */
  function SentimentOf(comments: seq<Comment>): Summary {
    Summarize(NormalizedScores(comments))
  }

  /**
   * Collects one normalized value per comment, then summarizes them.
   */
  method CalculateOverallSentiment(comments: seq<Comment>) returns (r: Summary)
    ensures r == SentimentOf(comments)
    ensures comments == [] ==> r == NoComments
    ensures 0.0 <= r.confidence <= 1.0
  {
    if comments == [] {
      return NoComments;
    }
    var scores: seq<real> := [];
    for i := 0 to |comments|
      invariant scores == NormalizedScores(comments[..i])
    {
      var normalized := 0.0;
      match comments[i].sentimentScore {
        case Num(score) =>
          if 0.0 <= score <= 1.0 {
            normalized := (score - 0.5) * 2.0;
          } else {
            normalized := score;
          }
        case _ =>
      }
      scores := scores + [normalized];
    }
    assert comments[..|comments|] == comments;
    r := Summarize(scores);
  }

  /** The summary depends only on the multiset of normalized values, not on their order. */
  lemma SummarizePermutation(a: seq<real>, b: seq<real>)
    requires multiset(a) == multiset(b)
    ensures Summarize(a) == Summarize(b)
  {
    if a != [] {
      assert |a| == |multiset(a)| == |b|;
      SumByPermutation(a, b, Identity);
      SumByPermutation(a, b, SquaredDeviation(Mean(a)));
    } else {
      assert |b| == |multiset(b)| == 0;
    }
  }

  /** Reordering the comments does not change their overall sentiment. */
  lemma CommentsPermutation(a: seq<Comment>, b: seq<Comment>)
    requires multiset(a) == multiset(b)
    ensures SentimentOf(a) == SentimentOf(b)
  {
    NormalizedPermutation(a, b);
    SummarizePermutation(NormalizedScores(a), NormalizedScores(b));
  }

  lemma {:induction false} NormalizedPermutation(a: seq<Comment>, b: seq<Comment>)
    requires multiset(a) == multiset(b)
    ensures multiset(NormalizedScores(a)) == multiset(NormalizedScores(b))
    decreases |a|
  {
    if a != [] {
      assert a[0] in multiset(b) by { assert a[0] in multiset(a); }
      var k :| 0 <= k < |b| && b[k] == a[0];
      RestPermutation(a, b, k);
      NormalizedPermutation(a[1..], b[..k] + b[k + 1..]);
      PermutationStep(a, b, k);
    }
  }

  lemma RestPermutation(a: seq<Comment>, b: seq<Comment>, k: nat)
    requires multiset(a) == multiset(b) && a != [] && k < |b| && b[k] == a[0]
    ensures multiset(a[1..]) == multiset(b[..k] + b[k + 1..])
  {
    assert a == [a[0]] + a[1..];
    assert multiset(a) == multiset{a[0]} + multiset(a[1..]);
    assert multiset(a[1..]) == multiset(a) - multiset{a[0]};
    RemoveAt(b, k);
  }

  lemma PermutationStep(a: seq<Comment>, b: seq<Comment>, k: nat)
    requires a != [] && k < |b| && b[k] == a[0]
    requires multiset(NormalizedScores(a[1..])) == multiset(NormalizedScores(b[..k] + b[k + 1..]))
    ensures multiset(NormalizedScores(a)) == multiset(NormalizedScores(b))
  {
    var v := Normalize(a[0].sentimentScore);
    var tail, before, after := NormalizedScores(a[1..]), NormalizedScores(b[..k]), NormalizedScores(b[k + 1..]);
    assert NormalizedScores(a) == [v] + tail by {
      NormalizedSplit(a, 0);
      assert NormalizedScores(a[..0]) == [];
    }
    assert NormalizedScores(b) == before + [v] + after && multiset(tail) == multiset(before + after) by {
      NormalizedSplit(b, k);
    }
    MultisetMiddle(before, v, after);
  }

  lemma MultisetMiddle(before: seq<real>, v: real, after: seq<real>)
    ensures multiset(before + [v] + after) == multiset(before + after) + multiset{v}
  {
  }

  lemma RemoveAt(s: seq<Comment>, k: nat)
    requires k < |s|
    ensures multiset(s[..k] + s[k + 1..]) == multiset(s) - multiset{s[k]}
  {
    assert s == s[..k] + [s[k]] + s[k + 1..];
  }

  /** Normalizing around position `k`: the pieces before and after, with the value at `k` between. */
  lemma NormalizedSplit(s: seq<Comment>, k: nat)
    requires k < |s|
    ensures NormalizedScores(s)
      == NormalizedScores(s[..k]) + [Normalize(s[k].sentimentScore)] + NormalizedScores(s[k + 1..])
    ensures NormalizedScores(s[..k] + s[k + 1..]) == NormalizedScores(s[..k]) + NormalizedScores(s[k + 1..])
  {
    assert s == s[..k] + [s[k]] + s[k + 1..];
    NormalizedAppend(s[..k] + [s[k]], s[k + 1..]);
    NormalizedAppend(s[..k], [s[k]]);
    NormalizedAppend(s[..k], s[k + 1..]);
    assert NormalizedScores([s[k]]) == [Normalize(s[k].sentimentScore)];
  }

  lemma NormalizedAppend(u: seq<Comment>, v: seq<Comment>)
    ensures NormalizedScores(u + v) == NormalizedScores(u) + NormalizedScores(v)
  {
    assert forall k :: 0 <= k < |u + v| ==> (u + v)[k] == if k < |u| then u[k] else v[k - |u|];
  }

  /**
   * When every score is absent or already within [-1, 1], the overall score
   * lies in [-1, 1].
   */
  lemma ScoreInRange(comments: seq<Comment>)
    requires forall c :: c in comments && c.sentimentScore.Num? ==> -1.0 <= c.sentimentScore.x <= 1.0
    ensures -1.0 <= SentimentOf(comments).score <= 1.0
  {
    var vs := NormalizedScores(comments);
    if vs != [] {
      forall k | 0 <= k < |vs| ensures -1.0 <= Identity(vs[k]) <= 1.0 {
        assert comments[k] in comments;
      }
      SumByBounds(vs, Identity, -1.0, 1.0);
    }
  }

  /** Scores 0.9, 0.1 and 0.5 on the probability scale: mean 0, neutral, confidence 1 - 1.28/3. */
  lemma ThreeScoreExample(a: Comment, b: Comment, c: Comment)
    requires a.sentimentScore == Num(0.9) && b.sentimentScore == Num(0.1) && c.sentimentScore == Num(0.5)
    ensures NormalizedScores([a, b, c]) == [0.8, -0.8, 0.0]
    ensures SentimentOf([a, b, c]) == Summary(0.0, "neutral", 1.0 - 1.28 / 3.0)
  {
    var vs := NormalizedScores([a, b, c]);
    assert vs == [0.8, -0.8, 0.0];
    var v1, v2 := vs[1..], vs[1..][1..];
    assert v1 == [-0.8, 0.0] && v2 == [0.0] && v2[1..] == [];
    assert SumBy(v2, Identity) == 0.0;
    assert SumBy(v1, Identity) == Identity(v1[0]) + SumBy(v2, Identity);
    assert SumBy(vs, Identity) == 0.0;
    var f := SquaredDeviation(0.0);
    assert SumBy(v2, f) == 0.0 && SumBy(v1, f) == 0.64;
    assert SumBy(vs, f) == 1.28;
  }
}
