/**
 * The critical / supportive / neutral breakdown of a draft's comments. Each
 * comment goes into exactly one bucket, found by probing its sentiment
 * fields in a fixed priority order and, failing those, its numeric score.
 */
module FeedbackRatio {
  import opened Wrappers
  import opened Entities
  import opened Text
  import OverallSentiment

  datatype Bucket = Critical | Supportive | Neutral

  /** What the field probing yields: a sentiment word, nothing, or a score that failed to parse. */
  datatype Signal = Value(v: string) | NoSignal | ParseError

  datatype Ratio = Ratio(
    critical: nat,
    supportive: nat,
    neutral: nat,
    ratio: string,
    criticalPercentage: real,
    supportivePercentage: real)

  /** The result for a draft without comments. */
  const NoFeedback := Ratio(0, 0, 0, "N/A", 0.0, 0.0)

  const CriticalWords: seq<string> := ["negative", "critical", "bad"]
  const SupportiveWords: seq<string> := ["positive", "supportive", "good"]

  /** A field counts when it is present and non-empty (Python truthiness). */
  predicate Present(field: Option<string>) { field.Some? && field.value != [] }

  /**
   * A sentiment word derived from the score alone. A number in [0, 1] is read
   * as a probability (above 0.6 positive, below 0.4 negative); any other
   * number as a signed score (above 0.1 positive, below -0.1 negative).
   */
  function ScoreLabel(x: real): string {
    if 0.0 <= x <= 1.0 then
      if x > 0.6 then "positive" else if x < 0.4 then "negative" else "neutral"
    else
      if x > 0.1 then "positive" else if x < -0.1 then "negative" else "neutral"
  }

  /** The first non-empty of `sentiment_label`, `sentiment_analysis`, `sentiment`, lowercased; else the score. */
  function SentimentSignal(c: Comment): Signal {
    if Present(c.sentimentLabel) then Value(Lower(c.sentimentLabel.value))
    else if Present(c.sentimentAnalysis) then Value(Lower(c.sentimentAnalysis.value))
    else if Present(c.sentiment) then Value(Lower(c.sentiment.value))
    else
      match c.sentimentScore
      case Missing => NoSignal
      case Unparseable => ParseError
      case Num(x) => Value(ScoreLabel(x))
  }

  function BucketOf(v: string): Bucket {
    if v in CriticalWords then Critical else if v in SupportiveWords then Supportive else Neutral
  }

  /** The bucket a comment is counted in; no signal and a parse failure both count as neutral. */
  function Classify(c: Comment): Bucket {
    match SentimentSignal(c)
    case Value(v) => if v != [] then BucketOf(v) else Neutral
    case _ => Neutral
  }

  /** The number of comments in bucket `b`. */
  function Count(comments: seq<Comment>, b: Bucket): nat {
    if comments == [] then 0
    else Count(comments[..|comments| - 1], b) + (if Classify(comments[|comments| - 1]) == b then 1 else 0)
  }

  /** Every comment lands in exactly one bucket. */
  lemma {:induction false} CountPartition(comments: seq<Comment>)
    ensures Count(comments, Critical) + Count(comments, Supportive) + Count(comments, Neutral) == |comments|
  {
    if comments != [] {
      CountPartition(comments[..|comments| - 1]);
    }
  }

  /** Counting distributes over concatenation. */
  lemma {:induction false} CountAppend(a: seq<Comment>, b: seq<Comment>, k: Bucket)
    ensures Count(a + b, k) == Count(a, k) + Count(b, k)
    decreases |b|
  {
    if b == [] {
      assert a + b == a;
    } else {
      var init := b[..|b| - 1];
      assert (a + b)[..|a + b| - 1] == a + init;
      assert (a + b)[|a + b| - 1] == b[|b| - 1];
      CountAppend(a, init, k);
    }
  }

  /** The bucket counts depend only on which comments there are, not on their order. */
  lemma {:induction false} CountPermutation(a: seq<Comment>, b: seq<Comment>, k: Bucket)
    requires multiset(a) == multiset(b)
    ensures Count(a, k) == Count(b, k)
    decreases |a|
  {
    if a == [] {
      assert |b| == |multiset(b)| == 0;
    } else {
      var x := a[|a| - 1];
      assert x in multiset(b) by { assert x in multiset(a); }
      var i :| 0 <= i < |b| && b[i] == x;
      InitPermutation(a, b, i);
      CountPermutation(a[..|a| - 1], b[..i] + b[i + 1..], k);
      SplitAt(a, |a| - 1);
      SplitAt(b, i);
      CountStep(a[..|a| - 1], b[..i], b[i + 1..], x, k);
    }
  }

  lemma SplitAt(s: seq<Comment>, i: nat)
    requires i < |s|
    ensures s == s[..i] + [s[i]] + s[i + 1..]
    ensures i == |s| - 1 ==> s == s[..i] + [s[i]]
  {
  }

  lemma InitPermutation(a: seq<Comment>, b: seq<Comment>, i: nat)
    requires multiset(a) == multiset(b) && a != [] && i < |b| && b[i] == a[|a| - 1]
    ensures multiset(a[..|a| - 1]) == multiset(b[..i] + b[i + 1..])
  {
    assert a == a[..|a| - 1] + [a[|a| - 1]];
    OverallSentiment.RemoveAt(b, i);
  }

  /** Adding the same comment at the end of one list and between the two halves of the other. */
  lemma CountStep(init: seq<Comment>, before: seq<Comment>, after: seq<Comment>, x: Comment, k: Bucket)
    requires Count(init, k) == Count(before + after, k)
    ensures Count(init + [x], k) == Count(before + [x] + after, k)
  {
    assert Count([x], k) == if Classify(x) == k then 1 else 0 by { assert [x][..0] == []; }
    CountAppend(init, [x], k);
    CountAppend(before + [x], after, k);
    CountAppend(before, [x], k);
    CountAppend(before, after, k);
  }

  /** The first field, in order, that is present and non-empty. */
  function FirstPresent(fields: seq<Option<string>>): (r: Option<string>)
    ensures r.Some? ==> r.value != [] && Some(r.value) in fields
    ensures r.Some? ==>
      exists i :: (0 <= i < |fields| && fields[i] == r && forall j :: 0 <= j < i ==> !Present(fields[j]))
    ensures r.None? <==> forall f :: f in fields ==> !Present(f)
  {
    if fields == [] then None
    else if Present(fields[0]) then fields[0]
    else
      var r := FirstPresent(fields[1..]);
      if r.Some? then
        ghost var i :| 0 <= i < |fields[1..]| && fields[1..][i] == r
          && forall j :: 0 <= j < i ==> !Present(fields[1..][j]);
        assert fields[i + 1] == r;
        assert forall j :: 0 < j < i + 1 ==> fields[j] == fields[1..][j - 1];
        r
      else
        r
  }

  /** The bucket a score alone selects, stated on the two scales directly. */
  function ScoreBucket(x: real): Bucket {
    if 0.0 <= x <= 1.0 then
      if x > 0.6 then Supportive else if x < 0.4 then Critical else Neutral
    else
      if x > 0.1 then Supportive else if x < -0.1 then Critical else Neutral
  }

  /**
   * The priority fallback: the first present text field decides, compared
   * without regard to ASCII case; only when none is present does the score
   * decide; with no usable score the comment is neutral.
   */
  lemma ClassifyPriority(c: Comment)
    ensures match FirstPresent([c.sentimentLabel, c.sentimentAnalysis, c.sentiment])
      case Some(t) =>
        Classify(c) == (if Lower(t) in CriticalWords then Critical
                        else if Lower(t) in SupportiveWords then Supportive else Neutral)
      case None =>
        Classify(c) == (if c.sentimentScore.Num? then ScoreBucket(c.sentimentScore.x) else Neutral)
  {
    var fields := [c.sentimentLabel, c.sentimentAnalysis, c.sentiment];
    assert fields[1..] == [c.sentimentAnalysis, c.sentiment];
    assert fields[1..][1..] == [c.sentiment];
    assert fields[1..][1..][1..] == [];
    if FirstPresent(fields).None? && c.sentimentScore.Num? {
      var x := c.sentimentScore.x;
      assert "positive" != "negative" by { assert "positive"[0] != "negative"[0]; }
      assert "positive" != "critical" && "positive" != "bad" by { assert "positive"[0] == 'p'; }
      assert "neutral" !in CriticalWords && "neutral" !in SupportiveWords;
    }
  }

  /**
   * A comment bucketed from its score alone has a normalized score on the same
   * side of the overall sentiment's neutral band.
   */
  lemma ScoreBucketAgreesWithNormalize(x: real)
    ensures ScoreBucket(x) == Supportive ==> OverallSentiment.Normalize(Num(x)) > 0.1
    ensures ScoreBucket(x) == Critical ==> OverallSentiment.Normalize(Num(x)) < -0.1
  {
  }

  /** The ratio text for comments that exist: "s:c", or which kind they all are. */
  function RatioText(supportive: nat, critical: nat): string {
    if critical > 0 && supportive > 0 then NatToString(supportive) + ":" + NatToString(critical)
    else if supportive > 0 then "All Supportive"
    else if critical > 0 then "All Critical"
    else "All Neutral"
  }

  predicate IsNotColon(ch: char) { ch != ':' }

  /** Reads "s:c" back into its two counts; anything else is not a pair of counts. */
  function ParseRatio(t: string): Option<(nat, nat)> {
    var k := Span(t, IsNotColon);
    if k == |t| || k == 0 || k + 1 == |t| || !IsDigits(t[..k]) || !IsDigits(t[k + 1..]) then None
    else Some((ParseNat(t[..k]), ParseNat(t[k + 1..])))
  }

  /** The ratio text names both counts exactly when both are positive. */
  lemma RatioTextRoundTrip(supportive: nat, critical: nat)
    ensures ParseRatio(RatioText(supportive, critical))
      == if supportive > 0 && critical > 0 then Some((supportive, critical)) else None
    ensures supportive > 0 && critical == 0 ==> RatioText(supportive, critical) == "All Supportive"
    ensures supportive == 0 && critical > 0 ==> RatioText(supportive, critical) == "All Critical"
    ensures supportive == 0 && critical == 0 ==> RatioText(supportive, critical) == "All Neutral"
  {
    var t := RatioText(supportive, critical);
    if supportive > 0 && critical > 0 {
      var a, b := NatToString(supportive), NatToString(critical);
      assert t == a + [':'] + b;
      assert Span(t, IsNotColon) == |a| by {
        SpanOverDigits(t, |a|);
      }
      assert t[..|a|] == a && t[|a| + 1..] == b;
      ParseNatToString(supportive);
      ParseNatToString(critical);
    } else {
      assert !IsDigits(t) by { assert t[0] == 'A'; }
      if Span(t, IsNotColon) < |t| {
        assert t[Span(t, IsNotColon)] == ':';
        AllLabelsHaveNoColon(t);
      }
    }
  }

  lemma SpanOverDigits(t: string, n: nat)
    requires n < |t| && IsDigits(t[..n]) && t[n] == ':'
    ensures Span(t, IsNotColon) == n
  {
    assert forall k :: 0 <= k < n ==> t[k] == t[..n][k];
    SpanStopsAt(t, IsNotColon, n);
  }

  lemma {:induction false} SpanStopsAt(t: string, p: char -> bool, n: nat)
    requires n < |t| && !p(t[n]) && forall k :: 0 <= k < n ==> p(t[k])
    ensures Span(t, p) == n
  {
    if n > 0 {
      SpanStopsAt(t[1..], p, n - 1);
    }
  }

  lemma AllLabelsHaveNoColon(t: string)
    requires t == "All Supportive" || t == "All Critical" || t == "All Neutral"
    ensures forall k :: 0 <= k < |t| ==> t[k] != ':'
  {
  }

  /** `count / total * 100`, or 0 when there is nothing to divide by. */
  function Percentage(count: nat, total: nat): real {
    if total > 0 then count as real / total as real * 100.0 else 0.0
  }

  lemma PercentagesBounded(a: nat, b: nat, total: nat)
    requires a + b <= total
    ensures 0.0 <= Percentage(a, total) && 0.0 <= Percentage(b, total)
    ensures Percentage(a, total) + Percentage(b, total) <= 100.0
  {
    if total > 0 {
      var t := total as real;
      assert Percentage(a, total) + Percentage(b, total) == (a + b) as real / t * 100.0;
      assert (a + b) as real / t <= 1.0;
    }
  }

  /** The feedback ratio the report shows for these comments. */
  function RatioOf(comments: seq<Comment>): (r: Ratio)
    ensures comments == [] ==> r == NoFeedback
    ensures r.critical == Count(comments, Critical)
    ensures r.supportive == Count(comments, Supportive)
    ensures r.neutral == Count(comments, Neutral)
    ensures r.critical + r.supportive + r.neutral == |comments|
    ensures 0.0 <= r.criticalPercentage && 0.0 <= r.supportivePercentage
    ensures r.criticalPercentage + r.supportivePercentage <= 100.0
    ensures comments != [] && r.supportive > 0 && r.critical > 0 ==>
      ParseRatio(r.ratio) == Some((r.supportive, r.critical))
    ensures comments != [] && r.supportive > 0 && r.critical == 0 ==> r.ratio == "All Supportive"
    ensures comments != [] && r.supportive == 0 && r.critical > 0 ==> r.ratio == "All Critical"
    ensures comments != [] && r.supportive == 0 && r.critical == 0 ==> r.ratio == "All Neutral"
  {
    CountPartition(comments);
    if comments == [] then NoFeedback
    else
      var critical, supportive := Count(comments, Critical), Count(comments, Supportive);
      PercentagesBounded(critical, supportive, |comments|);
      RatioTextRoundTrip(supportive, critical);
      Ratio(critical, supportive, Count(comments, Neutral), RatioText(supportive, critical),
        Percentage(critical, |comments|), Percentage(supportive, |comments|))
  }

  /** Reordering the comments does not change the feedback ratio. */
  lemma RatioPermutation(a: seq<Comment>, b: seq<Comment>)
    requires multiset(a) == multiset(b)
    ensures RatioOf(a) == RatioOf(b)
  {
    assert |a| == |multiset(a)| == |multiset(b)| == |b|;
    CountPermutation(a, b, Critical);
    CountPermutation(a, b, Supportive);
    CountPermutation(a, b, Neutral);
  }

  lemma {:induction false} CountUniform(comments: seq<Comment>, b: Bucket, other: Bucket)
    requires forall c :: c in comments ==> Classify(c) == b
    requires other != b
    ensures Count(comments, b) == |comments| && Count(comments, other) == 0
  {
    if comments != [] {
      var init := comments[..|comments| - 1];
      assert forall c :: c in init ==> c in comments;
      assert comments[|comments| - 1] in comments;
      CountUniform(init, b, other);
    }
  }

  /** When every comment is supportive the ratio reads "All Supportive" and nothing is critical. */
  lemma AllSupportive(comments: seq<Comment>)
    requires comments != []
    requires forall c :: c in comments ==> Classify(c) == Supportive
    ensures RatioOf(comments).ratio == "All Supportive"
    ensures RatioOf(comments).criticalPercentage == 0.0 && RatioOf(comments).supportivePercentage == 100.0
  {
    CountUniform(comments, Supportive, Critical);
  }

  /** Counts the comments bucket by bucket in one pass, then derives the ratio and percentages. */
  method CalculateFeedbackRatio(comments: seq<Comment>) returns (r: Ratio)
    ensures r == RatioOf(comments)
    ensures r.critical + r.supportive + r.neutral == |comments|
  {
    if comments == [] {
      return NoFeedback;
    }
    var critical, supportive, neutral := 0, 0, 0;
    for i := 0 to |comments|
      invariant critical == Count(comments[..i], Critical)
      invariant supportive == Count(comments[..i], Supportive)
      invariant neutral == Count(comments[..i], Neutral)
    {
      assert comments[..i + 1][..i] == comments[..i];
      match SentimentSignal(comments[i]) {
        case Value(v) =>
          if v != [] && v in CriticalWords {
            critical := critical + 1;
          } else if v != [] && v in SupportiveWords {
            supportive := supportive + 1;
          } else {
            neutral := neutral + 1;
          }
        case _ =>
          neutral := neutral + 1;
      }
    }
    assert comments[..|comments|] == comments;
    CountPartition(comments);
    var total := |comments|;
    var ratio := RatioText(supportive, critical);
    r := Ratio(critical, supportive, neutral, ratio, Percentage(critical, total), Percentage(supportive, total));
  }
}
