/**
 * Actionable insights: four rule groups (sentiment, ratio, engagement,
 * length) evaluated in a fixed order, each adding at most one message.
 */
module Insights {
  import opened Entities
  import opened OverallSentiment
  import opened FeedbackRatio
  import opened DraftMetrics

  datatype Insight =
    | NoFeedbackYet
    | StrongNegative | MixedFeedback | ExcellentReception
    | HighCritical | StrongPositive
    | SeekMoreReviewers | RichFeedback
    | AddDetail | SplitSections
    | AnalysisCompleted
  {
    function Message(): string {
      match this
      case NoFeedbackYet => "\U{1F4DD} No feedback yet - consider sharing your draft with more reviewers"
      case StrongNegative => "\U{26A0}\U{FE0F} Strong negative sentiment detected - review and address major concerns"
      case MixedFeedback => "\U{1F4CB} Mixed feedback - analyze critical comments for improvement areas"
      case ExcellentReception => "\U{2705} Excellent reception! Consider finalizing the draft"
      case HighCritical => "\U{1F50D} High critical feedback - prioritize addressing recurring concerns"
      case StrongPositive => "\U{1F3AF} Strong positive reception - ready for next phase"
      case SeekMoreReviewers => "\U{1F465} Seek more reviewers for comprehensive feedback"
      case RichFeedback => "\U{1F4CA} Rich feedback collected - analyze patterns for improvements"
      case AddDetail => "\U{1F4CF} Consider adding more detailed content and examples"
      case SplitSections => "\U{2702}\U{FE0F} Consider breaking into sections for better readability"
      case AnalysisCompleted => "\U{1F4DD} Analysis completed successfully"
    }

    /** The rule group a message comes from, in evaluation order; 0 for the two stand-alone messages. */
    function Group(): nat {
      match this
      case StrongNegative | MixedFeedback | ExcellentReception => 1
      case HighCritical | StrongPositive => 2
      case SeekMoreReviewers | RichFeedback => 3
      case AddDetail | SplitSections => 4
      case _ => 0
    }
  }

  function SentimentRule(score: real): seq<Insight> {
    if score < -0.3 then [StrongNegative]
    else if score < -0.1 then [MixedFeedback]
    else if score > 0.3 then [ExcellentReception]
    else []
  }

  function RatioRule(critical: nat, supportive: nat): seq<Insight> {
    if critical > supportive * 2 then [HighCritical]
    else if supportive > critical * 3 then [StrongPositive]
    else []
  }

  function EngagementRule(count: nat): seq<Insight> {
    if count < 3 then [SeekMoreReviewers] else if count > 20 then [RichFeedback] else []
  }

  function LengthRule(words: nat): seq<Insight> {
    if words < 100 then [AddDetail] else if words > 2000 then [SplitSections] else []
  }

  /** The messages the four groups add, in evaluation order. */
  function Fired(score: real, critical: nat, supportive: nat, count: nat, words: nat): (fired: seq<Insight>)
    ensures |fired| <= 4
  {
    SentimentRule(score) + RatioRule(critical, supportive) + EngagementRule(count) + LengthRule(words)
  }

  /** The first four fired messages, or the success message when none fired. */
  function Shown(fired: seq<Insight>): seq<Insight> {
    if fired == [] then [AnalysisCompleted] else fired[..if |fired| < 4 then |fired| else 4]
  }

  /** The insights the report shows for a draft's comments and text. */
  function InsightsOf(comments: seq<Comment>, text: string): (r: seq<Insight>)
    ensures 1 <= |r| <= 4
  {
    if comments == [] then [NoFeedbackYet]
    else
      Shown(Fired(SentimentOf(comments).score, Count(comments, Critical), Count(comments, Supportive),
        |comments|, DraftLength(text).words))
  }

  /** Reordering the comments does not change the insights. */
  lemma InsightsPermutation(a: seq<Comment>, b: seq<Comment>, text: string)
    requires multiset(a) == multiset(b)
    ensures InsightsOf(a, text) == InsightsOf(b, text)
  {
    assert |a| == |multiset(a)| == |multiset(b)| == |b|;
    CommentsPermutation(a, b);
    CountPermutation(a, b, Critical);
    CountPermutation(a, b, Supportive);
  }

  function Messages(insights: seq<Insight>): (ms: seq<string>)
    ensures |ms| == |insights|
  {
    seq(|insights|, k requires 0 <= k < |insights| => insights[k].Message())
  }

  /**
   * Computes sentiment, ratio and length for a draft with comments, then
   * applies the rules; a draft without comments gets the single "no feedback
   * yet" message.
   */
  method GenerateInsights(comments: seq<Comment>, text: string) returns (insights: seq<string>)
    ensures insights == Messages(InsightsOf(comments, text))
    ensures 1 <= |insights| <= 4
    ensures comments == [] ==> insights == [NoFeedbackYet.Message()]
  {
    if comments == [] {
      insights := [NoFeedbackYet.Message()];
      assert insights == Messages([NoFeedbackYet]);
      return;
    }
    var sentimentData := CalculateOverallSentiment(comments);
    var feedbackRatio := CalculateFeedbackRatio(comments);
    var draftLength := DraftLength(text);
    var shown := ApplyRules(sentimentData.score, feedbackRatio.critical, feedbackRatio.supportive,
      |comments|, draftLength.words);
    insights := Messages(shown);
  }

  /**
   * Runs the four rule groups in order, appending at most one message per
   * group, and keeps the first four messages, or the success message when
   * none fired.
   */
  method ApplyRules(score: real, critical: nat, supportive: nat, count: nat, words: nat)
    returns (insights: seq<Insight>)
    ensures insights == Shown(Fired(score, critical, supportive, count, words))
  {
    insights := [];
    if score < -0.3 {
      insights := insights + [StrongNegative];
    } else if score < -0.1 {
      insights := insights + [MixedFeedback];
    } else if score > 0.3 {
      insights := insights + [ExcellentReception];
    }
    assert insights == SentimentRule(score);

    ghost var before := insights;
    if critical > supportive * 2 {
      insights := insights + [HighCritical];
    } else if supportive > critical * 3 {
      insights := insights + [StrongPositive];
    }
    assert insights == before + RatioRule(critical, supportive);

    before := insights;
    if count < 3 {
      insights := insights + [SeekMoreReviewers];
    } else if count > 20 {
      insights := insights + [RichFeedback];
    }
    assert insights == before + EngagementRule(count);

    before := insights;
    if words < 100 {
      insights := insights + [AddDetail];
    } else if words > 2000 {
      insights := insights + [SplitSections];
    }
    assert insights == before + LengthRule(words);
    assert insights == Fired(score, critical, supportive, count, words);

    if insights == [] {
      insights := [AnalysisCompleted];
    } else {
      insights := insights[..if |insights| < 4 then |insights| else 4];
    }
  }

  predicate InGroupOrder(r: seq<Insight>) {
    forall i, j :: 0 <= i < j < |r| ==> r[i].Group() < r[j].Group()
  }

  predicate GroupsWithin(r: seq<Insight>, lo: nat, hi: nat) {
    forall x :: x in r ==> lo <= x.Group() <= hi
  }

  lemma AppendInGroupOrder(a: seq<Insight>, b: seq<Insight>, lo: nat, mid: nat, hi: nat)
    requires lo <= mid < hi
    requires InGroupOrder(a) && InGroupOrder(b)
    requires GroupsWithin(a, lo, mid) && GroupsWithin(b, mid + 1, hi)
    ensures InGroupOrder(a + b) && GroupsWithin(a + b, lo, hi)
  {
    forall i, j | 0 <= i < j < |a + b| ensures (a + b)[i].Group() < (a + b)[j].Group() {
      if j >= |a| && i < |a| {
        assert (a + b)[i] in a && (a + b)[j] in b;
      }
    }
  }

  /** The fired messages come one per group at most, in rule order. */
  lemma FiredInGroupOrder(score: real, critical: nat, supportive: nat, count: nat, words: nat)
    ensures InGroupOrder(Fired(score, critical, supportive, count, words))
    ensures GroupsWithin(Fired(score, critical, supportive, count, words), 1, 4)
  {
    var a, b := SentimentRule(score), RatioRule(critical, supportive);
    var e, l := EngagementRule(count), LengthRule(words);
    AppendInGroupOrder(a, b, 1, 1, 2);
    AppendInGroupOrder(a + b, e, 1, 2, 3);
    AppendInGroupOrder(a + b + e, l, 1, 3, 4);
  }

  /** The groups of the shown messages strictly increase: at most one per group, in rule order. */
  lemma GroupsInOrder(comments: seq<Comment>, text: string)
    requires comments != []
    ensures var r := InsightsOf(comments, text);
      r == [AnalysisCompleted] || (InGroupOrder(r) && GroupsWithin(r, 1, 4))
  {
    var fired := Fired(SentimentOf(comments).score, Count(comments, Critical), Count(comments, Supportive),
      |comments|, DraftLength(text).words);
    FiredInGroupOrder(SentimentOf(comments).score, Count(comments, Critical), Count(comments, Supportive),
      |comments|, DraftLength(text).words);
    assert fired != [] ==> fired[..|fired|] == fired;
  }

  /**
   * The rules of the insight list, stated per message: each message is in `r`
   * exactly when its condition holds and no earlier branch of its group won;
   * the success message exactly when no rule fired.
   */
  predicate ShownExactly(r: seq<Insight>, score: real, critical: nat, supportive: nat, n: nat, words: nat) {
    && (StrongNegative in r <==> score < -0.3)
    && (MixedFeedback in r <==> -0.3 <= score < -0.1)
    && (ExcellentReception in r <==> score > 0.3)
    && (HighCritical in r <==> critical > supportive * 2)
    && (StrongPositive in r <==> critical <= supportive * 2 && supportive > critical * 3)
    && (SeekMoreReviewers in r <==> n < 3)
    && (RichFeedback in r <==> n > 20)
    && (AddDetail in r <==> words < 100)
    && (SplitSections in r <==> words > 2000)
    && (AnalysisCompleted in r <==>
          -0.1 <= score <= 0.3 && critical <= supportive * 2 && supportive <= critical * 3
          && 3 <= n <= 20 && 100 <= words <= 2000)
    && NoFeedbackYet !in r
  }

  /** Which messages fire, stated per message on the rule inputs. */
  lemma ShownIff(score: real, critical: nat, supportive: nat, n: nat, words: nat)
    ensures ShownExactly(Shown(Fired(score, critical, supportive, n, words)), score, critical, supportive, n, words)
  {
    SentimentShown(score, critical, supportive, n, words);
    RatioShown(score, critical, supportive, n, words);
    EngagementShown(score, critical, supportive, n, words);
    LengthShown(score, critical, supportive, n, words);
    CompletedShown(score, critical, supportive, n, words);
  }

  lemma SentimentShown(score: real, critical: nat, supportive: nat, n: nat, words: nat)
    ensures var r := Shown(Fired(score, critical, supportive, n, words));
      && (StrongNegative in r <==> score < -0.3)
      && (MixedFeedback in r <==> -0.3 <= score < -0.1)
      && (ExcellentReception in r <==> score > 0.3)
  {
    ShownMembers(StrongNegative, score, critical, supportive, n, words);
    ShownMembers(MixedFeedback, score, critical, supportive, n, words);
    ShownMembers(ExcellentReception, score, critical, supportive, n, words);
  }

  lemma RatioShown(score: real, critical: nat, supportive: nat, n: nat, words: nat)
    ensures var r := Shown(Fired(score, critical, supportive, n, words));
      && (HighCritical in r <==> critical > supportive * 2)
      && (StrongPositive in r <==> critical <= supportive * 2 && supportive > critical * 3)
  {
    ShownMembers(HighCritical, score, critical, supportive, n, words);
    ShownMembers(StrongPositive, score, critical, supportive, n, words);
  }

  lemma EngagementShown(score: real, critical: nat, supportive: nat, n: nat, words: nat)
    ensures var r := Shown(Fired(score, critical, supportive, n, words));
      && (SeekMoreReviewers in r <==> n < 3)
      && (RichFeedback in r <==> n > 20)
  {
    ShownMembers(SeekMoreReviewers, score, critical, supportive, n, words);
    ShownMembers(RichFeedback, score, critical, supportive, n, words);
  }

  lemma LengthShown(score: real, critical: nat, supportive: nat, n: nat, words: nat)
    ensures var r := Shown(Fired(score, critical, supportive, n, words));
      && (AddDetail in r <==> words < 100)
      && (SplitSections in r <==> words > 2000)
  {
    ShownMembers(AddDetail, score, critical, supportive, n, words);
    ShownMembers(SplitSections, score, critical, supportive, n, words);
  }

  lemma CompletedShown(score: real, critical: nat, supportive: nat, n: nat, words: nat)
    ensures var r := Shown(Fired(score, critical, supportive, n, words));
      && (AnalysisCompleted in r <==>
            -0.1 <= score <= 0.3 && critical <= supportive * 2 && supportive <= critical * 3
            && 3 <= n <= 20 && 100 <= words <= 2000)
      && NoFeedbackYet !in r
  {
    ShownMembers(AnalysisCompleted, score, critical, supportive, n, words);
    ShownMembers(NoFeedbackYet, score, critical, supportive, n, words);
    var a, b := SentimentRule(score), RatioRule(critical, supportive);
    var e, l := EngagementRule(n), LengthRule(words);
    assert Fired(score, critical, supportive, n, words) == ((a + b) + e) + l;
    assert |Fired(score, critical, supportive, n, words)| == |a| + |b| + |e| + |l|;
  }

  lemma ShownMembers(x: Insight, score: real, critical: nat, supportive: nat, n: nat, words: nat)
    ensures var fired := Fired(score, critical, supportive, n, words);
      (x in Shown(fired)) == ((fired == [] && x == AnalysisCompleted)
        || x in SentimentRule(score) || x in RatioRule(critical, supportive)
        || x in EngagementRule(n) || x in LengthRule(words))
  {
    var fired := Fired(score, critical, supportive, n, words);
    assert fired != [] ==> fired[..|fired|] == fired;
    FiredMembers(x, score, critical, supportive, n, words);
  }

  lemma FiredMembers(x: Insight, score: real, critical: nat, supportive: nat, n: nat, words: nat)
    ensures x in Fired(score, critical, supportive, n, words) <==>
      x in SentimentRule(score) || x in RatioRule(critical, supportive) || x in EngagementRule(n) || x in LengthRule(words)
  {
    var a, b := SentimentRule(score), RatioRule(critical, supportive);
    var e, l := EngagementRule(n), LengthRule(words);
    assert Fired(score, critical, supportive, n, words) == ((a + b) + e) + l;
  }

  /**
   * Which messages are shown, for a draft with comments: each rule's message
   * appears exactly when its condition holds and no earlier branch of the
   * same group took precedence; the success message appears exactly when no
   * rule fired.
   */
  lemma InsightsIff(comments: seq<Comment>, text: string)
    requires comments != []
    ensures ShownExactly(InsightsOf(comments, text), SentimentOf(comments).score,
      Count(comments, Critical), Count(comments, Supportive), |comments|, DraftLength(text).words)
  {
    ShownIff(SentimentOf(comments).score, Count(comments, Critical), Count(comments, Supportive),
      |comments|, DraftLength(text).words);
  }
}
