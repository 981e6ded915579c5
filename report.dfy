/**
 * Report assembly: find the caller's draft, gather its comments and compose
 * the report record from the analyses.
 */
module ReportGenerator {
  import opened Wrappers
  import opened Entities
  import opened OverallSentiment
  import opened FeedbackRatio
  import opened DraftMetrics
  import opened Readability
  import opened Insights

  datatype DraftInfo = DraftInfo(id: Id, title: string)

  datatype Report = Report(
    draftInfo: DraftInfo,
    overallSentiment: Summary,
    commentCount: nat,
    draftLength: LengthMetrics,
    readabilityScore: ReadabilityScore,
    feedbackRatio: Ratio,
    actionableInsights: seq<string>)

  /** The lookup found no draft with this id owned by this user. */
  datatype ReportError = DraftNotFound

  predicate Owned(d: DraftRecord, draftId: Id, userId: Id) {
    d.id == draftId && d.userId == userId
  }

  /** The first stored draft with this id and owner, if any. */
  function FindDraft(drafts: seq<DraftRecord>, draftId: Id, userId: Id): (r: Option<DraftRecord>)
    ensures r.None? <==> forall d :: d in drafts ==> !Owned(d, draftId, userId)
    ensures r.Some? ==>
      exists i :: (0 <= i < |drafts| && drafts[i] == r.value && Owned(drafts[i], draftId, userId)
                   && forall j :: 0 <= j < i ==> !Owned(drafts[j], draftId, userId))
  {
    if drafts == [] then None
    else if Owned(drafts[0], draftId, userId) then Some(drafts[0])
    else
      var r := FindDraft(drafts[1..], draftId, userId);
      if r.Some? then
        ghost var i :| 0 <= i < |drafts[1..]| && drafts[1..][i] == r.value && Owned(drafts[1..][i], draftId, userId)
          && forall j :: 0 <= j < i ==> !Owned(drafts[1..][j], draftId, userId);
        assert drafts[i + 1] == r.value;
        assert forall j :: 0 < j < i + 1 ==> drafts[j] == drafts[1..][j - 1];
        r
      else
        assert forall d :: d in drafts[1..] ==> !Owned(d, draftId, userId);
        r
  }

  /** The comments stored for a draft, in store order. */
  function CommentsFor(comments: seq<Comment>, draftId: Id): (r: seq<Comment>)
    ensures |r| <= |comments|
    ensures forall c :: c in r ==> c.draftId == draftId
  {
    if comments == [] then []
    else (if comments[0].draftId == draftId then [comments[0]] else []) + CommentsFor(comments[1..], draftId)
  }

  /** A draft's comments are exactly the stored comments that reference it, with their multiplicities. */
  lemma {:induction false} CommentsForExact(comments: seq<Comment>, draftId: Id, c: Comment)
    ensures multiset(CommentsFor(comments, draftId))[c] == if c.draftId == draftId then multiset(comments)[c] else 0
  {
    if comments != [] {
      CommentsForExact(comments[1..], draftId, c);
      assert comments == [comments[0]] + comments[1..];
      assert multiset(comments) == multiset([comments[0]]) + multiset(comments[1..]);
    }
  }

  /** The title shown: the summary when it is present and non-empty, else a fixed placeholder. */
  function Title(summary: Option<string>): string {
    if summary.Some? && summary.value != [] then summary.value else "Untitled Draft"
  }

  /** The report for one draft and its comments, with the two readability scorers as parameters. */
  function ReportOf(draft: DraftRecord, comments: seq<Comment>,
                    ease: string -> Option<real>, grade: string -> Option<real>): Report
  {
    Report(
      DraftInfo(draft.id, Title(draft.summary)),
      SentimentOf(comments),
      |comments|,
      DraftLength(draft.text),
      ReadabilityOf(draft.text, ease, grade),
      RatioOf(comments),
      Messages(InsightsOf(comments, draft.text)))
  }

  /** The report depends only on which comments the draft has, not on the order the store returns them in. */
  lemma ReportPermutation(draft: DraftRecord, a: seq<Comment>, b: seq<Comment>,
                          ease: string -> Option<real>, grade: string -> Option<real>)
    requires multiset(a) == multiset(b)
    ensures ReportOf(draft, a, ease, grade) == ReportOf(draft, b, ease, grade)
  {
    assert |a| == |multiset(a)| == |multiset(b)| == |b|;
    CommentsPermutation(a, b);
    RatioPermutation(a, b);
    InsightsPermutation(a, b, draft.text);
  }

  /**
   * Looks up the draft by id and owner (failing when there is none), reads
   * its comments and composes the report.
   */
  method GenerateDraftReportData(drafts: seq<DraftRecord>, comments: seq<Comment>, draftId: Id, userId: Id,
                                 ease: string -> Option<real>, grade: string -> Option<real>)
    returns (r: Result<Report, ReportError>)
    ensures r.Failure? <==> forall d :: d in drafts ==> !Owned(d, draftId, userId)
    ensures r.Failure? ==> r.error == DraftNotFound
    ensures r.Success? ==>
      (FindDraft(drafts, draftId, userId).Some?
       && r.value == ReportOf(FindDraft(drafts, draftId, userId).value, CommentsFor(comments, draftId), ease, grade))
    ensures r.Success? ==>
      (r.value.draftInfo.id == draftId
       && r.value.commentCount == |CommentsFor(comments, draftId)|
       && r.value.draftInfo.title == Title(FindDraft(drafts, draftId, userId).value.summary))
  {
    var found := FindDraft(drafts, draftId, userId);
    if found.None? {
      return Failure(DraftNotFound);
    }
    var draft := found.value;
    var draftComments := CommentsFor(comments, draftId);
    var sentiment := CalculateOverallSentiment(draftComments);
    var ratio := CalculateFeedbackRatio(draftComments);
    var insights := GenerateInsights(draftComments, draft.text);
    r := Success(Report(
      DraftInfo(draft.id, Title(draft.summary)),
      sentiment,
      |draftComments|,
      DraftLength(draft.text),
      ReadabilityOf(draft.text, ease, grade),
      ratio,
      insights));
  }
}
