/**
 * The records the report generator reads: a stored draft and a stored comment.
 * Identities are UUIDs in the repository and are modelled as naturals.
 */
module Entities {
  import opened Wrappers

  type Id = nat

  /** The comment's `sentiment_score` text: absent, not a number, or a number. */
  datatype Score = Missing | Unparseable | Num(x: real)

  /**
   * A comment as the report generator sees it. The three sentiment text
   * fields are the ones it probes in priority order; any of them may be
   * absent (`None` or no such attribute).
   */
  datatype Comment = Comment(
    id: Id,
    draftId: Id,
    text: string,
    sentimentLabel: Option<string>,
    sentimentAnalysis: Option<string>,
    sentiment: Option<string>,
    sentimentScore: Score)

  /** A stored draft: its owner, its text body and the optional generated summary. */
  datatype DraftRecord = DraftRecord(id: Id, userId: Id, text: string, summary: Option<string>)
}
