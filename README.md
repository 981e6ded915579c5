# Draft report generator — Dafny model

This project models the report-data part of the draft-feedback application's
report generator (`backend/app/utils/report_generator.py`). Given a stored
draft and the comments reviewers left on it, the generator builds one report.
The report holds:

- the draft's id and title;
- an overall sentiment: the mean of the normalised comment scores, a
  variance-based confidence and a positive/negative/neutral label;
- the comment count;
- length metrics: words, characters, sentences and words per sentence;
- a Flesch readability score with a level band and a grade;
- a critical/supportive/neutral breakdown with a ratio string and
  percentages;
- up to four actionable insight messages.

Modules, one per concern:

- `Wrappers`: `Option` and `Result`.
- `Text`: Python's `str.split()`, `str.strip()`, `re.split(r'[.!?]+', …)`,
  `str.lower()` on ASCII, and integer formatting.
- `Entities`: the stored `Draft` and `Comment` records. A comment's score is
  `Missing`, `Unparseable` (`float()` raised) or a number.
- `OverallSentiment`, `DraftMetrics`, `Readability`, `FeedbackRatio` and
  `Insights`: one module per private helper of the generator.
- `ReportGenerator`: `generate_draft_report_data`. The database is a pair of
  sequences (drafts and comments). The Flesch reading-ease and
  Flesch–Kincaid scorers are function parameters; `None` stands for the
  library raising.

The imperative parts of the source stay imperative here:

- `CalculateOverallSentiment` collects the normalised scores in a loop.
- `CalculateFeedbackRatio` counts the buckets in a loop.
- `ApplyRules` appends the insights one rule after another, as the
  straight-line `if`/`append` steps of the source do.

Each of these methods is proved against a specification function, and the
properties are proved about that function. Values that Python computes as
`float` are `real` here.

Points of the code's behaviour worth stating plainly:

- Classification prefers a sentiment field only when it is a non-empty
  string (`if comment.sentiment_label:`). A field that is present but empty
  falls through to the next field.
- The generator reads the draft text as `draft.draft` (lines 39, 40 and 224).
  The `Draft` model in `backend/app/models/draft_model.py:11-12` declares the
  text as `article` and has no `draft` attribute. The model takes the draft
  text as the record's `text` field, standing in for the attribute the code
  reads. It does not model the `AttributeError` that the declared model would
  raise there.
- The fallback message when no insight fires is "Analysis completed
  successfully".

## Model

| member | source | states |
|---|---|---|
| OverallSentiment.Normalize | backend/app/utils/report_generator.py:53-65 | A score in [0,1] maps into [-1,1]. It is positive exactly when the score is above 0.5 and negative exactly when below. Any other number passes through unchanged. A missing or unparseable score counts as 0. |
| OverallSentiment.Variance | backend/app/utils/report_generator.py:71 | The variance (0 for a single score) is never negative. |
| OverallSentiment.Summarize | backend/app/utils/report_generator.py:67-85 | With no scores the result is (0, "neutral", 0). Otherwise the score is the mean and the confidence lies in [0,1]. A single score gets confidence 1. The label is "positive" iff mean > 0.1, "negative" iff mean < -0.1, else "neutral". |
| OverallSentiment.CalculateOverallSentiment | backend/app/utils/report_generator.py:45-85 | The loop over the comments yields the summary of their normalised scores. No comments gives the neutral zero summary. The confidence lies in [0,1]. |
| OverallSentiment.SummarizePermutation | backend/app/utils/report_generator.py:70-79 | Reordering the normalised scores does not change the summary: mean, variance, confidence and label depend only on the multiset of scores. |
| OverallSentiment.CommentsPermutation | backend/app/utils/report_generator.py:45-85 | Reordering the comments does not change the overall sentiment: comment lists with equal multisets give equal summaries. |
| OverallSentiment.ScoreInRange | backend/app/utils/report_generator.py:56-70 | When every numeric score lies in [-1,1], the overall score lies in [-1,1]. |
| OverallSentiment.ThreeScoreExample | backend/app/utils/report_generator.py:56-85 | Scores 0.9, 0.1 and 0.5 normalise to 0.8, -0.8 and 0. They give mean 0, label "neutral" and confidence 1 - 1.28/3. |
| OverallSentiment.SumByPermutation | backend/app/utils/report_generator.py:70-71 | A sum over the scores, as used for the mean and the variance, is invariant under permutation. |
| DraftMetrics.DraftLength | backend/app/utils/report_generator.py:87-101 | An empty draft gives all zeros. Otherwise: characters is the text length, words is the number of whitespace-separated words, sentences is the number of non-blank pieces (at least 1), and the average is words / sentences. |
| DraftMetrics.SentencesIff | backend/app/utils/report_generator.py:94-99 | At least one sentence is counted exactly when the text has a character that is neither whitespace nor one of `.!?`. Otherwise the floor of 1 applies. |
| DraftMetrics.WordsAreWordStarts | backend/app/utils/report_generator.py:92 | The word count equals the number of positions where a non-space character follows a space or the start of the text. |
| DraftMetrics.SegmentsConcat | backend/app/utils/report_generator.py:94 | Splitting on runs of `.!?` loses only the terminators: the pieces joined give the text without them. |
| Text.Strip | backend/app/utils/report_generator.py:105 | `strip()` returns the contiguous slice of the text that starts after the leading whitespace and has only whitespace after it. Both its ends are non-space, and it is empty exactly when the text is all whitespace. |
| Text.WordsConcat | backend/app/utils/report_generator.py:92 | The words of `split()` joined together are the text with its whitespace removed. |
| Text.WordsCount | backend/app/utils/report_generator.py:92 | `len(split())` is the number of word starts in the text. |
| Text.Segments | backend/app/utils/report_generator.py:94 | `re.split(r'[.!?]+', …)` yields at least one piece, and no piece holds `.`, `!` or `?`. |
| Text.Separators | backend/app/utils/report_generator.py:94 | The runs the split cuts at are each non-empty and made only of `.`, `!` and `?`. |
| Text.SegmentsInterleave | backend/app/utils/report_generator.py:94 | The split cuts exactly at the maximal terminator runs. There is one piece more than runs, and the pieces alternated with the runs rebuild the text. Every piece between two runs is non-empty, so only the first and the last piece can be empty. Since no piece holds a terminator and every run is non-empty, this fixes the pieces, and so the number of sentences. |
| Text.ParseNatToString | backend/app/utils/report_generator.py:196 | Integer formatting is decimal digits without leading zeros, and parsing reads it back. |
| Readability.LevelBands | backend/app/utils/report_generator.py:111-124 | A score gets a level exactly when it lies in that level's half-open band: ≥90 very-easy, [80,90) easy, [70,80) fairly-easy, [60,70) standard, [50,60) fairly-difficult, [30,50) difficult, <30 very-difficult. The boundaries are inclusive below. |
| Readability.LevelMonotone | backend/app/utils/report_generator.py:111-124 | A higher reading-ease score never gets a harder level. |
| Readability.DefaultDisagreesWithBands | backend/app/utils/report_generator.py:103-132 | The fallback (score 50.0, level "standard") names a level different from the band 50.0 falls in. |
| Readability.ReadabilityOf | backend/app/utils/report_generator.py:103-132 | An empty text, or one under 10 characters once stripped, gets the default (50.0, "standard", 8.0). So does a text for which either scorer fails. Otherwise the result is the reading-ease score, its band's level and the grade. |
| FeedbackRatio.FirstPresent | backend/app/utils/report_generator.py:153-158 | Returns the first candidate that is present and non-empty: every earlier candidate is absent or empty. It finds none exactly when every candidate is absent or empty. |
| FeedbackRatio.ClassifyPriority | backend/app/utils/report_generator.py:150-190 | The first non-empty of sentiment_label, sentiment_analysis and sentiment decides the bucket by its lower-cased text: negative/critical/bad is critical, positive/supportive/good is supportive, anything else is neutral. Otherwise the score decides, on the 0–1 scale (>0.6, <0.4) or the signed scale (>0.1, <-0.1). An unparseable score or no signal at all counts as neutral. |
| FeedbackRatio.ScoreBucketAgreesWithNormalize | backend/app/utils/report_generator.py:159-175 | A score bucketed as supportive normalises above 0.1 and one bucketed as critical normalises below -0.1. The two helpers agree in sign. |
| FeedbackRatio.CountPartition | backend/app/utils/report_generator.py:146-192 | Every comment falls in exactly one bucket: the three counts add up to the number of comments. |
| FeedbackRatio.CountAppend | backend/app/utils/report_generator.py:148-190 | Counting a bucket over two lists joined is the sum of the counts over each. |
| FeedbackRatio.CountPermutation | backend/app/utils/report_generator.py:148-190 | The count of each bucket depends only on the multiset of comments, not on their order. |
| FeedbackRatio.RatioTextRoundTrip | backend/app/utils/report_generator.py:195-202 | When both counts are positive, the ratio string parses back to (supportive, critical). Otherwise it does not parse as a pair. It is "All Supportive" when only supportive is positive, "All Critical" when only critical is positive, and "All Neutral" when both are zero. |
| FeedbackRatio.PercentagesBounded | backend/app/utils/report_generator.py:209-210 | The critical and supportive percentages are non-negative and sum to at most 100. |
| FeedbackRatio.RatioOf | backend/app/utils/report_generator.py:134-211 | No comments gives the "N/A" zero result. Otherwise the three fields are the bucket counts, and the percentages lie in [0,100] with a sum of at most 100. The ratio string parses back to (supportive, critical) when both are positive. It reads "All Supportive", "All Critical" or "All Neutral" by which of the two counts are zero; neutral comments do not matter. |
| FeedbackRatio.RatioPermutation | backend/app/utils/report_generator.py:134-211 | Reordering the comments does not change the feedback ratio: counts, ratio string and percentages are the same for comment lists with equal multisets. |
| FeedbackRatio.AllSupportive | backend/app/utils/report_generator.py:195-210 | If every comment is supportive, the ratio reads "All Supportive" with 0% critical and 100% supportive. |
| FeedbackRatio.CalculateFeedbackRatio | backend/app/utils/report_generator.py:134-211 | The counting loop yields the feedback ratio of the comments, and its three counts sum to the number of comments. |
| Insights.Fired | backend/app/utils/report_generator.py:226-250 | At most four rules fire: at most one message from each of the four groups. |
| Insights.ApplyRules | backend/app/utils/report_generator.py:226-255 | The appended list is the fired rule messages in group order. When none fired it is the single "analysis completed" message. |
| Insights.ShownIff | backend/app/utils/report_generator.py:226-255 | For each message, it is shown exactly when its condition holds and no earlier branch of its group took precedence. "Analysis completed" is shown exactly when no rule fires. "No feedback yet" is never shown by the rules. |
| Insights.FiredInGroupOrder | backend/app/utils/report_generator.py:226-250 | The fired messages follow the group order: sentiment, ratio, engagement, length. |
| Insights.GroupsInOrder | backend/app/utils/report_generator.py:226-255 | For a draft with comments, the insights shown keep the group order and come from four groups at most. |
| Insights.InsightsIff | backend/app/utils/report_generator.py:213-255 | For a draft with comments, each message is shown exactly when its rule holds on that draft's overall sentiment score, bucket counts, comment count and word count. |
| Insights.InsightsOf | backend/app/utils/report_generator.py:213-255 | There is always at least one insight and never more than four. |
| Insights.InsightsPermutation | backend/app/utils/report_generator.py:213-255 | Reordering the comments does not change the insights shown. |
| Insights.GenerateInsights | backend/app/utils/report_generator.py:213-255 | The method computes the messages of the insights of the comments and text: one to four of them, and just "No feedback yet" when there are no comments. |
| ReportGenerator.FindDraft | backend/app/utils/report_generator.py:17-23 | Finds nothing exactly when no stored draft has the requested id and owner. Otherwise it returns the first such draft in store order. |
| ReportGenerator.CommentsFor | backend/app/utils/report_generator.py:25-29 | Only comments of the requested draft are selected, and never more than are stored. |
| ReportGenerator.CommentsForExact | backend/app/utils/report_generator.py:25-29 | Each comment of the requested draft is selected as often as it is stored, and no other comment is selected. |
| ReportGenerator.GenerateDraftReportData | backend/app/utils/report_generator.py:14-43 | Fails with "draft not found" exactly when no draft has that id and owner. Otherwise it returns the report of the first such draft over that draft's comments, with the requested id, the comment count and the summary-or-"Untitled Draft" title. |
| ReportGenerator.ReportPermutation | backend/app/utils/report_generator.py:26-43 | The comment query has no ordering, so its rows may come in any order. Every such order gives the same report: sentiment, count, ratio and insights depend only on the multiset of comments. |

## Left out

- Rounding: Python's `round()` is not modelled. Scores, confidences, averages and percentages are exact reals.
- OverallSentiment.Summarize: the score and confidence are the unrounded values, not `round(…, 3)`.
- DraftMetrics.DraftLength: the average is exact, not `round(…, 1)`.
- Readability.ReadabilityOf: score and grade are exact, not `round(…, 1)`.
- FeedbackRatio.RatioOf: the percentages are exact, not `round(…, 1)`.
- Insights.InsightsOf: the thresholds compare against the unrounded mean. The source compares the 3-decimal rounded score, which differs only for means within 0.0005 of ±0.1 and ±0.3.
- Floating point: there is no NaN, infinity, overflow or binary rounding. `float()` either yields a real or raises; raising is `Unparseable`.
- Lower-casing folds ASCII letters only. Python's `str.lower()` also folds the rest of Unicode; every label the classifier matches is ASCII.
- The Flesch reading-ease and Flesch–Kincaid formulas of `textstat` are not modelled. They are parameters of the model.
- The insights exception branch ("Basic analysis completed …", lines 252-253) is not modelled. In the model the helpers it guards are total. In the code, the `draft.draft` read at line 224 would raise on the declared `Draft` model, and the branch would then be taken; see the note on `draft.draft` above.
- Insights.Insight.Message: the messages do not use the characters as they appear in `report_generator.py`. There each message begins with mojibake: UTF-8 emoji bytes shown as Mac Roman characters, for example U+F8FF U+00FC U+00EC U+00F9 at line 218 and U+201A U+00F6 U+2020 U+00D4 U+220F U+00E8 at line 228. The model uses the emoji those characters decode to, for example U+1F4DD and U+26A0 U+FE0F. The rest of each message is the literal text.
- The `created_date` field (line 35) is left out; it is a `strftime` formatting of a timestamp the model does not carry.
- The database session, the async queries and the UUID type are not modelled. The store is a sequence per table and ids are naturals. `.first()` without an ordering is taken as the first record in sequence order. The comment query has no ordering either; the model reads comments in store order, and `ReportPermutation` shows that any other order gives the same report.
- HTML and PDF rendering (`generate_html_report`, `html_to_pdf`, lines 257-364) is left out: it is template text and a foreign library.
- The routers, controllers, agents and schemas of the application, and the choice of output format, are not part of this model.
