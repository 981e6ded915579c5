/**
 * Readability of a draft: a Flesch Reading Ease score put into one of seven
 * bands, with a fixed default for very short text or a scorer failure. The
 * two scoring formulas belong to an outside library and are parameters here:
 * each returns `None` where the library raises.
 */
module Readability {
  import opened Wrappers
  import opened Text

  datatype Level = VeryEasy | Easy | FairlyEasy | Standard | FairlyDifficult | Difficult | VeryDifficult {
    function Name(): string {
      match this
      case VeryEasy => "very-easy"
      case Easy => "easy"
      case FairlyEasy => "fairly-easy"
      case Standard => "standard"
      case FairlyDifficult => "fairly-difficult"
      case Difficult => "difficult"
      case VeryDifficult => "very-difficult"
    }

    /** Position from the hardest band (0) to the easiest (6). */
    function Rank(): nat {
      match this
      case VeryDifficult => 0
      case Difficult => 1
      case FairlyDifficult => 2
      case Standard => 3
      case FairlyEasy => 4
      case Easy => 5
      case VeryEasy => 6
    }

    /** Inclusive lower bound of the band; the hardest band has none. */
    function Floor(): Option<real> {
      match this
      case VeryEasy => Some(90.0)
      case Easy => Some(80.0)
      case FairlyEasy => Some(70.0)
      case Standard => Some(60.0)
      case FairlyDifficult => Some(50.0)
      case Difficult => Some(30.0)
      case VeryDifficult => None
    }
  }

  datatype ReadabilityScore = ReadabilityScore(score: real, level: string, gradeLevel: real)

  /** The report's readability when the text is too short or the scorer fails. */
  const Default := ReadabilityScore(50.0, "standard", 8.0)

  function LevelOf(score: real): Level {
    if score >= 90.0 then VeryEasy
    else if score >= 80.0 then Easy
    else if score >= 70.0 then FairlyEasy
    else if score >= 60.0 then Standard
    else if score >= 50.0 then FairlyDifficult
    else if score >= 30.0 then Difficult
    else VeryDifficult
  }

  /** The band one step easier, if any. */
  function Easier(l: Level): Option<Level> {
    match l
    case VeryEasy => None
    case Easy => Some(VeryEasy)
    case FairlyEasy => Some(Easy)
    case Standard => Some(FairlyEasy)
    case FairlyDifficult => Some(Standard)
    case Difficult => Some(FairlyDifficult)
    case VeryDifficult => Some(Difficult)
  }

  /** `score` lies in band `l`: at or above its floor and below the next band's floor. */
  predicate InBand(score: real, l: Level) {
    && (l.Floor().Some? ==> l.Floor().value <= score)
    && (Easier(l).Some? ==> score < Easier(l).value.Floor().value)
  }

  /** Each score falls into exactly one band, and that band is the one the if-chain picks. */
  lemma LevelBands(score: real, l: Level)
    ensures LevelOf(score) == l <==> InBand(score, l)
    ensures LevelOf(80.0) == Easy && LevelOf(79.9) == FairlyEasy
  {
  }

  /** A higher reading-ease score never gives a harder band. */
  lemma LevelMonotone(a: real, b: real)
    requires a <= b
    ensures LevelOf(a).Rank() <= LevelOf(b).Rank()
  {
  }

  /** The default's level is not the band its own score falls in. */
  lemma DefaultDisagreesWithBands()
    ensures LevelOf(Default.score).Name() != Default.level
  {
    assert LevelOf(50.0) == FairlyDifficult;
    assert |FairlyDifficult.Name()| != |"standard"|;
  }

  function ReadabilityOf(text: string, ease: string -> Option<real>, grade: string -> Option<real>): (r: ReadabilityScore)
    ensures text == [] || |Strip(text)| < 10 ==> r == Default
    ensures ease(text).None? || grade(text).None? ==> r == Default
    ensures text != [] && |Strip(text)| >= 10 && ease(text).Some? && grade(text).Some? ==>
      && r.score == ease(text).value
      && r.level == LevelOf(ease(text).value).Name()
      && r.gradeLevel == grade(text).value
  {
    if text == [] || |Strip(text)| < 10 then Default
    else
      match ease(text)
      case None => Default
      case Some(flesch) =>
        match grade(text)
        case None => Default
        case Some(g) => ReadabilityScore(flesch, LevelOf(flesch).Name(), g)
  }
}
