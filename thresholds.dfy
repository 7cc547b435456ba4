/**
 * `interpret(score, thresholds)` and the three fixed threshold tables that
 * `run_survey` applies to the overall, competitive and single-player scores.
 */
module Thresholds {
  import opened Wrappers
  import opened Errors

  /** One `(bound, message)` pair of a threshold table. */
  datatype Threshold<M> = Threshold(bound: int, message: M)

  /** Bounds strictly decrease along the table. */
  predicate Descending<M>(t: seq<Threshold<M>>) {
    forall i, j :: 0 <= i < j < |t| ==> t[i].bound > t[j].bound
  }

  /**
   * The position of the first pair, in list order, whose bound is at most
   * `score`; `|t|` when there is none.
   */
  function FirstMatch<M>(score: int, t: seq<Threshold<M>>): (k: nat)
    ensures k <= |t|
    ensures forall j :: 0 <= j < k ==> t[j].bound > score
    ensures k < |t| ==> t[k].bound <= score
  {
    if t == [] then 0
    else if score >= t[0].bound then 0
    else 1 + FirstMatch(score, t[1..])
  }

  /**
   * What `interpret` returns: the message of the first pair whose bound is at
   * most `score`, else the message of the last pair; on an empty table the
   * fallback `thresholds[-1]` raises IndexError.
   */
  function Interpretation<M>(score: int, t: seq<Threshold<M>>): (r: Result<M, Error>)
    ensures r.Failure? <==> t == []
    ensures r.Failure? ==> r.error == EmptyTable
    ensures r.Success? ==> exists i :: (0 <= i < |t| && r.value == t[i].message
      && (forall j :: 0 <= j < i ==> t[j].bound > score)
      && (t[i].bound <= score || i == |t| - 1))
  {
    var k := FirstMatch(score, t);
    if k < |t| then Success(t[k].message)
    else if t == [] then Failure(EmptyTable)
    else Success(t[|t| - 1].message)
  }

  /** The message `interpret` returns from a non-empty table, which never raises. */
  function Label<M>(score: int, t: seq<Threshold<M>>): (m: M)
    requires t != []
    ensures Interpretation(score, t) == Success(m)
  {
    Interpretation(score, t).value
  }

  /** `interpret`: a scan of the table that returns at the first bound the score reaches. */
  method Interpret<M>(score: int, thresholds: seq<Threshold<M>>) returns (r: Result<M, Error>)
    ensures r == Interpretation(score, thresholds)
  {
    for i := 0 to |thresholds|
      invariant forall j :: 0 <= j < i ==> thresholds[j].bound > score
    {
      if score >= thresholds[i].bound {
        return Success(thresholds[i].message);
      }
    }
    if |thresholds| == 0 {
      return Failure(EmptyTable);
    }
    return Success(thresholds[|thresholds| - 1].message);
  }

  /** Equality matches: a score exactly on the first pair's bound gets the first message. */
  lemma BoundIsInclusive<M>(score: int, t: seq<Threshold<M>>)
    requires t != [] && t[0].bound == score
    ensures Interpretation(score, t) == Success(t[0].message)
  {
  }

  /** Below every bound, `interpret` falls back to the last message. */
  lemma FallbackToLast<M>(score: int, t: seq<Threshold<M>>)
    requires t != []
    requires forall j :: 0 <= j < |t| ==> t[j].bound > score
    ensures Interpretation(score, t) == Success(t[|t| - 1].message)
  {
  }

  /**
   * On a descending table, a score that reaches some bound gets the message
   * of the greatest bound it reaches.
   */
  lemma GreatestBoundWins<M>(score: int, t: seq<Threshold<M>>, j: nat)
    requires Descending(t)
    requires j < |t| && t[j].bound <= score
    ensures exists i :: (0 <= i < |t| && Interpretation(score, t) == Success(t[i].message)
      && t[i].bound <= score
      && (forall k :: 0 <= k < |t| && t[k].bound <= score ==> t[k].bound <= t[i].bound))
  {
    var i := FirstMatch(score, t);
    assert i <= j;
  }

  /**
   * The fixed result labels of `run_survey`: the messages of the three tables
   * and the two labels of the plays-games branch. `Text` gives each one's wording.
   */
  datatype Message =
    | OverallSevere | OverallHigh | OverallModerate | OverallStable | OverallHealthy
    | CompetitiveSevere | CompetitiveHigh | SinglePlayerSevere | SinglePlayerHigh
    | Moderate | Stable | Healthy
    | NotConducted | NotApplicable

  function Text(m: Message): string {
    match m
    case OverallSevere => "Severe psychological distress. Professional support may be needed."
    case OverallHigh => "High stress levels. You show signs of psychological strain."
    case OverallModerate => "Moderate psychological state. Some stress is present but manageable."
    case OverallStable => "Stable psychological state. Occasional stress but generally healthy."
    case OverallHealthy => "Very healthy psychological state. No significant stress detected."
    case CompetitiveSevere => "Severe psychological distress due to competitive online games."
    case CompetitiveHigh => "High stress levels due to competitive online games."
    case SinglePlayerSevere => "Severe psychological distress due to single player games."
    case SinglePlayerHigh => "High stress levels due to single player games."
    case Moderate => "Moderate psychological state."
    case Stable => "Stable psychological state."
    case Healthy => "Very healthy psychological state."
    case NotConducted => "Survey not conducted (user does not play video games)."
    case NotApplicable => "N/A"
  }

  /** The table applied to the total score. */
  const OVERALL_TABLE: seq<Threshold<Message>> := [
    Threshold(50, OverallSevere),
    Threshold(38, OverallHigh),
    Threshold(26, OverallModerate),
    Threshold(14, OverallStable),
    Threshold(0, OverallHealthy)
  ]

  /** The table applied to the competitive score. */
  const COMPETITIVE_TABLE: seq<Threshold<Message>> := [
    Threshold(28, CompetitiveSevere),
    Threshold(24, CompetitiveHigh),
    Threshold(15, Moderate),
    Threshold(10, Stable),
    Threshold(0, Healthy)
  ]

  /** The table applied to the single-player score. */
  const SINGLE_PLAYER_TABLE: seq<Threshold<Message>> := [
    Threshold(26, SinglePlayerSevere),
    Threshold(22, SinglePlayerHigh),
    Threshold(16, Moderate),
    Threshold(8, Stable),
    Threshold(0, Healthy)
  ]

  /** The three tables are non-empty and descending, and each ends at bound 0. */
  lemma TablesWellFormed()
    ensures Descending(OVERALL_TABLE) && |OVERALL_TABLE| == 5 && OVERALL_TABLE[4].bound == 0
    ensures Descending(COMPETITIVE_TABLE) && |COMPETITIVE_TABLE| == 5 && COMPETITIVE_TABLE[4].bound == 0
    ensures Descending(SINGLE_PLAYER_TABLE) && |SINGLE_PLAYER_TABLE| == 5 && SINGLE_PLAYER_TABLE[4].bound == 0
  {
  }

  /** The overall band of a total, written as the ranges of the total. */
  function OverallBand(total: int): Message {
    if total >= 50 then OverallSevere
    else if total >= 38 then OverallHigh
    else if total >= 26 then OverallModerate
    else if total >= 14 then OverallStable
    else OverallHealthy
  }

  /** The competitive band of a score, written as the ranges of the score. */
  function CompetitiveBand(score: int): Message {
    if score >= 28 then CompetitiveSevere
    else if score >= 24 then CompetitiveHigh
    else if score >= 15 then Moderate
    else if score >= 10 then Stable
    else Healthy
  }

  /** The single-player band of a score, written as the ranges of the score. */
  function SinglePlayerBand(score: int): Message {
    if score >= 26 then SinglePlayerSevere
    else if score >= 22 then SinglePlayerHigh
    else if score >= 16 then Moderate
    else if score >= 8 then Stable
    else Healthy
  }

  /** Scanning a five-pair table is the same as testing its five ranges (a negative score falls back to the last). */
  lemma FiveBands<M>(score: int, t: seq<Threshold<M>>)
    requires |t| == 5
    ensures Interpretation(score, t) == Success(
      if score >= t[0].bound then t[0].message
      else if score >= t[1].bound then t[1].message
      else if score >= t[2].bound then t[2].message
      else if score >= t[3].bound then t[3].message
      else t[4].message)
  {
  }

  lemma OverallTableIsBands(total: int)
    ensures Interpretation(total, OVERALL_TABLE) == Success(OverallBand(total))
    ensures Label(total, OVERALL_TABLE) == OverallBand(total)
  {
    FiveBands(total, OVERALL_TABLE);
  }

  lemma CompetitiveTableIsBands(score: int)
    ensures Interpretation(score, COMPETITIVE_TABLE) == Success(CompetitiveBand(score))
    ensures Label(score, COMPETITIVE_TABLE) == CompetitiveBand(score)
  {
    FiveBands(score, COMPETITIVE_TABLE);
  }

  lemma SinglePlayerTableIsBands(score: int)
    ensures Interpretation(score, SINGLE_PLAYER_TABLE) == Success(SinglePlayerBand(score))
    ensures Label(score, SINGLE_PLAYER_TABLE) == SinglePlayerBand(score)
  {
    FiveBands(score, SINGLE_PLAYER_TABLE);
  }

  /** The documented examples: total 40 and 13, competitive 30, single-player 10. */
  lemma DocumentedExamples()
    ensures Interpretation(40, OVERALL_TABLE) == Success(OverallHigh)
    ensures Interpretation(13, OVERALL_TABLE) == Success(OverallHealthy)
    ensures Interpretation(30, COMPETITIVE_TABLE) == Success(CompetitiveSevere)
    ensures Interpretation(10, SINGLE_PLAYER_TABLE) == Success(Stable)
  {
    OverallTableIsBands(40);
    OverallTableIsBands(13);
    CompetitiveTableIsBands(30);
    SinglePlayerTableIsBands(10);
  }
}
