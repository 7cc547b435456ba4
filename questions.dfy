/**
 * The two question banks of survey_web.py. Each question maps the five
 * answer labels to a weight; the question texts are left out.
 */
module Questions {

  datatype Label = Never | Rarely | Sometimes | Often | Always

  datatype Question = Question(options: map<Label, int>)

  /** The weighting of an ordinary item: the more often, the higher. */
  const FORWARD: map<Label, int> := map[Never := 0, Rarely := 1, Sometimes := 2, Often := 3, Always := 4]

  /** The weighting of a reverse-scored item: the more often, the lower. */
  const REVERSED: map<Label, int> := map[Never := 4, Rarely := 3, Sometimes := 2, Often := 1, Always := 0]

  /** `competitive_questions`: eight items, all weighted Never 0 .. Always 4. */
  const COMPETITIVE_QUESTIONS: seq<Question> := [
    Question(FORWARD), Question(FORWARD), Question(FORWARD), Question(FORWARD),
    Question(FORWARD), Question(FORWARD), Question(FORWARD), Question(FORWARD)
  ]

  /** `singleplayer_questions`: seven items; the first, second, fourth and fifth are reverse-scored. */
  const SINGLE_PLAYER_QUESTIONS: seq<Question> := [
    Question(REVERSED), Question(REVERSED), Question(FORWARD), Question(REVERSED),
    Question(REVERSED), Question(FORWARD), Question(FORWARD)
  ]

  /** The ordinary weight of a label: its position in Never, Rarely, Sometimes, Often, Always. */
  function Rank(l: Label): (w: int)
    ensures 0 <= w <= 4
  {
    match l
    case Never => 0
    case Rarely => 1
    case Sometimes => 2
    case Often => 3
    case Always => 4
  }

  /** Every label is offered and every weight lies in 0..4. */
  predicate WellWeighted(q: Question) {
    forall l: Label :: l in q.options && 0 <= q.options[l] <= 4
  }

  /** Reverse-scored: every label weighs 4 minus its ordinary weight. */
  predicate IsReverseScored(q: Question) {
    forall l: Label :: l in q.options && q.options[l] == 4 - Rank(l)
  }

  /** Ordinary: every label weighs its ordinary weight. */
  predicate IsForwardScored(q: Question) {
    forall l: Label :: l in q.options && q.options[l] == Rank(l)
  }

  lemma WeightingsShape()
    ensures IsForwardScored(Question(FORWARD)) && WellWeighted(Question(FORWARD))
    ensures IsReverseScored(Question(REVERSED)) && WellWeighted(Question(REVERSED))
    ensures !IsReverseScored(Question(FORWARD))
  {
    forall l: Label
      ensures l in FORWARD && FORWARD[l] == Rank(l)
      ensures l in REVERSED && REVERSED[l] == 4 - Rank(l)
    {
      match l
      case Never =>
      case Rarely =>
      case Sometimes =>
      case Often =>
      case Always =>
    }
    assert FORWARD[Never] != 4 - Rank(Never);
  }

  /** Every option weight of both banks lies in 0..4 and every label is offered. */
  lemma BanksWellWeighted()
    ensures |COMPETITIVE_QUESTIONS| == 8 && |SINGLE_PLAYER_QUESTIONS| == 7
    ensures forall i :: 0 <= i < |COMPETITIVE_QUESTIONS| ==> WellWeighted(COMPETITIVE_QUESTIONS[i])
    ensures forall i :: 0 <= i < |SINGLE_PLAYER_QUESTIONS| ==> WellWeighted(SINGLE_PLAYER_QUESTIONS[i])
  {
    WeightingsShape();
  }

  /**
   * Every competitive item is scored Never 0 .. Always 4; a single-player
   * item is reverse-scored exactly at positions 0, 1, 3 and 4 and ordinary elsewhere.
   */
  lemma BankPolarity()
    ensures forall i :: 0 <= i < |COMPETITIVE_QUESTIONS| ==> IsForwardScored(COMPETITIVE_QUESTIONS[i])
    ensures forall i :: 0 <= i < |SINGLE_PLAYER_QUESTIONS| ==>
      (IsReverseScored(SINGLE_PLAYER_QUESTIONS[i]) <==> i in {0, 1, 3, 4})
    ensures forall i :: 0 <= i < |SINGLE_PLAYER_QUESTIONS| && i !in {0, 1, 3, 4} ==>
      IsForwardScored(SINGLE_PLAYER_QUESTIONS[i])
  {
    WeightingsShape();
  }
}
