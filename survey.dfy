/**
 * The computational middle of `run_survey` (the POST branch): birth date,
 * the plays-games branch, the two category scores, their total and the three
 * interpretations, gathered into the record the handler stores.
 */
module Survey {
  import opened Wrappers
  import opened Errors
  import opened Thresholds
  import opened Scoring
  import opened BirthDates

  /**
   * One POST: the four text fields as `request.form.get` returns them (None
   * when absent) and the answer fields already passed through `int(...)`.
   */
  datatype Submission = Submission(
    name: Option<string>,
    studentId: Option<string>,
    birthDate: Option<string>,
    playsGames: Option<string>,
    answers: Answers)

  /**
   * The `data` record the handler writes as JSON; each of the three result
   * labels is written as its `Text`.
   */
  datatype SurveyRecord = SurveyRecord(
    name: Option<string>,
    studentId: Option<string>,
    birthDate: Option<string>,
    age: Option<int>,
    playsGames: Option<string>,
    overall: Message,
    competitive: Message,
    singlePlayer: Message)

  const NO := "no"

  /** The three labels of a scored record are the bands of the total, the competitive and the single-player score. */
  lemma ScoredRecordLabels(sub: Submission, birth: BirthInfo, comp: int, single: int)
    ensures ScoredRecord(sub, birth, comp, single).overall == OverallBand(comp + single)
    ensures ScoredRecord(sub, birth, comp, single).competitive == CompetitiveBand(comp)
    ensures ScoredRecord(sub, birth, comp, single).singlePlayer == SinglePlayerBand(single)
  {
    OverallTableIsBands(comp + single);
    CompetitiveTableIsBands(comp);
    SinglePlayerTableIsBands(single);
  }

  /**
   * Lines 86-139 as written. The birth date is handled first. When
   * `plays_games == "no"`, lines 101-103 assign the three labels, but the
   * `interpret` calls at lines 109-129 still run and read `total_score`,
   * which that path never assigned: the handler raises UnboundLocalError.
   * Otherwise the competitive and then the single-player score are summed
   * and each of the three scores is interpreted against its table.
   */
  function RunSurvey(sub: Submission, today: Date): Result<SurveyRecord, Error> {
    var birth :- ParseBirthDate(sub.birthDate, today);
    if sub.playsGames == Some(NO) then
      Failure(UnboundScore("total_score"))
    else
      var comp :- CompetitiveScore(sub.answers);
      var single :- SinglePlayerScore(sub.answers);
      Success(ScoredRecord(sub, birth, comp, single))
  }

  /**
   * Lines 107-139 once both scores exist: the total, the three
   * interpretations (none of the three fixed tables is empty, so `interpret`
   * does not raise here) and the record that gathers them.
   */
  function ScoredRecord(sub: Submission, birth: BirthInfo, comp: int, single: int): SurveyRecord {
    var total := comp + single;
    SurveyRecord(sub.name, sub.studentId, birth.display, birth.age, sub.playsGames,
                 Label(total, OVERALL_TABLE), Label(comp, COMPETITIVE_TABLE),
                 Label(single, SINGLE_PLAYER_TABLE))
  }

  /**
   * A submission is recorded exactly when its birth date is not an invalid
   * eight-digit date, the respondent does not answer "no", and no answer
   * field is non-numeric.
   */
  lemma RunSurveySucceedsIff(sub: Submission, today: Date)
    ensures RunSurvey(sub, today).Success? <==>
      ParseBirthDate(sub.birthDate, today).Success?
      && sub.playsGames != Some(NO)
      && CompetitiveScore(sub.answers).Success?
      && SinglePlayerScore(sub.answers).Success?
  {
    TablesWellFormed();
  }

  /** The error the handler raises, in the order the steps run. */
  lemma RunSurveyErrors(sub: Submission, today: Date)
    ensures ParseBirthDate(sub.birthDate, today).Failure? ==> RunSurvey(sub, today) == Failure(InvalidDate)
    ensures ParseBirthDate(sub.birthDate, today).Success? && sub.playsGames == Some(NO) ==>
      RunSurvey(sub, today) == Failure(UnboundScore("total_score"))
    ensures (ParseBirthDate(sub.birthDate, today).Success? && sub.playsGames != Some(NO)
             && CompetitiveScore(sub.answers).Failure?) ==>
      RunSurvey(sub, today) == Failure(CompetitiveScore(sub.answers).error)
    ensures (ParseBirthDate(sub.birthDate, today).Success? && sub.playsGames != Some(NO)
             && CompetitiveScore(sub.answers).Success? && SinglePlayerScore(sub.answers).Failure?) ==>
      RunSurvey(sub, today) == Failure(SinglePlayerScore(sub.answers).error)
  {
  }

  /** Respondents who answer "no" never get a record, whatever else they submit. */
  lemma NotPlayingNeverRecorded(sub: Submission, today: Date)
    requires sub.playsGames == Some(NO)
    ensures RunSurvey(sub, today).Failure?
    ensures RunSurvey(sub, today).error in {InvalidDate, UnboundScore("total_score")}
  {
  }

  /**
   * When every step succeeds the handler stores a record that copies the
   * identity fields and the outputs of the birth-date step.
   */
  lemma RecordCopiesInputs(sub: Submission, today: Date)
    requires ParseBirthDate(sub.birthDate, today).Success? && sub.playsGames != Some(NO)
    requires CompetitiveScore(sub.answers).Success? && SinglePlayerScore(sub.answers).Success?
    ensures RunSurvey(sub, today).Success?
    ensures RunSurvey(sub, today).value.name == sub.name
    ensures RunSurvey(sub, today).value.studentId == sub.studentId
    ensures RunSurvey(sub, today).value.playsGames == sub.playsGames
    ensures RunSurvey(sub, today).value.birthDate == ParseBirthDate(sub.birthDate, today).value.display
    ensures RunSurvey(sub, today).value.age == ParseBirthDate(sub.birthDate, today).value.age
  {
  }

  /**
   * When every step succeeds the stored record holds the band of the total,
   * of the competitive score and of the single-player score.
   */
  lemma RecordLabels(sub: Submission, today: Date, comp: int, single: int)
    requires ParseBirthDate(sub.birthDate, today).Success? && sub.playsGames != Some(NO)
    requires CompetitiveScore(sub.answers) == Success(comp) && SinglePlayerScore(sub.answers) == Success(single)
    ensures RunSurvey(sub, today).Success?
    ensures RunSurvey(sub, today).value.overall == OverallBand(comp + single)
    ensures RunSurvey(sub, today).value.competitive == CompetitiveBand(comp)
    ensures RunSurvey(sub, today).value.singlePlayer == SinglePlayerBand(single)
  {
    var birth := ParseBirthDate(sub.birthDate, today).value;
    assert RunSurvey(sub, today) == Success(ScoredRecord(sub, birth, comp, single));
    ScoredRecordLabels(sub, birth, comp, single);
  }

  /**
   * A player whose every answer is an option weight always gets a record,
   * with a total in [0, 60].
   */
  lemma BankAnswersAlwaysRecorded(sub: Submission, today: Date)
    requires ParseBirthDate(sub.birthDate, today).Success? && sub.playsGames != Some(NO)
    requires AnsweredFrom(sub.answers, COMPETITIVE_PREFIX, Questions.COMPETITIVE_QUESTIONS)
    requires AnsweredFrom(sub.answers, SINGLE_PLAYER_PREFIX, Questions.SINGLE_PLAYER_QUESTIONS)
    ensures RunSurvey(sub, today).Success?
    ensures 0 <= CompetitiveScore(sub.answers).value + SinglePlayerScore(sub.answers).value <= 60
  {
    BankAnswersBounded(sub.answers);
    RunSurveySucceedsIff(sub, today);
  }

  /**
   * End to end: competitive answers summing to 30 and single-player answers
   * summing to 10 give a total of 40 and the labels "High stress levels ...",
   * "Severe ... competitive online games." and "Stable psychological state.".
   */
  lemma EndToEndExample(sub: Submission, today: Date)
    requires ParseBirthDate(sub.birthDate, today).Success? && sub.playsGames != Some(NO)
    requires CompetitiveScore(sub.answers) == Success(30)
    requires SinglePlayerScore(sub.answers) == Success(10)
    ensures RunSurvey(sub, today).Success?
    ensures RunSurvey(sub, today).value.overall == OverallHigh
    ensures RunSurvey(sub, today).value.competitive == CompetitiveSevere
    ensures RunSurvey(sub, today).value.singlePlayer == Stable
  {
    RecordLabels(sub, today, 30, 10);
  }

  /**
   * CORRECTED, not the code as written: the behaviour lines 100-103 evidently
   * intend, with the three `interpret` calls inside the `else` branch. A
   * respondent who answers "no" gets the fixed not-conducted labels.
   */
  function IntendedRunSurvey(sub: Submission, today: Date): Result<SurveyRecord, Error> {
    if sub.playsGames == Some(NO) then
      var birth :- ParseBirthDate(sub.birthDate, today);
      Success(SurveyRecord(sub.name, sub.studentId, birth.display, birth.age, sub.playsGames,
                           NotConducted, NotApplicable, NotApplicable))
    else
      RunSurvey(sub, today)
  }

  /** Corrected: answering "no" yields exactly the three fixed labels, whatever the answer fields hold. */
  lemma IntendedNotPlayingLabels(sub: Submission, today: Date)
    requires sub.playsGames == Some(NO) && ParseBirthDate(sub.birthDate, today).Success?
    ensures IntendedRunSurvey(sub, today).Success?
    ensures IntendedRunSurvey(sub, today).value.overall == NotConducted
    ensures IntendedRunSurvey(sub, today).value.competitive == NotApplicable
    ensures IntendedRunSurvey(sub, today).value.singlePlayer == NotApplicable
    ensures forall a: Answers :: IntendedRunSurvey(sub.(answers := a), today) == IntendedRunSurvey(sub, today)
  {
  }

  /** Corrected and as-written agree for every respondent who does not answer "no". */
  lemma IntendedAgreesWhenPlaying(sub: Submission, today: Date)
    requires sub.playsGames != Some(NO)
    ensures IntendedRunSurvey(sub, today) == RunSurvey(sub, today)
  {
  }

  /** The two differ exactly on respondents who answer "no" with an acceptable birth date. */
  lemma AsWrittenDiffersFromIntended(sub: Submission, today: Date)
    ensures IntendedRunSurvey(sub, today) != RunSurvey(sub, today) <==>
      sub.playsGames == Some(NO) && ParseBirthDate(sub.birthDate, today).Success?
  {
  }
}
