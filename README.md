# Gaming-stress survey: scoring and interpretation

This project models the computational core of the survey handler in
`survey_web.py`. A respondent submits a name, a student id, a birth date
written as `DDMMYYYY`, whether they play video games, and one answer per
question of two question banks (8 about competitive online games, 7 about
single-player games). The handler:

- turns the birth date into a display string `DD.MM.<year>` and an age;
- sums the competitive answers, the single-player answers and their total;
- maps each of the three scores to a verbal label through a descending table
  of `(bound, message)` pairs, using `interpret`;
- builds the record it stores for the respondent.

Modules, one per file:

| module | file | models |
|---|---|---|
| `Wrappers` | `wrappers.dfy` | `Option` and `Result` (with `:-` support) |
| `Errors` | `errors.dfy` | the exceptions the handler can raise, as values |
| `Digits` | `digits.dfy` | ASCII digit strings: `int()` of digits, `str(n)`, `:02d` |
| `Questions` | `questions.dfy` | the two question banks, as option-weight maps |
| `Thresholds` | `thresholds.dfy` | `interpret` and the three tables |
| `Scoring` | `scoring.dfy` | the `comp_i` / `single_i` sums |
| `BirthDates` | `birth_dates.dfy` | the `DDMMYYYY` parse, display and age |
| `Survey` | `survey.dfy` | lines 86-139 of `run_survey`, end to end |

`interpret` is a loop with an early return. It is modelled twice: by the
method `Thresholds.Interpret`, which keeps the loop, and by the function
`Thresholds.Interpretation`. The method is proved to return exactly what the
function returns, and the function's meaning is proved separately: the first
pair in list order whose bound is at most the score, or else the last pair.
The rest of `run_survey` is a straight-line handler, so it is modelled as
pure functions returning a `Result`. Every exception the code can raise is
the `Failure` branch of that `Result`:

- a non-numeric answer (`int()` raises ValueError);
- an eight-digit string that is not a date (`datetime(...)` raises ValueError);
- an empty threshold table (`thresholds[-1]` raises IndexError);
- the unassigned `total_score` on the "no" path (UnboundLocalError).

The wording of the labels is kept in `Thresholds.Text`. The record stores a
`Message` value that names the wording.

The code is followed wherever it differs from the survey's written
description:

- A non-numeric answer raises ValueError in the code. It does not count as 0.
- Eight digits that are not a calendar date raise ValueError in the code.
  They are not passed through.
- A respondent who answers "no" makes the handler fail in the code. They do
  not get the "not conducted" labels. See "## Findings".

## Model

| member | source | states |
|---|---|---|
| Thresholds.Interpret | survey_web.py:71-75 | the loop returns the first matching message, or the last one, or fails on an empty table, exactly as `Interpretation` says |
| Thresholds.FirstMatch | survey_web.py:72-74 | the scan stops at the first pair whose bound is at most the score; every pair before it has a greater bound |
| Thresholds.Interpretation | survey_web.py:71-75 | an empty table fails with EmptyTable, and only an empty one; otherwise the result is some pair's message; every earlier pair's bound exceeds the score; that pair's bound is at most the score unless it is the last pair |
| Thresholds.Label | survey_web.py:71-75 | on a non-empty table, `interpret` always gives a message |
| Thresholds.BoundIsInclusive | survey_web.py:73 | a score equal to a leading bound gets that bound's message (`>=`, not `>`) |
| Thresholds.FallbackToLast | survey_web.py:75 | a score below every bound gets the last pair's message |
| Thresholds.GreatestBoundWins | survey_web.py:71-75 | on a strictly descending table, the chosen pair has the greatest bound at most the score |
| Thresholds.TablesWellFormed | survey_web.py:109-129 | the three tables have five pairs each, strictly descending bounds and a last bound of 0 |
| Thresholds.FiveBands | survey_web.py:71-75 | on five pairs, `interpret` is the five-way range test on the bounds |
| Thresholds.OverallTableIsBands | survey_web.py:109-114 | the overall label is the band of the total: >=50, >=38, >=26, >=14, otherwise healthy |
| Thresholds.CompetitiveTableIsBands | survey_web.py:115-121 | the competitive label is the band: >=28, >=24, >=15, >=10, otherwise healthy |
| Thresholds.SinglePlayerTableIsBands | survey_web.py:123-129 | the single-player label is the band: >=26, >=22, >=16, >=8, otherwise healthy |
| Thresholds.DocumentedExamples | survey_web.py:109-129 | total 40 is "High stress", total 13 "Very healthy", competitive 30 "Severe", single-player 10 "Stable" |
| Questions.WeightingsShape | survey_web.py:10 | the forward weighting maps Never..Always to 0..4; the reversed one maps them to 4..0 |
| Questions.BanksWellWeighted | survey_web.py:8-69 | 8 competitive and 7 single-player questions, each with all five options and weights in 0..4 |
| Questions.BankPolarity | survey_web.py:8-69 | every competitive question is forward-scored; single-player questions 0, 1, 3 and 4 are reverse-scored and the others forward |
| Scoring.CategoryScore | survey_web.py:105-106 | the sum fails exactly when one of its fields is non-numeric, naming the first such field in generator order |
| Scoring.FieldNamesDistinct | survey_web.py:105-106 | `f"comp_{i}"` names differ for different `i` |
| Scoring.FieldNamesOfBanks | survey_web.py:105-106 | the fields read are `comp_0`..`comp_7` and `single_0`..`single_6` |
| Scoring.UnansweredScoresZero | survey_web.py:105-106 | a form without any of the fields scores 0 (the `.get` default) |
| Scoring.UniformAnswersScore | survey_web.py:105-106 | n fields all answered `w` sum to `n * w` |
| Scoring.ScoreBounds | survey_web.py:105-106 | answers in 0..4 give a sum in [0, 4n] |
| Scoring.ScoreIgnoresOtherFields | survey_web.py:105-106 | writing a field the sum does not read leaves the sum unchanged |
| Scoring.ScoreCountsFieldOnce | survey_web.py:105-106 | setting field k to `v` moves the sum by `v` minus the field's old contribution |
| Scoring.CategoriesIndependent | survey_web.py:105-106 | a `single_` field never changes the competitive sum, and a `comp_` field never changes the single-player sum |
| Scoring.BankAnswersBounded | survey_web.py:8-69 | answers that are option weights give competitive in [0, 32], single-player in [0, 28], total in [0, 60] |
| Digits.Decimal | survey_web.py:92 | `str(n)`: a non-empty digit string whose value is `n`, with no leading zero except "0" itself |
| Digits.Pad2 | survey_web.py:92 | `:02d` of n < 100: two digits whose value is n |
| Digits.Pad2OfDigits | survey_web.py:89-92 | padding the value of two typed digits gives those digits back |
| Digits.StripLeadingZeros | survey_web.py:91-92 | the result is a suffix of the input, with only zeros removed and no leading zero left |
| Digits.DecimalOfDigits | survey_web.py:91-92 | `str(int(s))` of a digit string is `s` without its leading zeros, or "0" |
| BirthDates.DaysInMonth | survey_web.py:93 | every month has 28 to 31 days (Gregorian leap years for February) |
| BirthDates.Age | survey_web.py:95 | the age is the number of birthdays by `today`: the last birthday is not after `today` and the next one is after it |
| BirthDates.AgeMonotone | survey_web.py:95 | the age never decreases as `today` advances |
| BirthDates.AgeBeforeBirthday | survey_web.py:95 | any day of that year before the birthday gives one year less than the birthday itself |
| BirthDates.AgeNonNegative | survey_web.py:95 | the age is non-negative exactly when the birth date is not after `today` |
| BirthDates.DateOf | survey_web.py:89-91 | the day, month and year read from `[0:2]`, `[2:4]`, `[4:8]` are below 100, 100 and 10000 |
| BirthDates.DateOfDigits | survey_web.py:89-91 | day, month and year are the decimal values of their digits |
| BirthDates.ParseBirthDate | survey_web.py:86-97 | a non-eight-digit input passes through with no age; eight digits succeed exactly when they form a valid date; a failure is InvalidDate |
| BirthDates.ParsedBirthDate | survey_web.py:88-95 | the display is the typed day and month digits, then the year without leading zeros; the age is `Age` of the parsed date |
| BirthDates.DisplayRoundTrip | survey_web.py:92 | reading the display back, field by field, gives the day, month and year |
| BirthDates.ExampleMidMarch | survey_web.py:88-95 | "15031999" shows as "15.03.1999"; the age is 24 on 2024-03-14 and 25 on 2024-03-16 |
| BirthDates.MidMarchDate | survey_web.py:89-92 | "15031999" is 15 March 1999, displayed as "15.03.1999" |
| BirthDates.ExampleShortYear | survey_web.py:89-95 | "01010099" shows as "01.01.99" (year 99, unpadded) |
| BirthDates.ExamplesPassedThrough | survey_web.py:96-97 | no value, "", seven digits and a non-digit pass through unchanged with no age |
| BirthDates.ExamplesInvalidDates | survey_web.py:93 | 31 February and year 0 raise ValueError |
| BirthDates.ExamplesLeapDay | survey_web.py:93 | 29 February fails in 2023 and succeeds in 2024 |
| Survey.RunSurveySucceedsIff | survey_web.py:86-139 | the handler yields a record exactly when the birth date parses, the answer is not "no" and both sums succeed |
| Survey.RunSurveyErrors | survey_web.py:86-129 | the error raised, in step order: birth date, then the unassigned score on "no", then the first non-numeric competitive field, then the first non-numeric single-player field |
| Survey.NotPlayingNeverRecorded | survey_web.py:100-109 | a respondent answering "no" never gets a record |
| Survey.RecordCopiesInputs | survey_web.py:130-135 | the record copies name, student id and plays-games, plus the birth-date display and age |
| Survey.ScoredRecordLabels | survey_web.py:107-139 | the record's labels are the bands of comp + single, of comp and of single |
| Survey.RecordLabels | survey_web.py:105-139 | on success, the stored labels are the overall band of the total and the bands of the two sums |
| Survey.BankAnswersAlwaysRecorded | survey_web.py:8-139 | a player whose answers are all option weights always gets a record, with a total in [0, 60] |
| Survey.EndToEndExample | survey_web.py:105-129 | sums 30 and 10 give "High stress", "Severe ... competitive" and "Stable" |
| Survey.IntendedNotPlayingLabels | survey_web.py:100-103 | corrected handler: "no" gives the not-conducted label and two "N/A" labels, whatever the answers hold |
| Survey.IntendedAgreesWhenPlaying | survey_web.py:104-139 | corrected and as-written agree for every respondent not answering "no" |
| Survey.AsWrittenDiffersFromIntended | survey_web.py:100-109 | the two differ exactly for "no" with an acceptable birth date |

## Left out

- The Flask blueprint, routing, `request.method` and the templates (survey_web.py:1-6, 77-79, 147-157) are web-framework glue. The model starts from the submitted values.
- Writing the record as JSON under `results/` (survey_web.py:141-144) is file I/O. The model builds the record but does not store it.
- `datetime.today()` (survey_web.py:94) reads the clock. `today` is a parameter instead.
- `int()` on arbitrary form strings: answers are already parsed. A field maps to `Some(n)` when `int()` accepts it and to `None` when it raises. Whitespace and sign handling of `int()` are not modelled.
- `str.isdigit()` is modelled on ASCII `'0'..'9'` only. Other Unicode digits are not modelled.
- The question texts (survey_web.py:9-68) are left out. Only each question's option weights are kept.
- The label strings are kept as `Thresholds.Text`; records hold the `Message` that names them.
- Scoring.CategoryScore: the ValueError carries the field's name. Python's message carries the offending value instead.

## Findings

| source | as written | input that shows it | evidently intended | confidence | as-written member | corrected member |
|---|---|---|---|---|---|---|
| survey_web.py:100-109 | The `interpret` calls at lines 109-129 sit outside the `else`, so on the "no" path they read `total_score`, which was never assigned, and the handler raises UnboundLocalError. | `plays_games = "no"` with no birth date (or any valid one) | the record gets "Survey not conducted (user does not play video games)." and "N/A" twice (lines 101-103) | not executed | Survey.NotPlayingNeverRecorded | Survey.IntendedNotPlayingLabels |

`Survey.RunSurvey` models the code as written, and the rest of the model
follows it. `Survey.IntendedRunSurvey` is the corrected handler.
`Survey.AsWrittenDiffersFromIntended` shows that the two differ exactly on
the inputs of this finding.
