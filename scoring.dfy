/**
 * The category scores of `run_survey`: the competitive score sums the form
 * fields `comp_0` .. `comp_7`, the single-player score `single_0` .. `single_6`.
 */
module Scoring {
  import opened Wrappers
  import opened Errors
  import opened Digits
  import opened Questions

  /**
   * The answer fields of a submitted form, each already passed through
   * `int(...)`: `Some(n)` where it yields `n`, `None` where it raises ValueError.
   * A field that was not submitted is absent.
   */
  type Answers = map<string, Option<int>>

  /** `f"{prefix}{i}"`. */
  function FieldName(prefix: string, i: nat): string {
    prefix + Decimal(i)
  }

  /** The field is present but `int(...)` rejects it. */
  predicate IsNonNumeric(form: Answers, key: string) {
    key in form && form[key].None?
  }

  /** What the field contributes: its number, or 0 (the `.get` default) when absent. */
  function AnswerValue(form: Answers, key: string): int
    requires !IsNonNumeric(form, key)
  {
    if key in form then form[key].value else 0
  }

  /**
   * `sum(int(form.get(f"{prefix}{i}", 0)) for i in range(n))`: fails on the first
   * field, in index order, that is present but not numeric.
   */
  function CategoryScore(form: Answers, prefix: string, n: nat): (r: Result<int, Error>)
    ensures r.Failure? <==> exists i :: 0 <= i < n && IsNonNumeric(form, FieldName(prefix, i))
    ensures r.Failure? ==> exists i :: (0 <= i < n && r.error == NonNumericAnswer(FieldName(prefix, i))
      && IsNonNumeric(form, FieldName(prefix, i))
      && forall j :: 0 <= j < i ==> !IsNonNumeric(form, FieldName(prefix, j)))
  {
    if n == 0 then
      Success(0)
    else
      var earlier :- CategoryScore(form, prefix, n - 1);
      var key := FieldName(prefix, n - 1);
      if IsNonNumeric(form, key) then Failure(NonNumericAnswer(key))
      else Success(earlier + AnswerValue(form, key))
  }

  const COMPETITIVE_PREFIX := "comp_"
  const SINGLE_PLAYER_PREFIX := "single_"

  /** `comp_score`: one field per competitive question. */
  function CompetitiveScore(form: Answers): Result<int, Error> {
    CategoryScore(form, COMPETITIVE_PREFIX, |COMPETITIVE_QUESTIONS|)
  }

  /** `single_score`: one field per single-player question. */
  function SinglePlayerScore(form: Answers): Result<int, Error> {
    CategoryScore(form, SINGLE_PLAYER_PREFIX, |SINGLE_PLAYER_QUESTIONS|)
  }

  /** Distinct question numbers name distinct fields. */
  lemma FieldNamesDistinct(prefix: string, i: nat, j: nat)
    requires i != j
    ensures FieldName(prefix, i) != FieldName(prefix, j)
  {
    assert FieldName(prefix, i)[|prefix|..] == Decimal(i);
    assert FieldName(prefix, j)[|prefix|..] == Decimal(j);
    DecimalInjective(i, j);
  }

  /** The field names the two scores read: `comp_0` .. `comp_7` and `single_0` .. `single_6`. */
  lemma FieldNamesOfBanks()
    ensures FieldName(COMPETITIVE_PREFIX, 0) == "comp_0" && FieldName(COMPETITIVE_PREFIX, 7) == "comp_7"
    ensures FieldName(SINGLE_PLAYER_PREFIX, 0) == "single_0" && FieldName(SINGLE_PLAYER_PREFIX, 6) == "single_6"
  {
  }

  /** A form that leaves every field unanswered scores 0. */
  lemma {:induction false} UnansweredScoresZero(form: Answers, prefix: string, n: nat)
    requires forall i :: 0 <= i < n ==> FieldName(prefix, i) !in form
    ensures CategoryScore(form, prefix, n) == Success(0)
  {
    if n > 0 {
      UnansweredScoresZero(form, prefix, n - 1);
    }
  }

  /** A form that answers every field with `w` scores `n * w` (all 0 gives 0, all 4 gives `4 * n`). */
  lemma {:induction false} UniformAnswersScore(form: Answers, prefix: string, n: nat, w: int)
    requires forall i :: 0 <= i < n ==> FieldName(prefix, i) in form && form[FieldName(prefix, i)] == Some(w)
    ensures CategoryScore(form, prefix, n) == Success(n * w)
  {
    if n > 0 {
      UniformAnswersScore(form, prefix, n - 1, w);
      assert (n - 1) * w + w == n * w;
    }
  }

  /** When every present field holds a number in 0..4, the score exists and lies in `[0, 4 * n]`. */
  lemma {:induction false} ScoreBounds(form: Answers, prefix: string, n: nat)
    requires forall i :: 0 <= i < n && FieldName(prefix, i) in form ==>
      form[FieldName(prefix, i)].Some? && 0 <= form[FieldName(prefix, i)].value <= 4
    ensures CategoryScore(form, prefix, n).Success?
    ensures 0 <= CategoryScore(form, prefix, n).value <= 4 * n
  {
    if n > 0 {
      ScoreBounds(form, prefix, n - 1);
    }
  }

  /** Writing one field leaves what any other field contributes as it was. */
  lemma OtherFieldUnchanged(form: Answers, key: string, v: Option<int>, other: string)
    requires other != key
    ensures IsNonNumeric(form[key := v], other) == IsNonNumeric(form, other)
    ensures !IsNonNumeric(form, other) ==> AnswerValue(form[key := v], other) == AnswerValue(form, other)
  {
  }

  /** Fields other than the `n` it reads do not change a category score. */
  lemma {:induction false} ScoreIgnoresOtherFields(form: Answers, prefix: string, n: nat, key: string, v: Option<int>)
    requires forall i :: 0 <= i < n ==> FieldName(prefix, i) != key
    ensures CategoryScore(form[key := v], prefix, n) == CategoryScore(form, prefix, n)
  {
    if n > 0 {
      ScoreIgnoresOtherFields(form, prefix, n - 1, key, v);
      OtherFieldUnchanged(form, key, v, FieldName(prefix, n - 1));
    }
  }

  /**
   * Each field is counted exactly once: changing field `k < n` to the number `v`
   * moves the score by `v` minus what the field contributed before.
   */
  lemma {:induction false} ScoreCountsFieldOnce(form: Answers, prefix: string, n: nat, k: nat, v: int)
    requires k < n && CategoryScore(form, prefix, n).Success?
    ensures !IsNonNumeric(form, FieldName(prefix, k))
    ensures CategoryScore(form[FieldName(prefix, k) := Some(v)], prefix, n)
      == Success(CategoryScore(form, prefix, n).value - AnswerValue(form, FieldName(prefix, k)) + v)
  {
    var key := FieldName(prefix, k);
    var form' := form[key := Some(v)];
    var earlier := CategoryScore(form, prefix, n - 1);
    var earlier' := CategoryScore(form', prefix, n - 1);
    var last := FieldName(prefix, n - 1);
    assert earlier.Success?;
    assert !IsNonNumeric(form, last);
    assert CategoryScore(form, prefix, n) == Success(earlier.value + AnswerValue(form, last));
    if k == n - 1 {
      forall i | 0 <= i < n - 1 ensures FieldName(prefix, i) != key {
        FieldNamesDistinct(prefix, i, k);
      }
      ScoreIgnoresOtherFields(form, prefix, n - 1, key, Some(v));
      assert earlier' == earlier;
      assert !IsNonNumeric(form', last) && AnswerValue(form', last) == v;
    } else {
      ScoreCountsFieldOnce(form, prefix, n - 1, k, v);
      assert earlier' == Success(earlier.value - AnswerValue(form, key) + v);
      FieldNamesDistinct(prefix, n - 1, k);
      OtherFieldUnchanged(form, key, Some(v), last);
    }
  }

  /** Changing a single-player field never changes the competitive score, and the other way round. */
  lemma CategoriesIndependent(form: Answers, i: nat, v: Option<int>)
    ensures CompetitiveScore(form[FieldName(SINGLE_PLAYER_PREFIX, i) := v]) == CompetitiveScore(form)
    ensures SinglePlayerScore(form[FieldName(COMPETITIVE_PREFIX, i) := v]) == SinglePlayerScore(form)
  {
    var s, c := FieldName(SINGLE_PLAYER_PREFIX, i), FieldName(COMPETITIVE_PREFIX, i);
    forall j: nat ensures FieldName(COMPETITIVE_PREFIX, j) != s && FieldName(SINGLE_PLAYER_PREFIX, j) != c {
      assert FieldName(COMPETITIVE_PREFIX, j)[0] == 'c' && s[0] == 's';
      assert FieldName(SINGLE_PLAYER_PREFIX, j)[0] == 's' && c[0] == 'c';
    }
    ScoreIgnoresOtherFields(form, COMPETITIVE_PREFIX, |COMPETITIVE_QUESTIONS|, s, v);
    ScoreIgnoresOtherFields(form, SINGLE_PLAYER_PREFIX, |SINGLE_PLAYER_QUESTIONS|, c, v);
  }

  /** Every present field of the bank's questions holds one of that question's option weights. */
  predicate AnsweredFrom(form: Answers, prefix: string, bank: seq<Question>) {
    forall i :: 0 <= i < |bank| && FieldName(prefix, i) in form ==>
      form[FieldName(prefix, i)].Some? && form[FieldName(prefix, i)].value in bank[i].options.Values
  }

  /**
   * When every answer is an option weight of its question, the competitive score
   * lies in [0, 32], the single-player score in [0, 28] and their total in [0, 60].
   */
  lemma BankAnswersBounded(form: Answers)
    requires AnsweredFrom(form, COMPETITIVE_PREFIX, COMPETITIVE_QUESTIONS)
    requires AnsweredFrom(form, SINGLE_PLAYER_PREFIX, SINGLE_PLAYER_QUESTIONS)
    ensures CompetitiveScore(form).Success? && SinglePlayerScore(form).Success?
    ensures 0 <= CompetitiveScore(form).value <= 32
    ensures 0 <= SinglePlayerScore(form).value <= 28
    ensures 0 <= CompetitiveScore(form).value + SinglePlayerScore(form).value <= 60
  {
    BanksWellWeighted();
    WeightsInRange(form, COMPETITIVE_PREFIX, COMPETITIVE_QUESTIONS);
    WeightsInRange(form, SINGLE_PLAYER_PREFIX, SINGLE_PLAYER_QUESTIONS);
    ScoreBounds(form, COMPETITIVE_PREFIX, |COMPETITIVE_QUESTIONS|);
    ScoreBounds(form, SINGLE_PLAYER_PREFIX, |SINGLE_PLAYER_QUESTIONS|);
  }

  lemma WeightsInRange(form: Answers, prefix: string, bank: seq<Question>)
    requires AnsweredFrom(form, prefix, bank)
    requires forall i :: 0 <= i < |bank| ==> WellWeighted(bank[i])
    ensures forall i :: 0 <= i < |bank| && FieldName(prefix, i) in form ==>
      form[FieldName(prefix, i)].Some? && 0 <= form[FieldName(prefix, i)].value <= 4
  {
    forall i | 0 <= i < |bank| && FieldName(prefix, i) in form
      ensures form[FieldName(prefix, i)].Some? && 0 <= form[FieldName(prefix, i)].value <= 4
    {
      var w := form[FieldName(prefix, i)].value;
      var l :| l in bank[i].options && bank[i].options[l] == w;
    }
  }
}
