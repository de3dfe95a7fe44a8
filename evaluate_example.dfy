/** The number extraction of evaluate.py on the example pair of its
    docstring. */
module EvaluateExample {
  import opened Text
  import opened Wrappers
  import opened Evaluate

  /** Text holding no digit and no '-' contributes no number. */
  lemma {:induction false} SkipNonNumbers(t: string, i: nat, j: nat)
    requires i <= j <= |t|
    requires forall k :: i <= k < j ==> !IsDigit(t[k]) && t[k] != '-'
    ensures NumberSpans(t, i) == NumberSpans(t, j)
    decreases j - i
  {
    if i < j {
      assert DigitRun(t, i) == 0;
      SkipNonNumbers(t, i + 1, j);
    }
  }

  /** Text without a comma is its own replace(",", ""). */
  lemma {:induction false} StripCommasNoop(s: string)
    requires forall k :: 0 <= k < |s| ==> s[k] != ','
    ensures StripCommas(s) == s
  {
    if s != [] {
      StripCommasNoop(s[1..]);
    }
  }

  /** "3.5" is the first number found from position i of t. */
  lemma ThreePointFive(t: string, i: nat)
    requires i + 3 <= |t| && t[i..i + 3] == "3.5"
    requires i + 3 == |t| || !IsDigit(t[i + 3])
    requires forall k :: i + 3 <= k < |t| ==> !IsDigit(t[k])
    ensures NumberSpans(t, i) == [(i, i + 3)]
  {
    assert t[i] == '3' && t[i + 1] == '.' && t[i + 2] == '5';
    assert DigitRun(t, i + 3) == 0;
    assert DigitRun(t, i + 2) == 1;
    assert DigitRun(t, i + 1) == 0;
    assert DigitRun(t, i) == 1;
    assert NumberEnd(t, i) == i + 3;
    NoDigitNoSpans(t, i + 3);
  }

  /** The prediction and gold answer shown in the docstring. */
  const ExamplePrediction := "The net income was $3.5 million."
  const ExampleGold := "3.5 million"

  /** A text without commas or minus signs whose only digits are those of
      one "3.5" yields that number alone. */
  lemma OnlyNumberIsThreePointFive(t: string, i: nat)
    requires forall k :: 0 <= k < |t| ==> t[k] != ',' && t[k] != '-'
    requires i + 3 <= |t| && t[i..i + 3] == "3.5"
    requires forall k :: 0 <= k < |t| && k != i && k != i + 2 ==> !IsDigit(t[k])
    ensures GetNumbers(t) == ["3.5"]
  {
    StripCommasNoop(t);
    SkipNonNumbers(t, 0, i);
    ThreePointFive(t, i);
  }

  lemma ExamplePredictionNumbers()
    ensures GetNumbers(ExamplePrediction) == ["3.5"]
  {
    OnlyNumberIsThreePointFive(ExamplePrediction, 20);
  }

  lemma ExampleGoldNumbers()
    ensures GetNumbers(ExampleGold) == ["3.5"]
  {
    OnlyNumberIsThreePointFive(ExampleGold, 0);
  }

  /** The pair in the docstring of evaluate.py: both the answer "The net
      income was $3.5 million." and the gold "3.5 million" yield exactly the
      number 3.5, so the pair matches numerically, under the line as written
      and under the corrected term alike. */
  lemma WorkedExampleNumbers()
    ensures GetNumbers(ExamplePrediction) == ["3.5"] && GetNumbers(ExampleGold) == ["3.5"]
    ensures NumTermAsWritten(GetNumbers(ExamplePrediction), GetNumbers(ExampleGold)) == Success(1)
    ensures NumMatch(GetNumbers(ExamplePrediction), GetNumbers(ExampleGold)) == 1.0
  {
    ExamplePredictionNumbers();
    ExampleGoldNumbers();
  }
}
