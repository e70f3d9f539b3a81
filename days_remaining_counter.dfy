/** The journal's counter of the days left in the year: "N day left" or "N days left". */
module DaysRemainingCounter {
  import opened Optional
  import opened Strings

  /** "day" for exactly one, "days" otherwise. */
  function DayWord(daysRemaining: int): (word: string)
    ensures word == "day" <==> daysRemaining == 1
    ensures word == "days" <==> daysRemaining != 1
  {
    if daysRemaining == 1 then "day" else "days"
  }

  /** `DaysRemainingCounter`: the number, a space, the word, and " left". */
  function CounterText(daysRemaining: int): (text: string)
    ensures |text| > 5 && text[|text| - 5..] == " left"
  {
    var dayWord := DayWord(daysRemaining);
    IntToString(daysRemaining) + " " + dayWord + " left"
  }

  /**
   * The text is three words: the number, "day" exactly when the number is
   * one and "days" otherwise, and "left"; for a count that is not negative
   * the first word reads back as the count.
   */
  lemma CounterWords(n: int)
    ensures Split(CounterText(n), ' ') == [IntToString(n), DayWord(n), "left"]
    ensures Split(CounterText(n), ' ')[1] == "day" <==> n == 1
    ensures n >= 0 ==> ParseNumber(Split(CounterText(n), ' ')[0]) == Some(n)
  {
    var digits := NatToString(if n < 0 then -n else n);
    assert forall i :: 0 <= i < |digits| ==> digits[i] != ' ';
    ThreeWords(IntToString(n), DayWord(n));
    if n >= 0 {
      NatToStringRoundTrip(n);
    }
  }

  lemma ThreeWords(number: string, word: string)
    requires ' ' !in number && ' ' !in word
    ensures Split(number + " " + word + " left", ' ') == [number, word, "left"]
  {
    var tail := word + " left";
    WordLeft(word);
    SplitFirst(number, ' ', tail);
    assert number + " " + word + " left" == number + [' '] + tail;
  }

  lemma WordLeft(word: string)
    requires ' ' !in word
    ensures Split(word + " left", ' ') == [word, "left"]
  {
    assert word + " left" == word + [' '] + "left";
    NoSpaceInLeft("left");
    SplitFirst(word, ' ', "left");
  }

  lemma NoSpaceInLeft(left: string)
    requires left == "left"
    ensures Split(left, ' ') == [left]
  {
    assert ' ' !in left;
  }

  lemma CounterTextExamples()
    ensures CounterText(1) == "1 day left"
    ensures CounterText(0) == "0 days left"
    ensures CounterText(365) == "365 days left"
  {
    CounterTextOne();
    CounterTextZero();
    CounterTextYear();
  }

  lemma CounterTextOne()
    ensures CounterText(1) == "1 day left"
  {
    assert NatToString(1) == "1";
  }

  lemma CounterTextZero()
    ensures CounterText(0) == "0 days left"
  {
    assert NatToString(0) == "0";
  }

  lemma CounterTextYear()
    ensures CounterText(365) == "365 days left"
  {
    assert NatToString(365) == NatToString(36) + [DigitChar(5)];
    assert NatToString(36) == NatToString(3) + [DigitChar(6)];
  }
}
