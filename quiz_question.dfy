/** The standalone quiz question record of QuizQuestion.cs (a different class
    from the question type nested in QuizManager) and the text it formats. */
module QuizQuestions {
  import opened Wrappers
  import opened Text

  /** `Options` is a `string[]` that may be null, hence the Option. */
  datatype QuizQuestion = QuizQuestion(
    Question: string,
    Options: Option<seq<string>>,
    CorrectAnswer: int,
    Explanation: string)

  /** `new QuizQuestion()`: empty question, empty options. */
  function DefaultQuestion(): (q: QuizQuestion)
    ensures q.Options == Some([]) && q.Question == "" && q.Explanation == ""
  {
    QuizQuestion("", Some([]), 0, "")
  }

  const AnswerPrompt: string := "\nType your answer (A, B, C, D or 1, 2, 3, 4):"

  /** `(char)('A' + i)`.  A C# char is a UTF-16 unit; the model's characters are
      Unicode scalar values, so codes from the surrogate range on become U+FFFD. */
  function Letter(i: nat): (c: char)
    ensures i < 26 ==> 'A' <= c <= 'Z' && c as int - 'A' as int == i
  {
    if 65 + i < 0xD800 then (65 + i) as char else '\U{FFFD}'
  }

  /** The line appended for option `i`. */
  function OptionLine(i: nat, option: string): string
  {
    [Letter(i)] + ") " + option + "\n"
  }

  /** The option lines, one per option, in order. */
  function OptionLines(options: seq<string>): (r: seq<string>)
    ensures |r| == |options|
  {
    seq(|options|, i requires 0 <= i < |options| => OptionLine(i, options[i]))
  }

  /** The text that GetFormattedQuestion builds. */
  function FormattedQuestion(q: QuizQuestion): string
  {
    match q.Options
    case None => q.Question
    case Some(opts) =>
      if |opts| == 0 then q.Question
      else q.Question + "\n\n" + Concat(OptionLines(opts)) + AnswerPrompt
  }

  /** QuizQuestion.GetFormattedQuestion(). */
  method GetFormattedQuestion(q: QuizQuestion) returns (formatted: string)
    ensures formatted == FormattedQuestion(q)
  {
    if q.Options.None? || |q.Options.value| == 0 {
      return q.Question;
    }
    var options := q.Options.value;
    ghost var lines := OptionLines(options);
    formatted := q.Question + "\n\n";
    for i := 0 to |options|
      invariant formatted == q.Question + "\n\n" + Concat(lines[..i])
    {
      var letter := Letter(i);
      var line := [letter] + ") " + options[i] + "\n";
      assert line == lines[i];
      AppendAssoc(q.Question + "\n\n", Concat(lines[..i]), line);
      formatted := formatted + line;
      ConcatPrefix(lines, i);
    }
    assert lines[..|options|] == lines;
    formatted := formatted + AnswerPrompt;
  }

  /** Without options the question text comes back unchanged. */
  lemma FormattedWithoutOptions(q: QuizQuestion)
    requires q.Options.None? || q.Options == Some([])
    ensures FormattedQuestion(q) == q.Question
  {
  }

  /** With options, the line "X) option" of option i comes right after the
      lines of the options before it and right before those after it, so there
      is exactly one line per option, in order. */
  lemma OptionLineInPlace(q: QuizQuestion, i: nat)
    requires q.Options.Some? && i < |q.Options.value|
    ensures var opts := q.Options.value;
      var lines := OptionLines(opts);
      FormattedQuestion(q) == q.Question + "\n\n"
        + (Concat(lines[..i]) + OptionLine(i, opts[i]) + Concat(lines[i + 1..])) + AnswerPrompt
  {
    ConcatAt(OptionLines(q.Options.value), i);
  }

  /** With options the text starts with the question and a blank line and ends
      with the answer prompt. */
  lemma FormattedFraming(q: QuizQuestion)
    requires q.Options.Some? && 0 < |q.Options.value|
    ensures StartsWith(FormattedQuestion(q), q.Question + "\n\n")
    ensures |AnswerPrompt| <= |FormattedQuestion(q)|
    ensures FormattedQuestion(q)[|FormattedQuestion(q)| - |AnswerPrompt|..] == AnswerPrompt
  {
    var head := q.Question + "\n\n";
    var body := Concat(OptionLines(q.Options.value));
    var r := FormattedQuestion(q);
    assert r == head + (body + AnswerPrompt);
    assert r[..|head|] == head;
    assert r == (head + body) + AnswerPrompt;
    assert r[|r| - |AnswerPrompt|..] == AnswerPrompt;
  }
}
