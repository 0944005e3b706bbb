/** QuizManager.cs: a cursor-and-score state machine over a fixed bank of
    questions, with answer parsing and integer scoring. */
module Quiz {
  import opened Text
  import QuizQuestions
  import Wrappers

  /** The question type nested in QuizManager (`List<string> Options` is never
      null in the bank, so it is a plain sequence here). */
  datatype Question = Question(
    Text: string,
    Options: seq<string>,
    CorrectAnswerIndex: int,
    Explanation: string,
    IsTrueFalse: bool)

  /** What the bank promises of every question: the answer index names an
      option, and a True/False question has exactly the options True, False. */
  predicate WellFormed(q: Question)
  {
    0 <= q.CorrectAnswerIndex < |q.Options|
    && (q.IsTrueFalse ==> q.Options == ["True", "False"])
  }

  predicate AllWellFormed(qs: seq<Question>)
  {
    forall i :: 0 <= i < |qs| ==> WellFormed(qs[i])
  }

  // ---------------------------------------------------------------- formatting

  /** One option line of a bank question: its letter, a full stop, a space, the option text, a line break. */
  function ChoiceLine(i: nat, option: string): string
  {
    [QuizQuestions.Letter(i)] + ". " + option + NewLine
  }

  function ChoiceLines(options: seq<string>): (r: seq<string>)
    ensures |r| == |options|
  {
    seq(|options|, i requires 0 <= i < |options| => ChoiceLine(i, options[i]))
  }

  const TrueOrFalse: string := "True or False?"

  /** The text the nested GetFormattedQuestion builds. */
  function QuestionText(q: Question): string
  {
    if q.IsTrueFalse then q.Text + NewLine + (TrueOrFalse + NewLine)
    else q.Text + NewLine + Concat(ChoiceLines(q.Options))
  }

  /** The nested QuizQuestion.GetFormattedQuestion(). */
  method GetFormattedQuestion(q: Question) returns (text: string)
    ensures text == QuestionText(q)
  {
    var sb := q.Text + NewLine;
    if q.IsTrueFalse {
      sb := sb + (TrueOrFalse + NewLine);
    } else {
      ghost var lines := ChoiceLines(q.Options);
      for i := 0 to |q.Options|
        invariant sb == q.Text + NewLine + Concat(lines[..i])
      {
        var line := [QuizQuestions.Letter(i)] + ". " + q.Options[i] + NewLine;
        assert line == lines[i];
        AppendAssoc(q.Text + NewLine, Concat(lines[..i]), line);
        sb := sb + line;
        ConcatPrefix(lines, i);
      }
      assert lines[..|q.Options|] == lines;
    }
    text := sb;
  }

  /** The text opens with the question line; a True/False question then asks
      "True or False?", and a multiple-choice one lists option i as line i. */
  lemma QuestionTextShape(q: Question, i: nat)
    ensures StartsWith(QuestionText(q), q.Text + NewLine)
    ensures q.IsTrueFalse ==> QuestionText(q) == q.Text + NewLine + (TrueOrFalse + NewLine)
    ensures !q.IsTrueFalse && i < |q.Options| ==>
      var lines := ChoiceLines(q.Options);
      QuestionText(q) == q.Text + NewLine
        + (Concat(lines[..i]) + ChoiceLine(i, q.Options[i]) + Concat(lines[i + 1..]))
  {
    var head := q.Text + NewLine;
    var tail := if q.IsTrueFalse then TrueOrFalse + NewLine else Concat(ChoiceLines(q.Options));
    assert QuestionText(q) == head + tail;
    assert (head + tail)[..|head|] == head;
    if !q.IsTrueFalse && i < |q.Options| {
      ConcatAt(ChoiceLines(q.Options), i);
    }
  }

  // ---------------------------------------------------------------- the bank

  /** The text of question k of InitializeQuizQuestions, in bank order. */
  function BankText(k: nat): string
    requires k < 12
  {
    match k
    case 0 => "What is phishing?"
    case 1 =>
      "Which of the " + "following is an " + "example of a strong " + "password?"
    case 2 => "What does MFA stand " + "for in cybersecurity?"
    case 3 => "What is the primary " + "purpose of antivirus " + "software?"
    case 4 =>
      "Which common threat " + "involves attackers " + "trying to guess your " +
      "password repeatedly?"
    case 5 => "What is encryption?"
    case 6 => "What is a firewall " + "used for?"
    case 7 =>
      "It is safe to click " + "on any link in an " + "email, as long as it " +
      "looks legitimate."
    case 8 =>
      "Using the same strong " + "password for all your " +
      "online accounts is a " + "good security " + "practice."
    case 9 =>
      "Public Wi-Fi networks " + "are always secure for " +
      "sensitive activities " + "like online banking."
    case 10 =>
      "Updating your " + "software and " + "operating system " +
      "regularly helps " + "protect against " + "security " +
      "vulnerabilities."
    case _ =>
      "Ransomware encrypts " + "your files and " + "demands payment to " +
      "decrypt them."
  }

  /** The options of question k: four for the seven multiple-choice
      questions, True and False for the five True/False ones. */
  function BankOptions(k: nat): (r: seq<string>)
    requires k < 12
    ensures k < 7 ==> |r| == 4
    ensures 7 <= k ==> r == ["True", "False"]
  {
    match k
    case 0 =>
      ["A type of malware", "A technique to trick users into revealing info", "A strong password", "A network security protocol"]
    case 1 => ["password123", "12345678", "P@ssw0rd!", "MyName1"]
    case 2 =>
      ["Malicious File Analyzer", "Multi-Factor Authentication", "Managed Firewall Access", "Mobile Fraud Alert"]
    case 3 =>
      ["To speed up your computer", "To protect against malicious software", "To manage network connections", "To encrypt data"]
    case 4 => ["Phishing", "Malware", "Brute-force attack", "DDoS attack"]
    case 5 =>
      ["A method to speed up internet", "Converting data to a secret code", "Blocking unwanted emails", "Scanning for viruses"]
    case 6 =>
      ["To block pop-up ads", "To manage internet speed", "To monitor and control network traffic", "To backup data"]
    case 7 => ["True", "False"]
    case 8 => ["True", "False"]
    case 9 => ["True", "False"]
    case 10 => ["True", "False"]
    case _ => ["True", "False"]
  }

  /** The index of the correct option of question k. */
  function BankAnswer(k: nat): (r: int)
    requires k < 12
    ensures 0 <= r < |BankOptions(k)|
  {
    match k
    case 0 => 1
    case 1 => 2
    case 2 => 1
    case 3 => 1
    case 4 => 2
    case 5 => 1
    case 6 => 2
    case 7 => 1
    case 8 => 1
    case 9 => 1
    case 10 => 0
    case _ => 0
  }

  /** The explanation shown after question k is answered. */
  function BankExplanation(k: nat): string
    requires k < 12
  {
    match k
    case 0 =>
      "Phishing is a " + "fraudulent attempt to " + "obtain sensitive " +
      "information by " + "disguising as a " + "trustworthy entity " +
      "through deceptive " + "communications."
    case 1 =>
      "A strong password " + "includes a mix of " + "uppercase, lowercase, " +
      "numbers, and symbols, " + "and is not easily " + "guessable. " +
      "'P@ssw0rd!' fits " + "these criteria."
    case 2 =>
      "MFA, or Multi-Factor " + "Authentication, " + "requires more than " +
      "one method of " + "verification to grant " + "access, significantly " +
      "increasing security."
    case 3 =>
      "Antivirus software is " + "primarily designed to " +
      "detect, prevent, and " + "remove malicious " + "software like " +
      "viruses, worms, and " + "Trojans."
    case 4 =>
      "A brute-force attack " + "is a trial-and-error " +
      "method used to guess " + "login information by " +
      "systematically trying " + "many combinations " +
      "until the correct one " + "is found."
    case 5 =>
      "Encryption is the " + "process of " + "transforming " +
      "information into a " + "secret code " + "(ciphertext) to " +
      "protect it from " + "unauthorized access."
    case 6 =>
      "A firewall is a " + "network security " + "system that monitors " +
      "and controls incoming " + "and outgoing network " +
      "traffic based on " + "predetermined " + "security rules."
    case 7 =>
      "It's crucial to be " + "cautious with email " + "links. Phishing " +
      "emails often look " + "legitimate but " + "contain malicious " +
      "links. Always verify " + "the sender and hover " +
      "over links to see " + "their true " + "destination before " +
      "clicking."
    case 8 =>
      "Reusing passwords, " + "even strong ones, is " + "a major security " +
      "risk. If one account " + "is compromised, all " +
      "other accounts using " + "that same password " + "become vulnerable. " +
      "Use unique, strong " + "passwords for each " +
      "service, ideally with " + "a password manager."
    case 9 =>
      "Public Wi-Fi networks " + "are generally " + "unencrypted and " +
      "insecure, making your " + "data vulnerable to " + "interception by " +
      "malicious actors. " + "Avoid sensitive " + "activities like " +
      "banking or online " + "shopping on public " + "Wi-Fi. Use a VPN for " +
      "added security if you " + "must."
    case 10 =>
      "Software updates " + "often include patches " + "for newly discovered " +
      "security " + "vulnerabilities. " + "Keeping your systems " +
      "updated is a " + "fundamental " + "cybersecurity " +
      "practice to stay " + "protected against " + "known threats."
    case _ =>
      "Ransomware is a type " + "of malicious software " + "that encrypts a " +
      "victim's files and " + "demands a ransom " + "payment (usually in " +
      "cryptocurrency) for " + "the decryption key."
  }

  /** Question k of InitializeQuizQuestions: the first seven are
      multiple-choice, the last five True/False, every one well formed. */
  function BankQuestion(k: nat): (q: Question)
    requires k < 12
    ensures WellFormed(q)
    ensures q.IsTrueFalse <==> 7 <= k
    ensures k < 7 ==> |q.Options| == 4
  {
    Question(BankText(k), BankOptions(k), BankAnswer(k), BankExplanation(k), 7 <= k)
  }

  /** The twelve questions of InitializeQuizQuestions, before shuffling. */
  function Bank(): (r: seq<Question>)
    ensures |r| == 12
  {
    seq(12, k requires 0 <= k < 12 => BankQuestion(k))
  }

  /** The bank as InitializeQuizQuestions builds it is well formed. */
  lemma BankWellFormed()
    ensures |Bank()| == 12 && AllWellFormed(Bank())
    ensures forall i :: 0 <= i < 12 ==> (Bank()[i].IsTrueFalse <==> 7 <= i)
  {
    forall i | 0 <= i < 12
      ensures WellFormed(Bank()[i]) && (Bank()[i].IsTrueFalse <==> 7 <= i)
    {
      assert Bank()[i] == BankQuestion(i);
    }
  }

  // ---------------------------------------------------------------- shuffling

  /** The list with positions i and j exchanged. */
  function Swap(qs: seq<Question>, i: nat, j: nat): (r: seq<Question>)
    requires i < |qs| && j < |qs|
    ensures |r| == |qs|
    ensures r[i] == qs[j] && r[j] == qs[i]
    ensures forall m :: 0 <= m < |qs| && m != i && m != j ==> r[m] == qs[m]
  {
    qs[i := qs[j]][j := qs[i]]
  }

  /** The rest of the Fisher-Yates loop from counter `n` on.  `draw(n)` stands
      for the value of `rng.Next(n + 1)` drawn when the counter is n; only its
      remainder modulo n + 1 is used, so any function is a possible generator. */
  function ShuffleFrom(qs: seq<Question>, n: nat, draw: nat -> nat): (r: seq<Question>)
    requires n <= |qs|
    ensures |r| == |qs|
    ensures forall m :: n <= m < |qs| ==> r[m] == qs[m]
    // |qs| never decides; naming it keeps the verifier from unrolling the
    // whole loop whenever the counter is a literal
    decreases n, |qs|
  {
    if n <= 1 then qs
    else
      var n' := n - 1;
      var k := draw(n') % (n' + 1);
      ShuffleFrom(Swap(qs, k, n'), n', draw)
  }

  /** ShuffleQuestions(), with the generator's draws passed in. */
  function Shuffled(qs: seq<Question>, draw: nat -> nat): (r: seq<Question>)
    ensures |r| == |qs|
  {
    ShuffleFrom(qs, |qs|, draw)
  }

  /** Exchanging two positions keeps the same questions. */
  lemma SwapPermutes(qs: seq<Question>, i: nat, j: nat)
    requires i < |qs| && j < |qs|
    ensures multiset(Swap(qs, i, j)) == multiset(qs)
  {
  }

  /** Every step of the loop is a swap, so the loop keeps the same questions. */
  lemma {:induction false} ShuffleFromPermutes(qs: seq<Question>, n: nat, draw: nat -> nat)
    requires n <= |qs|
    ensures multiset(ShuffleFrom(qs, n, draw)) == multiset(qs)
    decreases n
  {
    if n > 1 {
      var k := draw(n - 1) % n;
      SwapPermutes(qs, k, n - 1);
      ShuffleFromPermutes(Swap(qs, k, n - 1), n - 1, draw);
    }
  }

  /** Shuffling permutes the list: the same questions, each as often. */
  lemma ShuffledPermutes(qs: seq<Question>, draw: nat -> nat)
    ensures multiset(Shuffled(qs, draw)) == multiset(qs)
  {
    ShuffleFromPermutes(qs, |qs|, draw);
  }

  /** A permutation keeps every question, so well-formedness survives it. */
  lemma PermutationKeepsWellFormed(qs: seq<Question>, r: seq<Question>)
    requires multiset(r) == multiset(qs) && AllWellFormed(qs)
    ensures AllWellFormed(r)
  {
    forall i | 0 <= i < |r|
      ensures WellFormed(r[i])
    {
      assert r[i] in multiset(r);
      assert r[i] in multiset(qs);
      var j :| 0 <= j < |qs| && qs[j] == r[i];
    }
  }

  /** A shuffled list of well-formed questions is well formed. */
  lemma ShuffledKeepsWellFormed(qs: seq<Question>, draw: nat -> nat)
    requires AllWellFormed(qs)
    ensures AllWellFormed(Shuffled(qs, draw))
  {
    ShuffledPermutes(qs, draw);
    PermutationKeepsWellFormed(qs, Shuffled(qs, draw));
  }

  // ---------------------------------------------------------------- answers

  /** The answer index ProcessQuizAnswer reads from `answer`, or -1 when the
      answer is not in an accepted format: a parsed answer names an option
      (0 or 1 for True/False). */
  function ParseAnswer(q: Question, answer: string): (a: int)
    ensures a == -1 || (0 <= a && (if q.IsTrueFalse then a <= 1 else a < |q.Options|))
  {
    ParseNormalised(q, ToUpper(Trim(answer)))
  }

  /** The accepted formats, read from the trimmed upper-case answer. */
  function ParseNormalised(q: Question, upper: string): int
  {
    if q.IsTrueFalse then
      if upper == "TRUE" then 0 else if upper == "FALSE" then 1 else -1
    else if |upper| == 1 && 'A' <= upper[0] && (upper[0] as int) < 'A' as int + |q.Options| then
      upper[0] as int - 'A' as int
    else
      match ParseInt(upper)
      case Some(num) => if 1 <= num <= |q.Options| then num - 1 else -1
      case None => -1
  }

  /** True/False questions accept exactly "TRUE" and "FALSE" once trimmed and
      upper-cased. */
  lemma ParseTrueFalse(q: Question, answer: string)
    requires q.IsTrueFalse
    ensures ParseAnswer(q, answer) == 0 <==> ToUpper(Trim(answer)) == "TRUE"
    ensures ParseAnswer(q, answer) == 1 <==> ToUpper(Trim(answer)) == "FALSE"
    ensures ParseAnswer(q, answer) in {-1, 0, 1}
  {
  }

  /** A multiple-choice question accepts every answer that reads as the letter
      of option i once trimmed and upper-cased. */
  lemma ParseLetter(q: Question, answer: string, i: nat)
    requires !q.IsTrueFalse && i < |q.Options| && i < 26
    requires ToUpper(Trim(answer)) == [QuizQuestions.Letter(i)]
    ensures ParseAnswer(q, answer) == i
  {
    ParseNormalisedLetter(q, QuizQuestions.Letter(i));
  }

  /** The letter of option i, in either case, reads as that letter. */
  lemma LetterForms(i: nat)
    requires i < 26
    ensures ToUpper(Trim([QuizQuestions.Letter(i)])) == [QuizQuestions.Letter(i)]
    ensures ToUpper(Trim([ToLowerChar(QuizQuestions.Letter(i))])) == [QuizQuestions.Letter(i)]
  {
    var c := QuizQuestions.Letter(i);
    CapitalFacts(c);
    NormalisedLetter(c, c);
    NormalisedLetter(ToLowerChar(c), c);
  }

  lemma NormalisedLetter(x: char, c: char)
    requires !IsWhiteSpace(x) && ToUpperChar(x) == c
    ensures ToUpper(Trim([x])) == [c]
  {
    TrimOne(x);
    ToUpperOne(x);
  }

  lemma ParseNormalisedLetter(q: Question, c: char)
    requires !q.IsTrueFalse && 'A' <= c && (c as int) < 'A' as int + |q.Options|
    ensures ParseNormalised(q, [c]) == c as int - 'A' as int
  {
  }

  /** A multiple-choice question accepts the digit of option n - 1, for the
      options one to nine. */
  lemma ParseDigit(q: Question, n: nat)
    requires !q.IsTrueFalse && 1 <= n <= |q.Options| && n <= 9
    ensures ParseAnswer(q, [DigitChar(n)]) == n - 1
  {
    var c := DigitChar(n);
    assert Trim([c]) == [c] by { assert !IsWhiteSpace(c); }
    assert ToUpper([c]) == [c];
    assert !('A' <= c);
    assert NatToString(n) == [c];
    ParseIntOfIntToString(n);
  }

  /** A multiple-choice answer reads as option i exactly when, trimmed and
      upper-cased, it is the letter of option i or an integer that
      int.TryParse reads as i + 1 (so "02", "+2" and " 2" count as 2). */
  lemma ParseChoiceExactly(q: Question, answer: string, i: nat)
    requires !q.IsTrueFalse && i < |q.Options| && i < 26
    ensures var upper := ToUpper(Trim(answer));
      ParseAnswer(q, answer) == i <==>
        (upper == [QuizQuestions.Letter(i)] || ParseInt(upper) == Wrappers.Some(i + 1))
  {
    NormalisedChoiceExactly(q, ToUpper(Trim(answer)), i);
  }

  /** ParseChoiceExactly on the trimmed upper-case answer. */
  lemma NormalisedChoiceExactly(q: Question, upper: string, i: nat)
    requires !q.IsTrueFalse && i < |q.Options| && i < 26
    ensures ParseNormalised(q, upper) == i <==>
      (upper == [QuizQuestions.Letter(i)] || ParseInt(upper) == Wrappers.Some(i + 1))
  {
    if |upper| == 1 && 'A' <= upper[0] && (upper[0] as int) < 'A' as int + |q.Options| {
      LetterIsNoNumber(upper);
      assert upper == [upper[0]];
    }
  }

  /** One character from 'A' on is not a number to int.TryParse. */
  lemma LetterIsNoNumber(s: string)
    requires |s| == 1 && 'A' <= s[0]
    ensures ParseInt(s).None?
  {
    assert TrimNumberWhite(s) == s;
  }

  /** A multiple-choice answer is refused exactly when, trimmed and
      upper-cased, it is neither a letter within the options nor an integer
      from 1 to the number of options. */
  lemma ParseChoiceRefused(q: Question, answer: string)
    requires !q.IsTrueFalse
    ensures var upper := ToUpper(Trim(answer));
      ParseAnswer(q, answer) == -1 <==>
        (!(|upper| == 1 && 'A' <= upper[0] && (upper[0] as int) < 'A' as int + |q.Options|)
         && (ParseInt(upper).None? || !(1 <= ParseInt(upper).value <= |q.Options|)))
  {
  }

  /** Answers are read without regard to surrounding white space. */
  lemma ParseAnswerIgnoresPadding(q: Question, w1: string, answer: string, w2: string)
    requires IsBlank(w1) && IsBlank(w2)
    ensures ParseAnswer(q, w1 + answer + w2) == ParseAnswer(q, answer)
  {
    TrimIgnoresPadding(w1, answer, w2);
  }

  /** Answers are read without regard to case. */
  lemma ParseAnswerIgnoresCase(q: Question, answer: string)
    ensures ParseAnswer(q, ToLower(answer)) == ParseAnswer(q, answer)
  {
    TrimOfToLower(answer);
    ToUpperOfToLower(Trim(answer));
  }

  // ---------------------------------------------------------------- the state

  /** The fields of QuizManager. */
  datatype QuizState = QuizState(questions: seq<Question>, index: int, correct: int, inQuiz: bool)

  /** What every operation keeps: 0 <= correct <= index <= count, an active
      quiz has a current question, and every question is well formed. */
  predicate Valid(s: QuizState)
  {
    0 <= s.correct <= s.index <= |s.questions|
    && (s.inQuiz ==> s.index < |s.questions|)
    && AllWellFormed(s.questions)
  }

  const AlreadyInProgress: string :=
    "A quiz is already in progress. Please answer the current question or clear the chat to start a new one."
  const QuizStarted: string :=
    "Quiz started! Choose the correct option (A, B, C, D for multiple choice, or True/False)."
  const NotActive: string :=
    "The quiz is not active or has ended. Please start a new one if you wish to play again."
  const CorrectReply: string := "Correct! \U{1F389}"
  const InvalidTrueFalse: string :=
    "Invalid answer. Please type 'True' or 'False'."
  const InvalidChoice: string :=
    "Invalid answer. Please choose A, B, C, or D (or 1, 2, 3, 4)."

  /** `(int)((double)correct / count * 100)`, as integer arithmetic. */
  function Percentage(correct: int, count: int): int
    requires 0 <= correct <= count
    ensures 0 <= Percentage(correct, count) <= 100
  {
    if count > 0 then
      PercentageBound(correct, count);
      correct * 100 / count
    else 0
  }

  /** correct * 100 / count lies in 0..100 when correct <= count. */
  lemma PercentageBound(correct: int, count: int)
    requires 0 <= correct <= count && 0 < count
    ensures 0 <= correct * 100 / count <= 100
  {
    assert correct * 100 <= count * 100;
  }

  function CompleteReply(correct: int, count: int): string
    requires 0 <= correct <= count
  {
    "Quiz complete! You scored " + IntToString(Percentage(correct, count)) + "% ("
    + IntToString(correct) + " out of " + IntToString(count) + " correct)."
  }

  function IncorrectReply(q: Question): string
    requires WellFormed(q)
  {
    var option := q.Options[q.CorrectAnswerIndex];
    var shown := if q.IsTrueFalse then option else [QuizQuestions.Letter(q.CorrectAnswerIndex)] + ". " + option;
    "Incorrect. The correct answer was " + shown
  }

  /** EndQuiz(): the quiz stops and the score is reported. */
  function EndQuiz(s: QuizState): (QuizState, seq<string>)
    requires 0 <= s.correct <= |s.questions|
  {
    (s.(inQuiz := false), [CompleteReply(s.correct, |s.questions|)])
  }

  /** PresentQuizQuestion(): the current question, or the end of the quiz. */
  function Present(s: QuizState): (QuizState, seq<string>)
    requires 0 <= s.index && 0 <= s.correct <= |s.questions|
  {
    if s.index < |s.questions| then (s, [QuestionText(s.questions[s.index])])
    else EndQuiz(s)
  }

  /** StartNewQuiz(), with the shuffle's draws passed in.  A quiz already
      running is left alone; otherwise cursor and score restart at zero.
      Either way the questions are only reordered. */
  function Start(s: QuizState, draw: nat -> nat): (r: (QuizState, seq<string>))
    ensures s.inQuiz ==> r.0 == s
    ensures !s.inQuiz ==> r.0.index == 0 && r.0.correct == 0
    ensures multiset(r.0.questions) == multiset(s.questions)
    ensures r.1 != [] && r.1[0] == (if s.inQuiz then AlreadyInProgress else QuizStarted)
  {
    if s.inQuiz then (s, [AlreadyInProgress])
    else
      ShuffledPermutes(s.questions, draw);
      var started := QuizState(Shuffled(s.questions, draw), 0, 0, true);
      var p := Present(started);
      (p.0, [QuizStarted] + p.1)
  }

  /** An accepted answer: the reply and the explanation, then the next
      question or the result. */
  function Accepted(s: QuizState, reply: string, q: Question): (QuizState, seq<string>)
    requires 0 <= s.index && 0 <= s.correct <= |s.questions|
  {
    var p := Present(s.(index := s.index + 1));
    (p.0, [reply, "Explanation: " + q.Explanation] + p.1)
  }

  /** ProcessQuizAnswer(answer). */
  function Answer(s: QuizState, answer: string): (r: (QuizState, seq<string>))
    requires Valid(s)
    ensures r.0.questions == s.questions
    ensures r.0.index == s.index || r.0.index == s.index + 1
    ensures s.correct <= r.0.correct <= s.correct + 1
    ensures r.1 != []
  {
    if !s.inQuiz || s.index >= |s.questions| then (s.(inQuiz := false), [NotActive])
    else
      var q := s.questions[s.index];
      Judge(s, q, ParseAnswer(q, answer))
  }

  /** The judgement of the parsed answer `a` to the current question `q`:
      right, wrong, or not an option at all (which does not advance). */
  function Judge(s: QuizState, q: Question, a: int): (r: (QuizState, seq<string>))
    requires Valid(s) && s.index < |s.questions| && q == s.questions[s.index]
    ensures r.0.questions == s.questions
    ensures r.0.index == s.index || r.0.index == s.index + 1
    ensures s.correct <= r.0.correct <= s.correct + 1
    ensures r.1 != []
  {
    if a == q.CorrectAnswerIndex then
      Accepted(s.(correct := s.correct + 1), CorrectReply, q)
    else if a != -1 then
      Accepted(s, IncorrectReply(q), q)
    else
      (s, [if q.IsTrueFalse then InvalidTrueFalse else InvalidChoice])
  }

  /** GetQuizScore(). */
  function Score(s: QuizState): (r: int)
    requires 0 <= s.correct <= |s.questions|
    ensures r == -1 <==> s.inQuiz
    ensures !s.inQuiz ==> 0 <= r <= 100
    ensures !s.inQuiz && |s.questions| > 0 ==> r == s.correct * 100 / |s.questions|
  {
    if s.inQuiz then -1
    else if |s.questions| == 0 then 0
    else Percentage(s.correct, |s.questions|)
  }

  /** ResetQuizState(). */
  function Reset(s: QuizState): (r: QuizState)
    ensures r.questions == s.questions && !r.inQuiz && r.index == 0 && r.correct == 0
  {
    s.(inQuiz := false, index := 0, correct := 0)
  }

  /** The state a new QuizManager starts in: the bank, shuffled once. */
  function Initial(draw: nat -> nat): (s: QuizState)
    ensures Valid(s) && !s.inQuiz && s.index == 0 && s.correct == 0 && |s.questions| == 12
    ensures Score(s) == 0
  {
    BankWellFormed();
    ShuffledKeepsWellFormed(Bank(), draw);
    QuizState(Shuffled(Bank(), draw), 0, 0, false)
  }

  // ---------------------------------------------------------------- properties

  /** Starting while a quiz runs changes nothing and only posts a message. */
  lemma StartWhileActive(s: QuizState, draw: nat -> nat)
    requires s.inQuiz
    ensures Start(s, draw) == (s, [AlreadyInProgress])
  {
  }

  /** Starting from an inactive quiz resets cursor and score, permutes the
      questions and presents the first one (or ends at once without any). */
  lemma StartFromInactive(s: QuizState, draw: nat -> nat)
    requires Valid(s) && !s.inQuiz
    ensures var r := Start(s, draw); var s', msgs := r.0, r.1;
      && Valid(s')
      && s'.index == 0 && s'.correct == 0
      && (s'.inQuiz <==> |s.questions| > 0)
      && multiset(s'.questions) == multiset(s.questions)
      && |msgs| == 2 && msgs[0] == QuizStarted
      && (|s.questions| > 0 ==> msgs[1] == QuestionText(s'.questions[0]))
  {
    ShuffledPermutes(s.questions, draw);
    ShuffledKeepsWellFormed(s.questions, draw);
  }

  /** Every start keeps the state valid. */
  lemma StartKeepsValid(s: QuizState, draw: nat -> nat)
    requires Valid(s)
    ensures Valid(Start(s, draw).0)
  {
    if !s.inQuiz {
      StartFromInactive(s, draw);
    }
  }

  /** Answering while no quiz is active only forces the quiz off. */
  lemma AnswerWhenInactive(s: QuizState, answer: string)
    requires Valid(s) && !s.inQuiz
    ensures Answer(s, answer) == (s.(inQuiz := false), [NotActive])
  {
  }

  /** An answer in no accepted format changes no field. */
  lemma AnswerInvalid(s: QuizState, answer: string)
    requires Valid(s) && s.inQuiz
    requires ParseAnswer(s.questions[s.index], answer) == -1
    ensures Answer(s, answer).0 == s
  {
  }

  /** A valid answer moves the cursor on by one and adds one to the score
      exactly when it is the right one; the quiz stays active exactly while
      questions remain. */
  lemma AnswerValid(s: QuizState, answer: string)
    requires Valid(s) && s.inQuiz
    requires ParseAnswer(s.questions[s.index], answer) != -1
    ensures var s' := Answer(s, answer).0;
      var right := ParseAnswer(s.questions[s.index], answer) == s.questions[s.index].CorrectAnswerIndex;
      && Valid(s')
      && s'.questions == s.questions
      && s'.index == s.index + 1
      && s'.correct == (if right then s.correct + 1 else s.correct)
      && (s'.inQuiz <==> s'.index < |s.questions|)
  {
  }

  /** A valid answer is told right or wrong, then gets the explanation, then
      the next question or, after the last one, the score report. */
  lemma AnswerValidReplies(s: QuizState, answer: string)
    requires Valid(s) && s.inQuiz
    requires ParseAnswer(s.questions[s.index], answer) != -1
    ensures var q := s.questions[s.index];
      var r := Answer(s, answer); var s', msgs := r.0, r.1;
      && |msgs| == 3
      && msgs[0] == (if ParseAnswer(q, answer) == q.CorrectAnswerIndex then CorrectReply else IncorrectReply(q))
      && msgs[1] == "Explanation: " + q.Explanation
      && msgs[2] == (if s'.index < |s.questions| then QuestionText(s.questions[s'.index])
                     else CompleteReply(s'.correct, |s.questions|))
  {
  }

  /** Every answer keeps the state valid. */
  lemma AnswerKeepsValid(s: QuizState, answer: string)
    requires Valid(s)
    ensures Valid(Answer(s, answer).0)
  {
    if s.inQuiz && ParseAnswer(s.questions[s.index], answer) != -1 {
      AnswerValid(s, answer);
    }
  }

  /** The fixed replies to a refused answer are not empty. */
  lemma RefusalsNotEmpty()
    ensures |NotActive| > 0 && |InvalidTrueFalse| > 0 && |InvalidChoice| > 0
  {
  }

  /** Every answer posts at least one message and the last one is not
      empty, so the reply read back from the history is never empty. */
  lemma AnswerPostsReply(s: QuizState, answer: string)
    requires Valid(s)
    ensures var msgs := Answer(s, answer).1;
      |msgs| > 0 && msgs[|msgs| - 1] != ""
  {
    RefusalsNotEmpty();
    if s.inQuiz && ParseAnswer(s.questions[s.index], answer) != -1 {
      AnswerValidReplies(s, answer);
      AnswerValid(s, answer);
      var s' := Answer(s, answer).0;
      if s'.index < |s.questions| {
        QuestionTextShape(s.questions[s'.index], 0);
      }
    }
  }

  /** The score is -1 exactly while a quiz runs, and otherwise a percentage;
      it is 0 after a reset. */
  lemma ScoreRange(s: QuizState)
    requires Valid(s)
    ensures Score(s) == -1 <==> s.inQuiz
    ensures !s.inQuiz ==> 0 <= Score(s) <= 100
    ensures Score(Reset(s)) == 0
  {
  }

  /** Resetting twice is resetting once. */
  lemma ResetIdempotent(s: QuizState)
    ensures Reset(Reset(s)) == Reset(s) && Valid(Reset(s)) == AllWellFormed(s.questions)
  {
  }

  // ---------------------------------------------------------------- the object

  /** The quiz object.  The C# callback messages are the methods' results. */
  class QuizManager {
    var quizQuestions: seq<Question>
    var currentQuestionIndex: int
    var correctAnswers: int
    var inQuiz: bool

    function Abs(): QuizState
      reads this
    {
      QuizState(quizQuestions, currentQuestionIndex, correctAnswers, inQuiz)
    }

    /** IsQuizActive(). */
    function IsQuizActive(): (active: bool)
      reads this
      ensures 0 <= correctAnswers <= |quizQuestions| ==> (active <==> GetQuizScore() == -1)
    {
      inQuiz
    }

    /** GetQuizScore(). */
    function GetQuizScore(): (score: int)
      reads this
      requires 0 <= correctAnswers <= |quizQuestions|
      ensures score == -1 <==> inQuiz
      ensures !inQuiz ==> 0 <= score <= 100
    {
      Score(Abs())
    }

    /** `new QuizManager(callback)`, with the first shuffle's draws passed in. */
    constructor(draw: nat -> nat)
      ensures Abs() == Initial(draw)
    {
      quizQuestions := Bank();
      currentQuestionIndex := 0;
      correctAnswers := 0;
      inQuiz := false;
      new;
      ShuffleQuestions(draw);
    }

    /** ShuffleQuestions(): the Fisher-Yates swap loop. */
    method ShuffleQuestions(draw: nat -> nat)
      modifies this
      ensures quizQuestions == Shuffled(old(quizQuestions), draw)
      ensures currentQuestionIndex == old(currentQuestionIndex)
      ensures correctAnswers == old(correctAnswers) && inQuiz == old(inQuiz)
    {
      var n := |quizQuestions|;
      while n > 1
        invariant 0 <= n <= |quizQuestions|
        invariant ShuffleFrom(quizQuestions, n, draw) == Shuffled(old(quizQuestions), draw)
        invariant currentQuestionIndex == old(currentQuestionIndex)
        invariant correctAnswers == old(correctAnswers) && inQuiz == old(inQuiz)
      {
        n := n - 1;
        var k := draw(n) % (n + 1);
        var value := quizQuestions[k];
        quizQuestions := quizQuestions[k := quizQuestions[n]];
        quizQuestions := quizQuestions[n := value];
      }
    }

    /** StartNewQuiz(). */
    method StartNewQuiz(draw: nat -> nat) returns (msgs: seq<string>)
      requires 0 <= correctAnswers <= |quizQuestions|
      modifies this
      ensures (Abs(), msgs) == Start(old(Abs()), draw)
    {
      if inQuiz {
        return [AlreadyInProgress];
      }
      inQuiz := true;
      currentQuestionIndex := 0;
      correctAnswers := 0;
      ShuffleQuestions(draw);
      var shown := PresentQuizQuestion();
      msgs := [QuizStarted] + shown;
    }

    /** PresentQuizQuestion(). */
    method PresentQuizQuestion() returns (msgs: seq<string>)
      requires 0 <= currentQuestionIndex && 0 <= correctAnswers <= |quizQuestions|
      modifies this
      ensures (Abs(), msgs) == Present(old(Abs()))
    {
      if currentQuestionIndex < |quizQuestions| {
        var q := quizQuestions[currentQuestionIndex];
        var text := GetFormattedQuestion(q);
        msgs := [text];
      } else {
        msgs := EndQuizNow();
      }
    }

    /** EndQuiz(). */
    method EndQuizNow() returns (msgs: seq<string>)
      requires 0 <= correctAnswers <= |quizQuestions|
      modifies this
      ensures (Abs(), msgs) == EndQuiz(old(Abs()))
    {
      inQuiz := false;
      var scorePercentage := if |quizQuestions| > 0 then correctAnswers * 100 / |quizQuestions| else 0;
      msgs := ["Quiz complete! You scored " + IntToString(scorePercentage) + "% ("
               + IntToString(correctAnswers) + " out of " + IntToString(|quizQuestions|) + " correct)."];
    }

    /** ProcessQuizAnswer(answer). */
    method ProcessQuizAnswer(answer: string) returns (msgs: seq<string>)
      requires Valid(Abs())
      modifies this
      ensures (Abs(), msgs) == Answer(old(Abs()), answer)
    {
      if !inQuiz || currentQuestionIndex >= |quizQuestions| {
        inQuiz := false;
        return [NotActive];
      }
      msgs := AnswerCurrent(answer);
    }

    /** The part of ProcessQuizAnswer after the check that a quiz is active:
        read the answer and judge it against the current question. */
    method AnswerCurrent(answer: string) returns (msgs: seq<string>)
      requires Valid(Abs()) && inQuiz && currentQuestionIndex < |quizQuestions|
      modifies this
      ensures (Abs(), msgs) == Answer(old(Abs()), answer)
    {
      var q := quizQuestions[currentQuestionIndex];
      var userAnswerIndex := ParseAnswer(q, answer);
      msgs := JudgeAnswer(q, userAnswerIndex);
    }

    /** The three outcomes of a parsed answer to the current question. */
    method JudgeAnswer(q: Question, userAnswerIndex: int) returns (msgs: seq<string>)
      requires Valid(Abs()) && currentQuestionIndex < |quizQuestions|
      requires q == quizQuestions[currentQuestionIndex]
      modifies this
      ensures (Abs(), msgs) == Judge(old(Abs()), q, userAnswerIndex)
    {
      ghost var e := Abs();
      if userAnswerIndex == q.CorrectAnswerIndex {
        correctAnswers := correctAnswers + 1;
        assert Abs() == e.(correct := e.correct + 1);
        msgs := Advance(CorrectReply, q);
      } else if userAnswerIndex != -1 {
        msgs := Advance(IncorrectReply(q), q);
      } else {
        msgs := [if q.IsTrueFalse then InvalidTrueFalse else InvalidChoice];
      }
    }

    /** The end of an accepted answer: the reply and the explanation, then the
        next question or the result. */
    method Advance(reply: string, q: Question) returns (msgs: seq<string>)
      requires 0 <= currentQuestionIndex < |quizQuestions|
      requires 0 <= correctAnswers <= |quizQuestions|
      modifies this
      ensures (Abs(), msgs) == Accepted(old(Abs()), reply, q)
    {
      currentQuestionIndex := currentQuestionIndex + 1;
      var next := PresentQuizQuestion();
      msgs := [reply, "Explanation: " + q.Explanation] + next;
    }

    /** ResetQuizState(). */
    method ResetQuizState()
      modifies this
      ensures Abs() == Reset(old(Abs()))
    {
      inQuiz := false;
      currentQuestionIndex := 0;
      correctAnswers := 0;
    }
  }
}
