/** ChatEngine.cs: the conversation engine.  It logs every input, lets the
    multi-turn state (quiz, the three steps of adding a task, completing a
    task) take the input first, and otherwise dispatches on fixed command
    phrases in a fixed order.

    The engine's whole state is the value `Engine`; `Process`, `AfterClearChat`,
    `AfterStartQuiz` and `AfterSetUserName` say what each public operation does to it,
    and the class `ChatEngine` at the end performs the same operations on the
    manager objects. */
module Chat {
  import opened Wrappers
  import opened Text
  import opened CyberTasks
  import History
  import Tasks
  import Quiz
  import Activity
  import Responses

  datatype ChatState =
    | Idle
    | InQuiz
    | AddingTaskWaitingForTitle
    | AddingTaskWaitingForDescription
    | AddingTaskWaitingForDate
    | CompletingTask
  {
    /** One of the three steps of adding a task. */
    predicate AddingTask()
    {
      AddingTaskWaitingForTitle? || AddingTaskWaitingForDescription? || AddingTaskWaitingForDate?
    }
  }

  /** The engine's fields, with each manager's state: the history entries,
      the task list, the quiz and the activity log.  `pending` is
      `pendingTask`, with None for null. */
  datatype Engine = Engine(
    state: ChatState,
    pending: Option<CyberTask>,
    userName: string,
    history: seq<string>,
    tasks: seq<CyberTask>,
    quiz: Quiz.QuizState,
    log: seq<string>)

  /** What the outside world supplies to one call: the clock reading for the
      activity log, the value `new Random().Next(...)` draws, the draws of a
      quiz shuffle, and DateTime.TryParse. */
  datatype Env = Env(
    now: DateTime,
    pick: nat,
    draw: nat -> nat,
    parseDate: string -> Option<DateTime>)

  /** What every operation keeps: the quiz invariant, the log bound, a
      pending task whenever a task is being added, and a user name that is
      never empty. */
  predicate Valid(e: Engine)
  {
    Quiz.Valid(e.quiz)
    && e.userName != []
    && |e.log| <= Activity.Capacity
    && (e.state.AddingTask() ==> e.pending.Some?)
  }

  // ---------------------------------------------------------------- replies

  const ExitCommand: string := "EXIT_COMMAND"
  const TitlePrompt: string :=
    "What is the title for this task?"
  const WhichTaskPrompt: string :=
    "Which task number would you like to complete? (e.g., 'complete 1')"
  const NoScore: string :=
    "A quiz is not currently in progress or hasn't been completed yet."
  const StillLearning: string :=
    "I'm still learning! Can you please rephrase that, or ask about a specific cybersecurity topic? Type 'help' for options."
  const DescriptionPrompt: string :=
    "Got it. Now, please provide a short description for this task."
  const EmptyTitle: string :=
    "The task title cannot be empty. Please try again."
  const DatePrompt: string :=
    "Okay. Do you want to set a reminder date and time? (e.g., '2025-12-31 18:00' or 'no')"
  const EmptyDescription: string :=
    "The task description cannot be empty. Please try again."
  const BadDate: string :=
    "I couldn't understand that date. Please try a format like 'YYYY-MM-DD HH:MM' or type 'no' for no reminder."
  const InvalidNumberPrompt: string :=
    "Please provide a valid task number to complete."

  const InitializedActivity: string :=
    "Chatbot engine initialized."
  const ClearedActivity: string := "Chat cleared."
  const GuestName: string := "Guest"

  /** The goodbye posted on "exit", "quit" or "bye". */
  function Goodbye(name: string): string
  {
    "Goodbye, " + name + "! Stay safe online!"
  }

  /** The four replies to thanks. */
  function ThankReplies(name: string): (r: seq<string>)
    ensures |r| == 4
  {
    ["You're welcome, " + name + "! Happy to help with cybersecurity!",
     "No problem, " + name + "! Is there anything else you'd like to know about online safety?",
     "You're very welcome, " + name + "! Feel free to ask me more questions anytime.",
     "Glad I could help, " + name + "! What else would you like to learn about cybersecurity?"]
  }

  /** The three greetings. */
  function Greetings(name: string): (r: seq<string>)
    ensures |r| == 3
  {
    ["Hello there, " + name + "! How can I help you with cybersecurity today?",
     "Hi " + name + "! Ready to learn something new about online safety?",
     "Greetings, " + name + "! What's on your mind regarding cybersecurity?"]
  }

  /** The reply to "how many tasks". */
  function HowManyReply(count: nat): string
  {
    "You currently have " + IntToString(count) + " active tasks."
  }

  /** The reply to "my quiz score" / "what's my score". */
  function ScoreReply(score: int): string
  {
    if score != -1 then "Your last quiz score was " + IntToString(score) + "%." else NoScore
  }

  /** The activity logged for each input. */
  function InputActivity(input: string): string
  {
    "User input: \"" + input + "\""
  }

  // ---------------------------------------------------------------- posting

  /** A manager's callback messages, posted to the history. */
  function PostAll(e: Engine, msgs: seq<string>): (r: Engine)
    ensures r == e.(history := r.history)
    ensures r.history == e.history + History.Posted(msgs)
  {
    e.(history := e.history + History.Posted(msgs))
  }

  /** One message posted by the engine itself (AddSystemMessage). */
  function Post(e: Engine, msg: string): (r: Engine)
    ensures r == e.(history := r.history)
    ensures r.history == e.history + [History.SystemPrefix + msg]
    ensures History.LatestContent(r.history) == msg
  {
    History.LatestAfterSystem(e.history, msg);
    e.(history := e.history + [History.SystemPrefix + msg])
  }

  /** The latest entry of the history shows `reply`. */
  predicate Shown(e: Engine, reply: string)
  {
    Contains(History.LatestContent(e.history), reply)
  }

  /** `after` keeps the log and the user name of `e` and only adds history
      entries. */
  predicate Grows(e: Engine, after: Engine)
  {
    after.log == e.log && after.userName == e.userName && e.history <= after.history
  }

  /** The de-duplication after the state handler: a non-empty response is
      posted unless the latest entry already contains it. */
  function StateDedupe(e: Engine, response: string): (r: (Engine, string))
    ensures r.0 == e.(history := r.0.history) && r.1 == response
    ensures r.0.history == e.history || r.0.history == e.history + [History.SystemPrefix + response]
    ensures response != "" ==> Shown(r.0, response)
  {
    ContainsInfix([], response, []);
    assert [] + response + [] == response;
    if response != "" && !Contains(History.LatestContent(e.history), response) then
      (Post(e, response), response)
    else (e, response)
  }

  /** The de-duplication after a direct command: the response is posted when
      it is empty or the latest entry does not contain it. */
  function DirectDedupe(e: Engine, response: string): (r: (Engine, string))
    ensures r.0 == e.(history := r.0.history) && r.1 == response
    ensures r.0.history == e.history || r.0.history == e.history + [History.SystemPrefix + response]
    ensures Shown(r.0, response)
  {
    ContainsInfix([], response, []);
    assert [] + response + [] == response;
    if response == "" || !Contains(History.LatestContent(e.history), response) then
      (Post(e, response), response)
    else (e, response)
  }

  /** For a non-empty response both rules agree: the response is posted
      exactly when the latest entry does not show it yet, only the history
      changes, and afterwards the latest entry shows it. */
  lemma DedupeShowsReply(e: Engine, response: string)
    requires response != ""
    ensures var r := StateDedupe(e, response);
      && r == DirectDedupe(e, response)
      && r.1 == response
      && (r.0 == Post(e, response) <==> !Contains(History.LatestContent(e.history), response))
      && (r.0 == e <==> Contains(History.LatestContent(e.history), response))
      && Shown(r.0, response)
  {
    assert |Post(e, response).history| == |e.history| + 1;
  }

  // ---------------------------------------------------------------- task numbers

  /** The value of the right-most of `parts` that `parse` accepts. */
  function LastParsed(parts: seq<string>, parse: string -> Option<int>): Option<int>
    decreases |parts|
  {
    if parts == [] then None
    else
      var v := parse(parts[|parts| - 1]);
      if v.Some? then v else LastParsed(parts[..|parts| - 1], parse)
  }

  /** LastParsed finds nothing exactly when no part parses, and otherwise the
      value of a part after which no part parses. */
  lemma {:induction false} LastParsedIsRightmost(parts: seq<string>, parse: string -> Option<int>)
    ensures LastParsed(parts, parse).None? <==> forall i :: 0 <= i < |parts| ==> parse(parts[i]).None?
    ensures LastParsed(parts, parse).Some? ==>
      exists i :: 0 <= i < |parts| && parse(parts[i]) == LastParsed(parts, parse)
                  && forall j :: i < j < |parts| ==> parse(parts[j]).None?
    decreases |parts|
  {
    if parts != [] {
      var last := |parts| - 1;
      var init := parts[..last];
      LastParsedIsRightmost(init, parse);
      if parse(parts[last]).Some? {
        assert LastParsed(parts, parse) == parse(parts[last]);
      } else {
        assert LastParsed(parts, parse) == LastParsed(init, parse);
        if LastParsed(init, parse).Some? {
          var i :| 0 <= i < |init| && parse(init[i]) == LastParsed(init, parse)
                   && forall j :: i < j < |init| ==> parse(init[j]).None?;
          assert init[i] == parts[i];
          forall j | i < j < |parts| ensures parse(parts[j]).None? {
            if j < last {
              assert init[j] == parts[j];
            }
          }
        } else {
          forall i | 0 <= i < |parts| ensures parse(parts[i]).None? {
            if i < last {
              assert init[i] == parts[i];
            }
          }
        }
      }
    }
  }

  /** ExtractTaskIndexFromInput(input): the value of the right-most token
      between single spaces that parses as an int, or -1 when there is none. */
  function ExtractTaskIndex(input: string): int
  {
    var v := LastParsed(Split(input, ' '), ParseInt);
    if v.Some? then v.value else -1
  }

  /** The task index is -1 when no token parses, and otherwise the value of
      the right-most token that parses (a token "-1" looks like none). */
  lemma ExtractTaskIndexRightmost(input: string)
    ensures var parts := Split(input, ' ');
      && ((forall i :: 0 <= i < |parts| ==> ParseInt(parts[i]).None?) ==> ExtractTaskIndex(input) == -1)
      && (ExtractTaskIndex(input) != -1 ==>
            exists i :: 0 <= i < |parts| && ParseInt(parts[i]) == Some(ExtractTaskIndex(input))
                        && forall j :: i < j < |parts| ==> ParseInt(parts[j]).None?)
  {
    LastParsedIsRightmost(Split(input, ' '), ParseInt);
  }

  /** Conversely, a token that parses with no parsing token after it gives
      the task index its value. */
  lemma ExtractTaskIndexOfRightmost(input: string, i: nat)
    requires var parts := Split(input, ' ');
      && i < |parts| && ParseInt(parts[i]).Some?
      && forall j :: i < j < |parts| ==> ParseInt(parts[j]).None?
    ensures ExtractTaskIndex(input) == ParseInt(Split(input, ' ')[i]).value
  {
    var parts := Split(input, ' ');
    LastParsedIsRightmost(parts, ParseInt);
    var k :| 0 <= k < |parts| && ParseInt(parts[k]) == LastParsed(parts, ParseInt)
             && forall j :: k < j < |parts| ==> ParseInt(parts[j]).None?;
    assert k == i;
  }

  /** A non-negative number written as the last token is the task index,
      whatever comes before it. */
  lemma TaskNumberAtEnd(prefix: string, n: nat)
    requires n <= MaxInt32
    ensures ExtractTaskIndex(prefix + " " + IntToString(n)) == n
  {
    var digits := IntToString(n);
    assert ' ' !in digits by {
      assert AllDigits(digits);
    }
    SplitAround(prefix, digits, ' ');
    SplitNoSep(digits, ' ');
    ParseIntOfIntToString(n);
    var parts := Split(prefix, ' ') + [digits];
    assert parts[|parts| - 1] == digits;
  }

  // ---------------------------------------------------------------- the state handler

  /** The answer passed to the quiz and the quiz's messages posted. */
  function Answered(e: Engine, input: string): (p: Engine)
    requires Valid(e)
    ensures Valid(p) && Grows(e, p)
    ensures p == e.(quiz := p.quiz, history := p.history)
    ensures var (q, msgs) := Quiz.Answer(e.quiz, input);
      && p.quiz == q
      && p.history == e.history + History.Posted(msgs)
      && |msgs| > 0 && History.LatestContent(p.history) == msgs[|msgs| - 1] != ""
  {
    Quiz.AnswerKeepsValid(e.quiz, input);
    Quiz.AnswerPostsReply(e.quiz, input);
    History.LatestAfterPosted(e.history, Quiz.Answer(e.quiz, input).1);
    var (q, msgs) := Quiz.Answer(e.quiz, input);
    PostAll(e.(quiz := q), msgs)
  }

  /** The InQuiz step: the answer goes to the quiz, the reply is the quiz's
      last message, and the engine goes idle once the quiz is over. */
  function QuizStep(e: Engine, input: string): (r: (Engine, string))
    requires Valid(e)
    ensures Valid(r.0) && Grows(e, r.0)
    ensures r.0.tasks == e.tasks && r.0.pending == e.pending
    ensures r.0.quiz == Quiz.Answer(e.quiz, input).0
    ensures r.0.state == if r.0.quiz.inQuiz then e.state else Idle
    ensures var msgs := Quiz.Answer(e.quiz, input).1;
      |msgs| > 0 && r.1 == msgs[|msgs| - 1] && r.1 != "" && Shown(r.0, r.1)
  {
    var p := Answered(e, input);
    StateDedupe(p.(state := if p.quiz.inQuiz then e.state else Idle), History.LatestContent(p.history))
  }

  /** The WaitingForTitle step. */
  function TitleStep(e: Engine, input: string): (r: (Engine, string))
    requires Valid(e) && e.pending.Some?
    ensures Valid(r.0) && Grows(e, r.0) && r.1 != "" && Shown(r.0, r.1)
    ensures r.0.tasks == e.tasks && r.0.quiz == e.quiz
    ensures !IsBlank(input) ==>
      && r.0.state == AddingTaskWaitingForDescription
      && r.0.pending == Some(e.pending.value.(Title := Trim(input)))
      && r.1 == DescriptionPrompt
    ensures IsBlank(input) ==> r.0.state == e.state && r.0.pending == e.pending && r.1 == EmptyTitle
  {
    if !IsBlank(input) then
      StateDedupe(e.(pending := Some(e.pending.value.(Title := Trim(input))),
                     state := AddingTaskWaitingForDescription), DescriptionPrompt)
    else StateDedupe(e, EmptyTitle)
  }

  /** The WaitingForDescription step. */
  function DescriptionStep(e: Engine, input: string): (r: (Engine, string))
    requires Valid(e) && e.pending.Some?
    ensures Valid(r.0) && Grows(e, r.0) && r.1 != "" && Shown(r.0, r.1)
    ensures r.0.tasks == e.tasks && r.0.quiz == e.quiz
    ensures !IsBlank(input) ==>
      && r.0.state == AddingTaskWaitingForDate
      && r.0.pending == Some(e.pending.value.(Description := Trim(input)))
      && r.1 == DatePrompt
    ensures IsBlank(input) ==> r.0.state == e.state && r.0.pending == e.pending && r.1 == EmptyDescription
  {
    if !IsBlank(input) then
      StateDedupe(e.(pending := Some(e.pending.value.(Description := Trim(input))),
                     state := AddingTaskWaitingForDate), DatePrompt)
    else StateDedupe(e, EmptyDescription)
  }

  /** The WaitingForDate step: "no" or a date the parser accepts adds the
      pending task; anything else is answered at once, with nothing posted. */
  function DateStep(e: Engine, input: string, parseDate: string -> Option<DateTime>): (r: (Engine, string))
    requires Valid(e) && e.pending.Some?
    ensures Valid(r.0) && Grows(e, r.0) && r.0.quiz == e.quiz && r.1 != ""
    ensures var no := ToLower(input) == "no";
      if !no && parseDate(input).None? then r == (e, BadDate)
      else
        var reminder := if no then None else parseDate(input);
        var t := e.pending.value;
        && r.0.state == Idle && r.0.pending == None
        && r.0.tasks == e.tasks + [Tasks.AddedTask(t.Title, t.Description, reminder)]
        && r.1 == Tasks.AddedMessage(t.Title, reminder) && Shown(r.0, r.1)
  {
    var no := ToLower(input) == "no";
    if !no && parseDate(input).None? then (e, BadDate)
    else
      var reminder := if no then None else parseDate(input);
      var t := e.pending.value;
      var added := Post(e.(tasks := e.tasks + [Tasks.AddedTask(t.Title, t.Description, reminder)]),
                        Tasks.AddedMessage(t.Title, reminder));
      StateDedupe(added.(state := Idle, pending := None), History.LatestContent(added.history))
  }

  /** The CompletingTask step: a number is passed to CompleteTask, anything
      else gets a prompt, and the engine goes idle either way. */
  function CompleteStep(e: Engine, input: string): (r: (Engine, string))
    requires Valid(e)
    ensures Valid(r.0) && Grows(e, r.0) && r.1 != "" && Shown(r.0, r.1)
    ensures r.0.state == Idle && r.0.pending == e.pending && r.0.quiz == e.quiz
    ensures ParseInt(input).Some? ==>
      var n := ParseInt(input).value;
      r.0.tasks == Tasks.CompleteAt(e.tasks, n) && r.1 == Tasks.CompleteMessage(e.tasks, n)
    ensures ParseInt(input).None? ==> r.0.tasks == e.tasks && r.1 == InvalidNumberPrompt
  {
    var n := ParseInt(input);
    if n.Some? then
      var done := Post(e.(tasks := Tasks.CompleteAt(e.tasks, n.value)), Tasks.CompleteMessage(e.tasks, n.value));
      StateDedupe(done.(state := Idle), History.LatestContent(done.history))
    else StateDedupe(e.(state := Idle), InvalidNumberPrompt)
  }

  /** HandleStateBasedInput(input) on the lower-cased, trimmed input: the new
      state and the response, "" standing for null. */
  function HandleState(e: Engine, input: string, env: Env): (r: (Engine, string))
    requires Valid(e)
    ensures Valid(r.0) && Grows(e, r.0)
    ensures e.state == Idle <==> r == (e, "")
    ensures e.state != Idle ==> r.1 != ""
  {
    match e.state
    case Idle => (e, "")
    case InQuiz => QuizStep(e, input)
    case AddingTaskWaitingForTitle => TitleStep(e, input)
    case AddingTaskWaitingForDescription => DescriptionStep(e, input)
    case AddingTaskWaitingForDate => DateStep(e, input, env.parseDate)
    case CompletingTask => CompleteStep(e, input)
  }

  // ---------------------------------------------------------------- direct commands

  /** The direct commands, in the order ProcessUserInput tests them. */
  datatype Command =
    | Exit | Thank | Help | StartQuizCommand | AddTask | CompleteTaskCommand
    | ViewTasks | ActivityLog | HowManyTasks | QuizScore | Topic | Hello | Unknown

  const Commands: seq<Command> := [
    Exit, Thank, Help, StartQuizCommand, AddTask, CompleteTaskCommand,
    ViewTasks, ActivityLog, HowManyTasks, QuizScore, Topic, Hello]

  /** The phrases of each command: the whole input for "exit" and "help",
      a part of it for the others. */
  function Phrases(c: Command): seq<string>
  {
    match c
    case Exit => ["exit", "quit", "bye"]
    case Thank => ["thank", "thanks"]
    case Help => ["help"]
    case StartQuizCommand => ["start quiz"]
    case AddTask => ["add task"]
    case CompleteTaskCommand => ["complete task"]
    case ViewTasks => ["view tasks", "show tasks"]
    case ActivityLog => ["show activity log", "view activity log"]
    case HowManyTasks => ["how many tasks"]
    case QuizScore => ["my quiz score", "what's my score"]
    case Hello => ["hello", "hi"]
    case _ => []
  }

  /** The test of each command on the lower-cased, trimmed input. */
  predicate Matches(lower: string, c: Command)
  {
    match c
    case Exit => lower in Phrases(c)
    case Help => lower in Phrases(c)
    case Topic => Responses.IsCybersecurityQuestion(lower)
    case Unknown => true
    case _ => AnyContained(lower, Phrases(c))
  }

  /** The position of the first command from `k` on whose test the input
      passes, or |Commands| when there is none. */
  function FirstMatch(lower: string, k: nat): (j: nat)
    requires k <= |Commands|
    ensures k <= j <= |Commands|
    ensures j < |Commands| ==> Matches(lower, Commands[j])
    ensures forall i :: k <= i < j ==> !Matches(lower, Commands[i])
    // |lower| never decides; naming it keeps the verifier from unrolling the
    // whole chain whenever the position is a literal
    decreases |Commands| - k, |lower|
  {
    if k == |Commands| then k
    else if Matches(lower, Commands[k]) then k
    else FirstMatch(lower, k + 1)
  }

  /** The command ProcessUserInput carries out: the first whose test the
      input passes. */
  function CommandOf(lower: string): (c: Command)
    ensures Matches(lower, c)
  {
    var j := FirstMatch(lower, 0);
    if j < |Commands| then Commands[j] else Unknown
  }

  /** The position of a command in the test order. */
  function CommandRank(c: Command): (k: nat)
    requires c != Unknown
    ensures k < |Commands| && Commands[k] == c
  {
    match c
    case Exit => 0 case Thank => 1 case Help => 2 case StartQuizCommand => 3
    case AddTask => 4 case CompleteTaskCommand => 5 case ViewTasks => 6
    case ActivityLog => 7 case HowManyTasks => 8 case QuizScore => 9
    case Topic => 10 case Hello => 11
  }

  /** Each command appears once in the order. */
  lemma CommandRankOf(k: nat)
    requires k < |Commands|
    ensures Commands[k] != Unknown && CommandRank(Commands[k]) == k
  {
  }

  /** Command k is chosen exactly when the input passes its test and the
      test of no command before it. */
  lemma CommandIsFirst(lower: string, k: nat)
    requires k < |Commands|
    ensures CommandOf(lower) == Commands[k] <==>
      Matches(lower, Commands[k]) && forall j :: 0 <= j < k ==> !Matches(lower, Commands[j])
  {
    var j := FirstMatch(lower, 0);
    CommandRankOf(k);
    if j < |Commands| {
      CommandRankOf(j);
    }
  }

  /** The fallback is chosen exactly when no command's test passes. */
  lemma CommandUnknown(lower: string)
    ensures CommandOf(lower) == Unknown <==>
      forall j :: 0 <= j < |Commands| ==> !Matches(lower, Commands[j])
  {
    var j := FirstMatch(lower, 0);
    if j < |Commands| {
      CommandRankOf(j);
    }
  }

  /** The reply of a command that only answers. */
  function Answer(e: Engine, c: Command, lower: string, pick: nat): string
    requires 0 <= e.quiz.correct <= |e.quiz.questions|
  {
    match c
    case Thank => ThankReplies(e.userName)[pick % 4]
    case Help => Responses.HelpMessage
    case HowManyTasks => HowManyReply(Tasks.ActiveCount(e.tasks))
    case QuizScore => ScoreReply(Quiz.Score(e.quiz))
    case Topic => Responses.GetCybersecurityResponse(lower, pick)
    case Hello => Greetings(e.userName)[pick % 3]
    case _ => StillLearning
  }

  /** A command that only answers leaves the engine as it is. */
  predicate AnswersOnly(c: Command)
  {
    !(c.Exit? || c.StartQuizCommand? || c.AddTask? || c.CompleteTaskCommand? || c.ViewTasks? || c.ActivityLog?)
  }

  /** The state a command leaves the engine in. */
  function CommandState(s: ChatState, c: Command, lower: string): ChatState
  {
    if c == AddTask then AddingTaskWaitingForTitle
    else if c == CompleteTaskCommand && ExtractTaskIndex(lower) == -1 then CompletingTask
    else s
  }

  /** The effect and reply of a command, before de-duplication. */
  function RunCommand(e: Engine, c: Command, lower: string, env: Env): (r: (Engine, string))
    requires Valid(e)
    ensures Valid(r.0) && Grows(e, r.0)
    ensures r.0.state == CommandState(e.state, c, lower)
    ensures r.0.pending == if c == AddTask then Some(NewTask()) else e.pending
    ensures AnswersOnly(c) ==> r == (e, Answer(e, c, lower, env.pick))
  {
    if AnswersOnly(c) then (e, Answer(e, c, lower, env.pick))
    else
      match c
      case Exit => (Post(e, Goodbye(e.userName)), ExitCommand)
      case StartQuizCommand =>
        Quiz.StartKeepsValid(e.quiz, env.draw);
        var (q, msgs) := Quiz.Start(e.quiz, env.draw);
        var posted := PostAll(e.(quiz := q), msgs);
        (posted, History.LatestContent(posted.history))
      case AddTask => (e.(state := AddingTaskWaitingForTitle, pending := Some(NewTask())), TitlePrompt)
      case CompleteTaskCommand =>
        var index := ExtractTaskIndex(lower);
        if index != -1 then
          var done := Post(e.(tasks := Tasks.CompleteAt(e.tasks, index)), Tasks.CompleteMessage(e.tasks, index));
          (done, History.LatestContent(done.history))
        else (e.(state := CompletingTask), WhichTaskPrompt)
      case ViewTasks =>
        var posted := Post(e, Tasks.Listing(e.tasks));
        (posted, History.LatestContent(posted.history))
      case ActivityLog =>
        var posted := Post(e, Activity.ActivityListing(e.log));
        (posted, History.LatestContent(posted.history))
  }

  /** The direct-command half of ProcessUserInput: "exit" returns at once,
      every other reply goes through the de-duplication. */
  function Direct(e: Engine, lower: string, env: Env): (r: (Engine, string))
    requires Valid(e)
    ensures Valid(r.0) && Grows(e, r.0)
    ensures r.0.state == CommandState(e.state, CommandOf(lower), lower)
    ensures r.0.pending == if CommandOf(lower) == AddTask then Some(NewTask()) else e.pending
    ensures CommandOf(lower) != Exit ==> Shown(r.0, r.1)
    ensures CommandOf(lower) == Exit ==> r == (Post(e, Goodbye(e.userName)), ExitCommand)
  {
    var c := CommandOf(lower);
    var (after, reply) := RunCommand(e, c, lower, env);
    if c == Exit then (after, reply) else DirectDedupe(after, reply)
  }

  // ---------------------------------------------------------------- ProcessUserInput

  /** The input recorded in the history and in the activity log. */
  function LogInput(e: Engine, input: string, now: DateTime): (r: Engine)
    requires Valid(e)
    ensures Valid(r)
    ensures r == e.(history := r.history, log := r.log)
    ensures r.history == e.history + [History.UserPrefix + input]
  {
    e.(history := e.history + [History.UserPrefix + input],
       log := Activity.Logged(e.log, Activity.Entry(now, InputActivity(input))))
  }

  /** `input.ToLower().Trim()`, the form every test sees. */
  function Lower(input: string): string
  {
    Trim(ToLower(input))
  }

  /** ProcessUserInput(input): the new state and the reply. */
  function Process(e: Engine, input: string, env: Env): (r: (Engine, string))
    requires Valid(e)
    ensures Valid(r.0)
  {
    var logged := LogInput(e, input, env.now);
    var lower := Lower(input);
    var (handled, response) := HandleState(logged, lower, env);
    if response != "" then (handled, response)
    else Direct(handled, lower, env)
  }

  // ---------------------------------------------------------------- properties of ProcessUserInput

  /** Every input is recorded first: one "User: " entry opens what the call
      adds to the history, one activity entry is logged, and nothing else
      reaches the log. */
  lemma ProcessLogsInput(e: Engine, input: string, env: Env)
    requires Valid(e)
    ensures var r := Process(e, input, env);
      && e.history + [History.UserPrefix + input] <= r.0.history
      && r.0.log == Activity.Logged(e.log, Activity.Entry(env.now, InputActivity(input)))
      && r.0.userName == e.userName
  {
  }

  /** Outside Idle the state handler answers, whatever the input: no direct
      command is tested. */
  lemma StateFirst(e: Engine, input: string, env: Env)
    requires Valid(e) && e.state != Idle
    ensures Process(e, input, env) == HandleState(LogInput(e, input, env.now), Lower(input), env)
  {
  }

  /** In Idle the input goes to the direct commands. */
  lemma IdleDirect(e: Engine, input: string, env: Env)
    requires Valid(e) && e.state == Idle
    ensures Process(e, input, env) == Direct(LogInput(e, input, env.now), Lower(input), env)
  {
  }

  /** The reply is shown by the latest history entry afterwards, except for
      the exit marker, which follows the goodbye, and the date retry prompt,
      which is returned without being posted. */
  lemma ReplyShown(e: Engine, input: string, env: Env)
    requires Valid(e)
    ensures var r := Process(e, input, env);
      || Shown(r.0, r.1)
      || (r.1 == ExitCommand && History.LatestContent(r.0.history) == Goodbye(e.userName))
      || (r.1 == BadDate && r.0.state == AddingTaskWaitingForDate
          && r.0.history == e.history + [History.UserPrefix + input])
  {
    var logged := LogInput(e, input, env.now);
    var lower := Lower(input);
    assert logged.userName == e.userName && logged.state == e.state;
    if e.state == Idle {
      IdleDirect(e, input, env);
      DirectShown(logged, lower, env);
    } else {
      StateFirst(e, input, env);
      HandleStateShown(logged, lower, env);
    }
  }

  /** A direct command's reply is shown, except "exit", which shows the
      goodbye. */
  lemma DirectShown(e: Engine, lower: string, env: Env)
    requires Valid(e)
    ensures var r := Direct(e, lower, env);
      Shown(r.0, r.1) || (r.1 == ExitCommand && History.LatestContent(r.0.history) == Goodbye(e.userName))
  {
  }

  /** The state handler's reply is shown, except the date retry prompt, which
      changes nothing. */
  lemma HandleStateShown(e: Engine, input: string, env: Env)
    requires Valid(e) && e.state != Idle
    ensures var r := HandleState(e, input, env);
      Shown(r.0, r.1) || (e.state == AddingTaskWaitingForDate && r.1 == BadDate && r.0 == e)
  {
  }

  /** WaitingForTitle takes any non-blank input as the title, in its
      lower-cased, trimmed form, even one that would otherwise be a
      command; blank input changes neither the state nor the pending task. */
  lemma TitleTakesInput(e: Engine, input: string, env: Env)
    requires Valid(e) && e.state == AddingTaskWaitingForTitle
    ensures var r := Process(e, input, env); var lower := Lower(input);
      && r.0.tasks == e.tasks && r.0.quiz == e.quiz
      && (!IsBlank(lower) ==>
            && r.0.state == AddingTaskWaitingForDescription
            && r.0.pending == Some(e.pending.value.(Title := lower))
            && r.1 == DescriptionPrompt)
      && (IsBlank(lower) ==> r.0.state == e.state && r.0.pending == e.pending && r.1 == EmptyTitle)
  {
    var logged, lower := LogInput(e, input, env.now), Lower(input);
    StateFirst(e, input, env);
    assert HandleState(logged, lower, env) == TitleStep(logged, lower);
    TrimIdempotent(ToLower(input));
  }

  /** WaitingForDescription behaves the same way and moves on to
      WaitingForDate. */
  lemma DescriptionTakesInput(e: Engine, input: string, env: Env)
    requires Valid(e) && e.state == AddingTaskWaitingForDescription
    ensures var r := Process(e, input, env); var lower := Lower(input);
      && r.0.tasks == e.tasks && r.0.quiz == e.quiz
      && (!IsBlank(lower) ==>
            && r.0.state == AddingTaskWaitingForDate
            && r.0.pending == Some(e.pending.value.(Description := lower))
            && r.1 == DatePrompt)
      && (IsBlank(lower) ==> r.0.state == e.state && r.0.pending == e.pending && r.1 == EmptyDescription)
  {
    var logged, lower := LogInput(e, input, env.now), Lower(input);
    StateFirst(e, input, env);
    assert HandleState(logged, lower, env) == DescriptionStep(logged, lower);
    TrimIdempotent(ToLower(input));
  }

  /** In WaitingForDate, "no" adds the pending task without a reminder and a
      date the parser accepts adds it with that reminder, each exactly once,
      and the engine goes idle; anything else only gets the retry prompt. */
  lemma DateAddsTask(e: Engine, input: string, env: Env)
    requires Valid(e) && e.state == AddingTaskWaitingForDate
    ensures var r := Process(e, input, env); var lower := Lower(input);
      var t := e.pending.value;
      && r.0.quiz == e.quiz
      && (lower == "no" ==>
            && r.0.tasks == e.tasks + [Tasks.AddedTask(t.Title, t.Description, None)]
            && r.0.state == Idle && r.0.pending == None)
      && (lower != "no" && env.parseDate(lower).Some? ==>
            && r.0.tasks == e.tasks + [Tasks.AddedTask(t.Title, t.Description, env.parseDate(lower))]
            && r.0.state == Idle && r.0.pending == None)
      && (lower != "no" && env.parseDate(lower).None? ==>
            && r.1 == BadDate && r.0.tasks == e.tasks
            && r.0.state == e.state && r.0.pending == e.pending)
  {
    StateFirst(e, input, env);
    ToLowerIdempotentTrimmed(input);
  }

  /** The lower-cased, trimmed input is its own lower-case form. */
  lemma ToLowerIdempotentTrimmed(input: string)
    ensures ToLower(Lower(input)) == Lower(input)
  {
    TrimOfToLower(input);
    ToLowerIdempotent(Trim(input));
  }

  /** After CompletingTask the engine is idle again, whether or not the input
      is a number; a number is passed to CompleteTask. */
  lemma CompletingReturnsToIdle(e: Engine, input: string, env: Env)
    requires Valid(e) && e.state == CompletingTask
    ensures var r := Process(e, input, env); var n := ParseInt(Lower(input));
      && r.0.state == Idle && r.0.quiz == e.quiz
      && (n.Some? ==> r.0.tasks == Tasks.CompleteAt(e.tasks, n.value)
                      && r.1 == Tasks.CompleteMessage(e.tasks, n.value))
      && (n.None? ==> r.0.tasks == e.tasks && r.1 == InvalidNumberPrompt)
  {
    StateFirst(e, input, env);
  }

  /** In InQuiz the input is the quiz answer, the reply is the quiz's last
      message, and the engine goes idle exactly when the quiz is over. */
  lemma QuizTakesAnswer(e: Engine, input: string, env: Env)
    requires Valid(e) && e.state == InQuiz
    ensures var r := Process(e, input, env); var (q, msgs) := Quiz.Answer(e.quiz, Lower(input));
      && r.0.quiz == q && r.0.tasks == e.tasks
      && (r.0.state == Idle <==> !q.inQuiz)
      && (r.0.state == InQuiz <==> q.inQuiz)
      && |msgs| > 0 && r.1 == msgs[|msgs| - 1]
  {
    StateFirst(e, input, env);
  }

  /** The exit command is chosen exactly for "exit", "quit" and "bye", as
      the whole lower-cased, trimmed input. */
  lemma ExitExactly(lower: string)
    ensures CommandOf(lower) == Exit <==> lower in ["exit", "quit", "bye"]
  {
    CommandIsFirst(lower, 0);
  }

  /** From Idle, the exit command returns the exit marker after posting the
      goodbye, and leaves the state as it is. */
  lemma ExitReturnsMarker(e: Engine, input: string, env: Env)
    requires Valid(e) && e.state == Idle && CommandOf(Lower(input)) == Exit
    ensures var r := Process(e, input, env);
      && r.1 == ExitCommand
      && r.0.history == e.history + [History.UserPrefix + input] + [History.SystemPrefix + Goodbye(e.userName)]
      && r.0.state == Idle && r.0.pending == e.pending
      && r.0.tasks == e.tasks && r.0.quiz == e.quiz
  {
    ProcessExit(e, input, env);
  }

  /** The exit command's result, from Idle. */
  lemma ProcessExit(e: Engine, input: string, env: Env)
    requires Valid(e) && e.state == Idle && CommandOf(Lower(input)) == Exit
    ensures Process(e, input, env) == (Post(LogInput(e, input, env.now), Goodbye(e.userName)), ExitCommand)
  {
    IdleDirect(e, input, env);
  }

  /** From Idle only "add task" and a "complete task" without a number leave
      Idle, for WaitingForTitle and CompletingTask. */
  lemma IdleTransitions(e: Engine, input: string, env: Env)
    requires Valid(e) && e.state == Idle
    ensures var r := Process(e, input, env); var lower := Lower(input); var c := CommandOf(lower);
      && (r.0.state == AddingTaskWaitingForTitle <==> c == AddTask)
      && (r.0.state == CompletingTask <==> c == CompleteTaskCommand && ExtractTaskIndex(lower) == -1)
      && (r.0.state == Idle <==> !(c == AddTask || (c == CompleteTaskCommand && ExtractTaskIndex(lower) == -1)))
      && (c == AddTask ==> r.0.pending == Some(NewTask()) && r.1 == TitlePrompt)
  {
    IdleDirect(e, input, env);
  }

  /** Typing "start quiz" starts the quiz but leaves the engine in Idle, so
      the next input is not taken as an answer. */
  lemma TypedStartQuizStaysIdle(e: Engine, input: string, env: Env)
    requires Valid(e) && e.state == Idle && CommandOf(Lower(input)) == StartQuizCommand
    ensures var r := Process(e, input, env);
      && r.0.state == Idle
      && r.0.quiz == Quiz.Start(e.quiz, env.draw).0
      && r.0.tasks == e.tasks
  {
    IdleDirect(e, input, env);
  }

  /** "complete task" with a number completes that task at once and stays
      Idle; without one it asks for the number. */
  lemma CompleteTaskCommandEffect(e: Engine, input: string, env: Env)
    requires Valid(e) && e.state == Idle && CommandOf(Lower(input)) == CompleteTaskCommand
    ensures var r := Process(e, input, env); var n := ExtractTaskIndex(Lower(input));
      && r.0.quiz == e.quiz
      && (n != -1 ==> && r.0.state == Idle && r.0.tasks == Tasks.CompleteAt(e.tasks, n)
                      && r.1 == Tasks.CompleteMessage(e.tasks, n))
      && (n == -1 ==> r.0.state == CompletingTask && r.0.tasks == e.tasks && r.1 == WhichTaskPrompt)
  {
    IdleDirect(e, input, env);
  }

  /** The commands that only answer change nothing but the history. */
  lemma AnsweringCommands(e: Engine, input: string, env: Env)
    requires Valid(e) && e.state == Idle && AnswersOnly(CommandOf(Lower(input)))
    ensures var r := Process(e, input, env); var logged := LogInput(e, input, env.now);
      && r.1 == Answer(logged, CommandOf(Lower(input)), Lower(input), env.pick)
      && r.0 == logged.(history := r.0.history)
  {
    IdleDirect(e, input, env);
  }

  /** The help command is chosen exactly for the input "help" (after
      lower-casing): no earlier command accepts it. */
  lemma HelpCommand(lower: string)
    ensures CommandOf(lower) == Help <==> lower == "help"
  {
    CommandIsFirst(lower, 2);
    if lower == "help" {
      NotContainsMissingChar(lower, "thank", 't');
      NotContainsMissingChar(lower, "thanks", 't');
    }
  }

  /** Typing "help" while Idle answers with the help text and changes
      nothing but the history. */
  lemma HelpReply(e: Engine, input: string, env: Env)
    requires Valid(e) && e.state == Idle && Lower(input) == "help"
    ensures var r := Process(e, input, env); var logged := LogInput(e, input, env.now);
      && r.1 == Responses.HelpMessage
      && r.0 == logged.(history := r.0.history)
  {
    HelpCommand(Lower(input));
    AnsweringCommands(e, input, env);
  }

  // ---------------------------------------------------------------- other operations

  /** The state of a new ChatEngine, around the state of its new quiz
      manager. */
  function Initial(now: DateTime, quiz: Quiz.QuizState): (e: Engine)
    requires Quiz.Valid(quiz)
    ensures Valid(e) && e.state == Idle && e.pending == None && e.history == []
    ensures e.tasks == [] && e.log == [Activity.Entry(now, InitializedActivity)]
  {
    Engine(Idle, None, GuestName, [], [], quiz,
           Activity.Logged([], Activity.Entry(now, InitializedActivity)))
  }

  /** ClearChat(). */
  function AfterClearChat(e: Engine, now: DateTime): (r: Engine)
    requires Valid(e)
    ensures Valid(r)
  {
    e.(history := [History.SystemPrefix + History.ClearedMarker],
       quiz := Quiz.Reset(e.quiz), state := Idle, pending := None,
       log := Activity.Logged(e.log, Activity.Entry(now, ClearedActivity)))
  }

  /** StartQuiz(): a quiz already running only gets a message; otherwise a
      quiz starts and the engine enters InQuiz. */
  function AfterStartQuiz(e: Engine, draw: nat -> nat): (r: Engine)
    requires Valid(e)
    ensures Valid(r)
  {
    if e.quiz.inQuiz then Post(e, Quiz.AlreadyInProgress)
    else
      Quiz.StartKeepsValid(e.quiz, draw);
      var (q, msgs) := Quiz.Start(e.quiz, draw);
      PostAll(e.(quiz := q), msgs).(state := InQuiz)
  }

  /** The name SetUserName stores. */
  function UserNameOf(name: string): string
  {
    if IsBlank(name) then GuestName else Trim(name)
  }

  /** SetUserName(name). */
  function AfterSetUserName(e: Engine, name: string, now: DateTime): (r: Engine)
    requires Valid(e)
    ensures Valid(r)
  {
    var userName := UserNameOf(name);
    e.(userName := userName,
       log := Activity.Logged(e.log, Activity.Entry(now, "User name set to: " + userName)))
  }

  // ---------------------------------------------------------------- properties of the other operations

  /** ClearChat leaves only the cleared marker in the history, stops the quiz,
      and returns the engine to Idle with no pending task; the tasks and the
      user name stay. */
  lemma ClearChatResets(e: Engine, now: DateTime)
    requires Valid(e)
    ensures var r := AfterClearChat(e, now);
      && r.history == [History.SystemPrefix + History.ClearedMarker]
      && r.state == Idle && r.pending == None
      && !r.quiz.inQuiz && r.quiz.index == 0 && r.quiz.correct == 0
      && r.quiz.questions == e.quiz.questions && Quiz.Score(r.quiz) == 0
      && r.tasks == e.tasks && r.userName == e.userName
      && r.log == Activity.Logged(e.log, Activity.Entry(now, ClearedActivity))
  {
    Quiz.ScoreRange(e.quiz);
  }

  /** Clearing twice leaves the engine as clearing once does, apart from the
      second log entry. */
  lemma ClearChatTwice(e: Engine, now1: DateTime, now2: DateTime)
    requires Valid(e)
    ensures var once := AfterClearChat(e, now2); var twice := AfterClearChat(AfterClearChat(e, now1), now2);
      twice.(log := once.log) == once
  {
  }

  /** StartQuiz while a quiz runs only posts the notice; otherwise it starts
      the quiz and enters InQuiz. */
  lemma StartQuizEffect(e: Engine, draw: nat -> nat)
    requires Valid(e)
    ensures var r := AfterStartQuiz(e, draw);
      && r.tasks == e.tasks && r.log == e.log && r.pending == e.pending
      && (e.quiz.inQuiz ==> r == Post(e, Quiz.AlreadyInProgress))
      && (!e.quiz.inQuiz ==>
            && r.state == InQuiz
            && r.quiz == Quiz.Start(e.quiz, draw).0
            && r.history == e.history + History.Posted(Quiz.Start(e.quiz, draw).1))
  {
  }

  /** After StartQuiz the next input is taken as the quiz answer, unlike
      after typing "start quiz". */
  lemma StartQuizThenAnswer(e: Engine, draw: nat -> nat, input: string, env: Env)
    requires Valid(e) && !e.quiz.inQuiz
    ensures var started := AfterStartQuiz(e, draw);
      Process(started, input, env).0.quiz == Quiz.Answer(started.quiz, Lower(input)).0
  {
    QuizTakesAnswer(AfterStartQuiz(e, draw), input, env);
  }

  /** The stored name is "Guest" for a blank name and otherwise the trimmed
      name, which is not blank and which setting again leaves as it is. */
  lemma UserNameOfShape(name: string)
    ensures IsBlank(name) ==> UserNameOf(name) == GuestName
    ensures !IsBlank(name) ==>
      && UserNameOf(name) == Trim(name)
      && !IsBlank(UserNameOf(name))
      && UserNameOf(UserNameOf(name)) == UserNameOf(name)
  {
    if !IsBlank(name) {
      var t := Trim(name);
      assert !IsWhiteSpace(t[0]);
      TrimIdempotent(name);
    }
  }

  /** SetUserName stores that name, logs it, and changes nothing else. */
  lemma SetUserNameEffect(e: Engine, name: string, now: DateTime)
    requires Valid(e)
    ensures var r := AfterSetUserName(e, name, now);
      && r == e.(userName := UserNameOf(name), log := r.log)
      && r.log == Activity.Logged(e.log, Activity.Entry(now, "User name set to: " + UserNameOf(name)))
  {
  }

  // ---------------------------------------------------------------- the object

  /** The engine object, over its four managers.  The managers' callback
      messages come back as method results and are posted here, in order. */
  class ChatEngine {
    const chatHistoryManager: History.ChatHistoryManager
    const taskManager: Tasks.TaskManager
    const quizManager: Quiz.QuizManager
    const activityLogger: Activity.ActivityLogger
    var currentChatState: ChatState
    var pendingTask: Option<CyberTask>
    var userName: string

    /** The engine state the fields and the managers hold. */
    function Abs(): Engine
      reads this, chatHistoryManager, taskManager, quizManager, activityLogger
    {
      Engine(currentChatState, pendingTask, userName, chatHistoryManager.entries,
             taskManager.tasks, quizManager.Abs(), activityLogger.log)
    }

    /** `new ChatEngine()`, at clock reading `now` and with the first
        shuffle's draws. */
    constructor(now: DateTime, draw: nat -> nat)
      ensures Valid(Abs())
      ensures quizManager.Abs() == Quiz.Initial(draw)
      ensures Abs() == Initial(now, quizManager.Abs())
    {
      chatHistoryManager := new History.ChatHistoryManager();
      taskManager := new Tasks.TaskManager();
      quizManager := new Quiz.QuizManager(draw);
      activityLogger := new Activity.ActivityLogger();
      currentChatState := Idle;
      pendingTask := None;
      userName := GuestName;
      new;
      activityLogger.LogActivity(now, InitializedActivity);
      assert activityLogger.log == Activity.Logged([], Activity.Entry(now, InitializedActivity));
    }

    /** The callback: each message a manager reports is posted in order. */
    method PostMessages(msgs: seq<string>)
      modifies chatHistoryManager
      ensures chatHistoryManager.entries == old(chatHistoryManager.entries) + History.Posted(msgs)
    {
      for i := 0 to |msgs|
        invariant chatHistoryManager.entries == old(chatHistoryManager.entries) + History.Posted(msgs[..i])
      {
        chatHistoryManager.AddSystemMessage(msgs[i]);
        assert History.Posted(msgs[..i + 1]) == History.Posted(msgs[..i]) + [History.SystemPrefix + msgs[i]];
      }
      assert msgs[..|msgs|] == msgs;
    }

    /** The de-duplication at the end of HandleStateBasedInput. */
    method StateReply(response: string) returns (reply: string)
      modifies chatHistoryManager
      ensures (Abs(), reply) == StateDedupe(old(Abs()), response)
    {
      if response != "" && !Contains(chatHistoryManager.GetLatestEntryContent(), response) {
        chatHistoryManager.AddSystemMessage(response);
      }
      reply := response;
    }

    /** The de-duplication at the end of ProcessUserInput. */
    method DirectReply(response: string) returns (reply: string)
      modifies chatHistoryManager
      ensures (Abs(), reply) == DirectDedupe(old(Abs()), response)
    {
      if response == "" || !Contains(chatHistoryManager.GetLatestEntryContent(), response) {
        chatHistoryManager.AddSystemMessage(response);
      }
      reply := response;
    }

    /** The InQuiz case of HandleStateBasedInput. */
    method HandleQuizAnswer(input: string) returns (response: string)
      requires Valid(Abs())
      modifies this, chatHistoryManager, quizManager
      ensures (Abs(), response) == QuizStep(old(Abs()), input)
    {
      ghost var e := Abs();
      var msgs := quizManager.ProcessQuizAnswer(input);
      PostMessages(msgs);
      var latest := chatHistoryManager.GetLatestEntryContent();
      ghost var p := Abs();
      assert p == Answered(e, input);
      if !quizManager.IsQuizActive() {
        currentChatState := Idle;
      }
      assert Abs() == p.(state := if p.quiz.inQuiz then e.state else Idle);
      response := StateReply(latest);
    }

    /** The AddingTask_WaitingForTitle case. */
    method HandleTitle(input: string) returns (response: string)
      requires Valid(Abs()) && pendingTask.Some?
      modifies this, chatHistoryManager
      ensures (Abs(), response) == TitleStep(old(Abs()), input)
    {
      ghost var e := Abs();
      var reply;
      if !IsBlank(input) {
        pendingTask := Some(pendingTask.value.(Title := Trim(input)));
        currentChatState := AddingTaskWaitingForDescription;
        reply := DescriptionPrompt;
        assert Abs() == e.(pending := pendingTask, state := currentChatState);
      } else {
        reply := EmptyTitle;
      }
      response := StateReply(reply);
    }

    /** The AddingTask_WaitingForDescription case. */
    method HandleDescription(input: string) returns (response: string)
      requires Valid(Abs()) && pendingTask.Some?
      modifies this, chatHistoryManager
      ensures (Abs(), response) == DescriptionStep(old(Abs()), input)
    {
      ghost var e := Abs();
      var reply;
      if !IsBlank(input) {
        pendingTask := Some(pendingTask.value.(Description := Trim(input)));
        currentChatState := AddingTaskWaitingForDate;
        reply := DatePrompt;
        assert Abs() == e.(pending := pendingTask, state := currentChatState);
      } else {
        reply := EmptyDescription;
      }
      response := StateReply(reply);
    }

    /** The AddingTask_WaitingForDate case; an unreadable date returns before
        the de-duplication. */
    method HandleDate(input: string, parseDate: string -> Option<DateTime>) returns (response: string)
      requires Valid(Abs()) && pendingTask.Some?
      modifies this, chatHistoryManager, taskManager
      ensures (Abs(), response) == DateStep(old(Abs()), input, parseDate)
    {
      var reminderDate: Option<DateTime> := None;
      if ToLower(input) != "no" {
        var parsed := parseDate(input);
        if parsed.Some? {
          reminderDate := parsed;
        } else {
          return BadDate;
        }
      }
      ghost var e := Abs();
      var t := pendingTask.value;
      var msg := taskManager.AddTask(t.Title, t.Description, reminderDate);
      chatHistoryManager.AddSystemMessage(msg);
      var latest := chatHistoryManager.GetLatestEntryContent();
      ghost var added := Abs();
      assert added == Post(e.(tasks := e.tasks + [Tasks.AddedTask(t.Title, t.Description, reminderDate)]), msg);
      currentChatState := Idle;
      pendingTask := None;
      assert Abs() == added.(state := Idle, pending := None);
      response := StateReply(latest);
    }

    /** The CompletingTask case. */
    method HandleCompletion(input: string) returns (response: string)
      requires Valid(Abs())
      modifies this, chatHistoryManager, taskManager
      ensures (Abs(), response) == CompleteStep(old(Abs()), input)
    {
      ghost var e := Abs();
      var reply;
      var taskIndex := ParseInt(input);
      if taskIndex.Some? {
        var msg := taskManager.CompleteTask(taskIndex.value);
        chatHistoryManager.AddSystemMessage(msg);
        reply := chatHistoryManager.GetLatestEntryContent();
        assert Abs() == Post(e.(tasks := Tasks.CompleteAt(e.tasks, taskIndex.value)), msg);
      } else {
        reply := InvalidNumberPrompt;
      }
      ghost var before := Abs();
      currentChatState := Idle;
      assert Abs() == before.(state := Idle);
      response := StateReply(reply);
    }

    /** HandleStateBasedInput(input), with "" for null. */
    method HandleStateBasedInput(input: string, env: Env) returns (response: string)
      requires Valid(Abs())
      modifies this, chatHistoryManager, taskManager, quizManager
      ensures (Abs(), response) == HandleState(old(Abs()), input, env)
    {
      match currentChatState
      case Idle => response := "";
      case InQuiz => response := HandleQuizAnswer(input);
      case AddingTaskWaitingForTitle => response := HandleTitle(input);
      case AddingTaskWaitingForDescription => response := HandleDescription(input);
      case AddingTaskWaitingForDate => response := HandleDate(input, env.parseDate);
      case CompletingTask => response := HandleCompletion(input);
    }

    /** ExtractTaskIndexFromInput(input): the tokens are tried from the last
        one back. */
    method ExtractTaskIndexFromInput(input: string) returns (index: int)
      ensures index == ExtractTaskIndex(input)
    {
      var parts := Split(input, ' ');
      var i := |parts|;
      assert parts[..i] == parts;
      while i > 0
        invariant 0 <= i <= |parts|
        invariant LastParsed(parts, ParseInt) == LastParsed(parts[..i], ParseInt)
      {
        i := i - 1;
        assert parts[..i + 1][..i] == parts[..i];
        var parsed := ParseInt(parts[i]);
        if parsed.Some? {
          return parsed.value;
        }
      }
      return -1;
    }

    /** The replies of the commands that only answer; nothing changes. */
    method AnswerCommand(c: Command, lower: string, pick: nat) returns (reply: string)
      requires Valid(Abs()) && AnswersOnly(c)
      ensures reply == Answer(Abs(), c, lower, pick)
    {
      match c
      case Thank =>
        var thankResponses := ThankReplies(userName);
        reply := thankResponses[pick % |thankResponses|];
      case Help => reply := Responses.HelpMessage;
      case HowManyTasks => reply := HowManyReply(taskManager.GetActiveTaskCount());
      case QuizScore =>
        var score := quizManager.GetQuizScore();
        reply := ScoreReply(score);
      case Topic => reply := Responses.GetCybersecurityResponse(lower, pick);
      case Hello =>
        var greetings := Greetings(userName);
        reply := greetings[pick % |greetings|];
      case Unknown => reply := StillLearning;
    }

    /** The command branches of ProcessUserInput, before the de-duplication. */
    method RunDirectCommand(c: Command, lower: string, env: Env) returns (reply: string)
      requires Valid(Abs())
      modifies this, chatHistoryManager, taskManager, quizManager
      ensures (Abs(), reply) == RunCommand(old(Abs()), c, lower, env)
    {
      ghost var e := Abs();
      if AnswersOnly(c) {
        reply := AnswerCommand(c, lower, env.pick);
        return;
      }
      match c
      case Exit =>
        chatHistoryManager.AddSystemMessage(Goodbye(userName));
        reply := ExitCommand;
        assert Abs() == Post(e, Goodbye(e.userName));
      case StartQuizCommand =>
        reply := StartQuizCommandRun(lower, env);
      case AddTask =>
        currentChatState := AddingTaskWaitingForTitle;
        pendingTask := Some(NewTask());
        reply := TitlePrompt;
      case CompleteTaskCommand =>
        reply := CompleteTaskCommandRun(lower, env);
      case ViewTasks =>
        var msg := taskManager.ShowAllTasks();
        chatHistoryManager.AddSystemMessage(msg);
        reply := chatHistoryManager.GetLatestEntryContent();
        assert Abs() == Post(e, msg);
      case ActivityLog =>
        var msg := activityLogger.ShowActivityLog();
        chatHistoryManager.AddSystemMessage(msg);
        reply := chatHistoryManager.GetLatestEntryContent();
        assert Abs() == Post(e, msg);
    }

    /** "start quiz": the quiz starts and its messages are posted. */
    method StartQuizCommandRun(lower: string, env: Env) returns (reply: string)
      requires Valid(Abs())
      modifies chatHistoryManager, quizManager
      ensures (Abs(), reply) == RunCommand(old(Abs()), StartQuizCommand, lower, env)
    {
      ghost var e := Abs();
      var msgs := quizManager.StartNewQuiz(env.draw);
      PostMessages(msgs);
      reply := chatHistoryManager.GetLatestEntryContent();
      assert Abs() == PostAll(e.(quiz := Quiz.Start(e.quiz, env.draw).0), msgs);
    }

    /** "complete task": a number in the input completes that task, and
        otherwise the engine asks which one. */
    method CompleteTaskCommandRun(lower: string, env: Env) returns (reply: string)
      requires Valid(Abs())
      modifies this, chatHistoryManager, taskManager
      ensures (Abs(), reply) == RunCommand(old(Abs()), CompleteTaskCommand, lower, env)
    {
      ghost var e := Abs();
      var taskIndex := ExtractTaskIndexFromInput(lower);
      if taskIndex != -1 {
        var msg := taskManager.CompleteTask(taskIndex);
        chatHistoryManager.AddSystemMessage(msg);
        reply := chatHistoryManager.GetLatestEntryContent();
        assert Abs() == Post(e.(tasks := Tasks.CompleteAt(e.tasks, taskIndex)), msg);
      } else {
        currentChatState := CompletingTask;
        reply := WhichTaskPrompt;
      }
    }

    /** The direct-command half of ProcessUserInput. */
    method DirectCommand(lower: string, env: Env) returns (reply: string)
      requires Valid(Abs())
      modifies this, chatHistoryManager, taskManager, quizManager
      ensures (Abs(), reply) == Direct(old(Abs()), lower, env)
    {
      var c := CommandOf(lower);
      reply := RunDirectCommand(c, lower, env);
      if c != Exit {
        reply := DirectReply(reply);
      }
    }

    /** ProcessUserInput(input): log the input, let the state handler answer,
        and otherwise carry out a direct command. */
    method ProcessUserInput(input: string, env: Env) returns (reply: string)
      requires Valid(Abs())
      modifies this, chatHistoryManager, taskManager, quizManager, activityLogger
      ensures (Abs(), reply) == Process(old(Abs()), input, env)
    {
      ghost var e := Abs();
      chatHistoryManager.AddUserMessage(input);
      activityLogger.LogActivity(env.now, InputActivity(input));
      assert Abs() == LogInput(e, input, env.now);
      var lowerInput := Lower(input);
      reply := HandleStateBasedInput(lowerInput, env);
      if reply != "" {
        return;
      }
      reply := DirectCommand(lowerInput, env);
    }

    /** ClearChat(), at clock reading `now`. */
    method ClearChat(now: DateTime)
      requires Valid(Abs())
      modifies this, chatHistoryManager, quizManager, activityLogger
      ensures Abs() == AfterClearChat(old(Abs()), now)
    {
      chatHistoryManager.ClearHistory();
      quizManager.ResetQuizState();
      currentChatState := Idle;
      pendingTask := None;
      activityLogger.LogActivity(now, ClearedActivity);
    }

    /** StartQuiz(), with the shuffle's draws passed in. */
    method StartQuiz(draw: nat -> nat)
      requires Valid(Abs())
      modifies this, chatHistoryManager, quizManager
      ensures Abs() == AfterStartQuiz(old(Abs()), draw)
    {
      if quizManager.IsQuizActive() {
        chatHistoryManager.AddSystemMessage(Quiz.AlreadyInProgress);
        return;
      }
      var msgs := quizManager.StartNewQuiz(draw);
      PostMessages(msgs);
      currentChatState := InQuiz;
    }

    /** SetUserName(name), at clock reading `now`. */
    method SetUserName(name: string, now: DateTime)
      requires Valid(Abs())
      modifies this, activityLogger
      ensures Abs() == AfterSetUserName(old(Abs()), name, now)
    {
      userName := if IsBlank(name) then GuestName else Trim(name);
      activityLogger.LogActivity(now, "User name set to: " + userName);
    }

    /** GetChatHistory(). */
    function GetChatHistory(): (text: string)
      reads chatHistoryManager
      ensures chatHistoryManager.entries == [] ==> text == ""
      ensures chatHistoryManager.entries == [History.SystemPrefix + History.ClearedMarker] ==>
        text == "Bot: " + History.ClearedMarker
    {
      History.DisplayOfMessages(History.ClearedMarker);
      History.Transcript(chatHistoryManager.entries)
    }

    /** ShowAllTasks(): the task listing is posted. */
    method ShowAllTasks()
      modifies chatHistoryManager
      ensures Abs() == Post(old(Abs()), Tasks.Listing(taskManager.tasks))
    {
      var msg := taskManager.ShowAllTasks();
      chatHistoryManager.AddSystemMessage(msg);
    }

    /** ShowActivityLog(): the activity listing is posted. */
    method ShowActivityLog()
      modifies chatHistoryManager
      ensures Abs() == Post(old(Abs()), Activity.ActivityListing(activityLogger.log))
    {
      var msg := activityLogger.ShowActivityLog();
      chatHistoryManager.AddSystemMessage(msg);
    }

    /** AddSystemMessage(message), for the window's own notices. */
    method AddSystemMessage(message: string)
      modifies chatHistoryManager
      ensures Abs() == Post(old(Abs()), message)
    {
      chatHistoryManager.AddSystemMessage(message);
    }

    /** GetActiveTaskCount(). */
    function GetActiveTaskCount(): (count: nat)
      reads taskManager
      ensures count == |Tasks.ActiveTasks(taskManager.tasks)| <= |taskManager.tasks|
    {
      taskManager.GetActiveTaskCount()
    }

    /** GetQuizScore(). */
    function GetQuizScore(): (score: int)
      reads this, chatHistoryManager, taskManager, quizManager, activityLogger
      requires Valid(Abs())
      ensures score == -1 <==> quizManager.inQuiz
      ensures !quizManager.inQuiz ==> 0 <= score <= 100
    {
      quizManager.GetQuizScore()
    }

    /** GetActivityCount(). */
    function GetActivityCount(): (count: nat)
      reads activityLogger
      ensures count == |activityLogger.log|
      ensures activityLogger.Valid() ==> count <= Activity.Capacity
    {
      activityLogger.GetActivityCount()
    }

    /** GetTasksForReminderCheck(). */
    function GetTasksForReminderCheck(): (due: seq<CyberTask>)
      reads taskManager
      ensures forall i :: 0 <= i < |due| ==>
        due[i] in taskManager.tasks && !due[i].IsCompleted && due[i].ReminderDate.Some? && !due[i].IsNotified
    {
      Tasks.ReminderCandidates(taskManager.tasks)
    }

    /** GetUserName(). */
    function GetUserName(): (name: string)
      reads this, chatHistoryManager, taskManager, quizManager, activityLogger
      ensures Valid(Abs()) ==> name != []
    {
      userName
    }
  }
}
