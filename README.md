# Cybersecurity awareness chatbot: a Dafny model of its conversation core

This project models the core of a C# cybersecurity chatbot and proves properties of it. It covers:

- the conversation engine (`ChatEngine`);
- its four managers: the chat history, the task list, the quiz and the activity log;
- the task and question records;
- the keyword-driven reply generator;
- the reply function `GetResponse` of the older console bot.

Each C# file becomes one Dafny module:

| module | file | form |
|---|---|---|
| `Text` | (shared) | .NET string primitives: `char.IsWhiteSpace`, `Trim`, ASCII `ToLower`/`ToUpper`, `Contains`, `Split(char)`, `int.TryParse`, `int.ToString`, zero-padded fields |
| `CyberTasks` | CyberTask.cs | the task record, `ToString()`, the `yyyy-MM-dd HH:mm` timestamp |
| `Tasks` | TaskManager.cs | pure functions on the task list, plus class `TaskManager` |
| `History` | ChatHistoryManager.cs | pure functions on the entries, plus class `ChatHistoryManager` |
| `Activity` | ActivityLogger.csActivityLogger.cs | the fifty-entry log, plus class `ActivityLogger` |
| `QuizQuestions` | QuizQuestion.cs | the standalone question record and its formatting loop |
| `Quiz` | QuizManager.cs | the question bank, the Fisher-Yates shuffle, answer parsing, the quiz state machine, plus class `QuizManager` |
| `Responses` | ResponseGenerator.cs | the keyword test and the topic dispatch |
| `ConsoleBot` | Program.cs | `GetResponse` only |
| `Chat` | ChatEngine.cs | the engine state `Engine`, the step functions, plus class `ChatEngine` |

Every object whose fields the C# code updates is a Dafny `class`. Each class has the corresponding fields, renamed where noted (`chatHistory` is `entries`, `activityLog` is `log`). It has the source's methods with `modifies` clauses (`EndQuiz` is `EndQuizNow`). It also has helper methods that split long C# methods into steps (`Advance`, `PostMessages`, `StateReply`, `DirectReply`, `HandleTitle`, `HandleDescription`, `HandleDate`, `HandleCompletion`, `AnswerCommand` and the like). Each method is proved against a pure specification function of its module:

- `TaskManager.CompleteTask` ensures `tasks == CompleteAt(old(tasks), taskNumber)`.
- `ChatEngine.ProcessUserInput` ensures `(Abs(), reply) == Process(old(Abs()), input, env)`, where `env` carries the clock reading, the random draws and the date parser.

The properties of the system are then lemmas about those functions. The loops of the source are `while`/`for` loops with invariants:

- the shuffle;
- the listing builders;
- the question formatters;
- the right-to-left token scan.

One loop has no counterpart in the source: `ChatEngine.PostMessages` stands for the callback's successive calls, one per manager message. The source calls its lambda (ChatEngine.cs:42-45) once per message.

In C#, the managers report their messages through a callback into the history. Here each manager method returns those messages, and the engine posts each one as a `"System: "` entry, in order. The history this produces is the same as the C# callback wiring produces.

Three kinds of input come from the outside world. Each is a parameter of the model:

- The clock reading for log entries is a `DateTime` value.
- `new Random().Next(n)` is a draw `pick`, reduced modulo `n`. The shuffle's draws are a function `draw`.
- `DateTime.TryParse` is a function `parseDate` in the engine's environment.

`Chat.Valid` is the invariant that the constructor establishes and every public operation keeps:

- the quiz's `0 <= correct <= index <= count`;
- a current question while a quiz runs;
- well-formed questions;
- a non-empty user name ("Guest" until one is set);
- at most fifty log entries;
- a pending task during the three steps of adding a task.

The methods' `requires Valid(...)` clauses ask only for this invariant.

A typed "start quiz" (ChatEngine.cs:91-95) starts the quiz in the quiz manager but leaves the engine in `Idle`, so the next input is not read as an answer. Only the separate `StartQuiz()` operation (ChatEngine.cs:300-309) enters `InQuiz`. `Chat.TypedStartQuizStaysIdle` and `Chat.StartQuizThenAnswer` state both behaviours.

## Model

Generic lemmas about strings and numbers that only serve other proofs have no row.

| member | source | states |
|---|---|---|
| Text.Trim | ChatEngine.cs:58 | the trimmed string has no whitespace at either end, and it is empty exactly when the input is blank (`IsNullOrWhiteSpace`) |
| Text.TrimIsInfix | ChatEngine.cs:58 | Trim keeps one contiguous piece of the input, and everything it drops before and after that piece is whitespace |
| Text.TrimStart | ChatEngine.cs:58 | the result is a suffix of the input, everything dropped is whitespace, and the result does not start with whitespace |
| Text.TrimEnd | ChatEngine.cs:58 | the result is a prefix of the input, everything dropped is whitespace, and the result does not end with whitespace |
| Text.TrimIdempotent | ChatEngine.cs:185 | trimming an already trimmed string changes nothing |
| Text.TrimIgnoresPadding | ChatEngine.cs:58 | blank text added on either side does not change the trimmed result |
| Text.ToLowerNoCapitals | ChatEngine.cs:58 | a string without ASCII capitals is its own lower-case form |
| Text.ToLowerIdempotent | ChatEngine.cs:212 | lower-casing twice is lower-casing once |
| Text.ToLowerOfToUpper | ResponseGenerator.cs:33 | lower-casing an upper-cased string is lower-casing the original |
| Text.ToUpperOfToLower | QuizManager.cs:213 | upper-casing a lower-cased string is upper-casing the original |
| Text.TrimOfToLower | ChatEngine.cs:58 | trimming and lower-casing commute |
| Text.AnyContained | ResponseGenerator.cs:27 | true exactly when some phrase of the list occurs in the text (`keywords.Any(k => s.Contains(k))`) |
| Text.FirstContaining | ResponseGenerator.cs:35-167 | the position of the first phrase group of an if/else-if chain that the text hits: every earlier group misses, and the chosen one hits |
| Text.FirstContainingIs | ResponseGenerator.cs:35-167 | group k is chosen exactly when it hits and every earlier group misses |
| Text.Split | ChatEngine.cs:262 | `Split(' ')` always yields at least one piece |
| Text.SplitPiecesLackSep | ChatEngine.cs:262 | no piece contains the separator |
| Text.JoinSplit | ChatEngine.cs:262 | joining the pieces with the separator gives back the input, so splitting loses nothing |
| Text.JoinAppend | ChatHistoryManager.cs:37 | joining one more line adds the separator and that line at the end |
| Text.ParseInt | ChatEngine.cs:234 | `int.TryParse` succeeds only with a value in the 32-bit range |
| Text.ParseIntOfIntToString | ChatEngine.cs:234 | round trip: TryParse reads back what `ToString()` writes, for every 32-bit value |
| Text.NatToString | ChatEngine.cs:130 | `ToString()` of a non-negative value is a non-empty run of digits |
| Text.DigitsValueOfNatToString | ChatEngine.cs:130 | the digits `ToString()` writes have the value that was written |
| Text.ZeroPad | CyberTask.cs:18 | a padded field is at least as wide as asked and all digits |
| Text.ZeroPadValue | CyberTask.cs:18 | padding with leading zeros never changes the value written |
| CyberTasks.FormatDateFields | CyberTask.cs:18 | the `yyyy-MM-dd HH:mm` text of a valid timestamp has sixteen characters, separators at the fixed places, and each field reads back as the timestamp's value |
| CyberTasks.NewTask | CyberTask.cs:12-13 | `new CyberTask()` is not completed, not notified and has no reminder |
| CyberTasks.TaskToString | CyberTask.cs:16-21 | the text starts with `[COMPLETED]` exactly when the task is completed and with `[ACTIVE]` exactly when it is not |
| CyberTasks.TaskToStringUndated | CyberTask.cs:18-20 | without a reminder the text is the status, the title, " - " and the description, with no due segment |
| CyberTasks.TaskToStringDated | CyberTask.cs:18-20 | with a reminder the text contains " (Due: <timestamp>)" |
| Tasks.ActiveTasks | TaskManager.cs:41 | the active list is no longer than the task list and holds no completed task |
| Tasks.ActiveTasksMembers | TaskManager.cs:41 | the active list holds exactly the tasks that are not completed |
| Tasks.ActiveCountIsLength | TaskManager.cs:77 | `GetActiveTaskCount` equals the length of the active list that CompleteTask numbers |
| Tasks.ActiveTasksConcat | TaskManager.cs:41 | the filter keeps insertion order: filtering a concatenation concatenates the filters |
| Tasks.ActiveTasksSingleton | TaskManager.cs:41 | a one-task list filters to itself or to nothing |
| Tasks.ActivePosition | TaskManager.cs:45 | the index in the task list of the task at a 0-based position of the active list: that task is active and it is the one shown there |
| Tasks.ActivePositionPrefix | TaskManager.cs:45 | exactly k active tasks come before the task at active position k |
| Tasks.ActiveTasksAround | TaskManager.cs:41 | the active list splits around any position of the task list |
| Tasks.CompletedAround | TaskManager.cs:46 | completing the task at one position drops exactly that task from the active list |
| Tasks.CompleteMarksOne | TaskManager.cs:43-47 | a valid number marks the n-th active task, and only that task, as completed |
| Tasks.CompleteShiftsActive | TaskManager.cs:43-47 | after completing number n, the active list loses exactly its n-th entry, the later entries move down in order, and the active count drops by one |
| Tasks.CompleteInvalid | TaskManager.cs:49-52 | a number outside 1..active count changes no task and gets the invalid-number message |
| Tasks.AddedTask | TaskManager.cs:24-31 | the new task has the given title, description and reminder, and is neither completed nor notified |
| Tasks.AddActive | TaskManager.cs:32 | adding a task raises the active count by one and puts the task at the end of the active list |
| Tasks.ReminderCandidates | TaskManager.cs:82-85 | every candidate is active, has a reminder and has not been notified |
| Tasks.ReminderCandidatesMembers | TaskManager.cs:84 | a task is a candidate exactly when it is in the list and awaits a reminder |
| Tasks.ReminderCandidatesConcat | TaskManager.cs:84 | the candidates keep insertion order |
| Tasks.CandidatesAreActive | TaskManager.cs:84 | there are never more candidates than active tasks |
| Tasks.TaskLineInPlace | TaskManager.cs:61-66 | after the header, active task i is listed with its 1-based number and its `ToString()` text, after the lines of the tasks before it and before those after it |
| Tasks.CompleteAt | TaskManager.cs:38-53 | the number of tasks stays the same; an invalid number changes nothing; every task is either unchanged or an active task now marked completed |
| Tasks.Listing | TaskManager.cs:56-72 | without active tasks the listing is the no-active-tasks message; with some it opens with the active-tasks header |
| Tasks.ListingShape | TaskManager.cs:59-71 | without active tasks the listing is the no-active-tasks message; with some it opens with the header |
| Tasks.TaskManager.GetActiveTaskCount | TaskManager.cs:75-78 | the count is the length of the active list, never more than the number of tasks |
| Tasks.TaskManager.constructor | TaskManager.cs:12 | a new manager has no tasks |
| Tasks.TaskManager.AddTask | TaskManager.cs:22-35 | one new task with the given fields at the end of the list, and the added message naming the title and the reminder, if any |
| Tasks.TaskManager.CompleteTask | TaskManager.cs:38-53 | the list and the message are CompleteAt and CompleteMessage of the old list |
| Tasks.TaskManager.ShowAllTasks | TaskManager.cs:56-72 | the StringBuilder loop builds exactly the listing, and nothing changes |
| History.StripPrefix | ChatHistoryManager.cs:47-52 | the content read back is a suffix of the entry |
| History.LatestContent | ChatHistoryManager.cs:43-55 | "" for an empty history, and otherwise a suffix of the last entry |
| History.LatestAfterSystem | ChatHistoryManager.cs:14-17 | a system message reads back unchanged as the latest content |
| History.LatestAfterUser | ChatHistoryManager.cs:20-23 | a user message reads back unchanged as the latest content |
| History.LatestAfterPosted | ChatHistoryManager.cs:43-55 | after a run of posted messages, the latest content is the last message |
| History.DisplayOfMessages | ChatHistoryManager.cs:37-39 | system entries display as "Bot: " and user entries as "You: " |
| History.Transcript | ChatHistoryManager.cs:33-40 | an empty history displays as the empty text, and a one-entry history as that entry's display line alone |
| History.TranscriptAppend | ChatHistoryManager.cs:33-40 | one more entry adds a line break and its display line, and leaves the earlier transcript as it was |
| History.ChatHistoryManager.constructor | ChatHistoryManager.cs:11 | a new history is empty |
| History.ChatHistoryManager.AddSystemMessage | ChatHistoryManager.cs:14-17 | one "System: " entry at the end, nothing else changes |
| History.ChatHistoryManager.AddUserMessage | ChatHistoryManager.cs:20-23 | one "User: " entry at the end, nothing else changes |
| History.ChatHistoryManager.ClearHistory | ChatHistoryManager.cs:26-30 | only the cleared marker is left |
| History.ChatHistoryManager.GetLatestEntryContent | ChatHistoryManager.cs:43-55 | "" for an empty history; otherwise the last entry is "System: " or "User: " followed by the result when it starts with that prefix, and is the result itself when it starts with neither |
| Activity.Logged | ActivityLogger.csActivityLogger.cs:22-29 | the entry goes at the end, the log never exceeds fifty entries, and at fifty the oldest entry is dropped and the rest keep their order |
| Activity.ActivityListing | ActivityLogger.csActivityLogger.cs:32-46 | an empty log lists as the no-activities message, and a non-empty one opens with the recent-activities header |
| Activity.ActivityLineInPlace | ActivityLogger.csActivityLogger.cs:36-41 | every entry is listed once, as "- <entry>", in log order, after the header |
| Activity.LoggedAllBounded | ActivityLogger.csActivityLogger.cs:25-28 | any run of log operations leaves min(old length + added, 50) entries |
| Activity.ActivityLogger.constructor | ActivityLogger.csActivityLogger.cs:12 | a new log is empty |
| Activity.ActivityLogger.LogActivity | ActivityLogger.csActivityLogger.cs:22-29 | the log becomes Logged(old log, timestamped entry) and stays within fifty entries |
| Activity.ActivityLogger.ShowActivityLog | ActivityLogger.csActivityLogger.cs:32-47 | the loop builds exactly the listing, and nothing changes |
| Activity.ActivityLogger.GetActivityCount | ActivityLogger.csActivityLogger.cs:50-53 | the count never exceeds fifty |
| QuizQuestions.DefaultQuestion | QuizQuestion.cs:5-8 | a new question has empty text, an empty option array and an empty explanation |
| QuizQuestions.Letter | QuizQuestion.cs:18 | `(char)('A' + i)` is the i-th capital for i < 26 |
| QuizQuestions.GetFormattedQuestion | QuizQuestion.cs:10-23 | the loop builds exactly the formatted text |
| QuizQuestions.FormattedWithoutOptions | QuizQuestion.cs:12-13 | null or empty options give back the question text unchanged |
| QuizQuestions.OptionLineInPlace | QuizQuestion.cs:16-20 | option i appears as "X) option" after the lines of the options before it and before those after it |
| QuizQuestions.FormattedFraming | QuizQuestion.cs:15-22 | with options, the text opens with the question and a blank line and ends with the answer prompt |
| Quiz.GetFormattedQuestion | QuizManager.cs:28-44 | the nested class's StringBuilder loop builds exactly the question text |
| Quiz.QuestionTextShape | QuizManager.cs:30-43 | the text opens with the question line; a True/False question then asks "True or False?", and a multiple-choice one lists option i in place |
| Quiz.BankOptions | QuizManager.cs:57-151 | the seven multiple-choice questions have four options each, and the five True/False questions have True and False |
| Quiz.BankAnswer | QuizManager.cs:57-151 | every correct-answer index names an option of its question |
| Quiz.BankQuestion | QuizManager.cs:57-151 | questions 0-6 are multiple-choice with four options and 7-11 True/False, each well formed |
| Quiz.Bank | QuizManager.cs:57-151 | the bank holds twelve questions |
| Quiz.BankWellFormed | QuizManager.cs:57-151 | every bank question is well formed, and exactly the last five are True/False |
| Quiz.Swap | QuizManager.cs:164-166 | the two positions trade places and every other position stays |
| Quiz.ShuffleFrom | QuizManager.cs:160-167 | the rest of the Fisher-Yates loop keeps the length and leaves the positions from the counter on untouched |
| Quiz.Shuffled | QuizManager.cs:156-168 | shuffling keeps the number of questions |
| Quiz.SwapPermutes | QuizManager.cs:164-166 | a swap keeps the same questions, each as often |
| Quiz.ShuffleFromPermutes | QuizManager.cs:160-167 | every run of the swap loop is a permutation |
| Quiz.ShuffledPermutes | QuizManager.cs:156-168 | the shuffle is a permutation of the questions, whatever the generator draws |
| Quiz.PermutationKeepsWellFormed | QuizManager.cs:156-168 | a permutation of well-formed questions is well formed |
| Quiz.ShuffledKeepsWellFormed | QuizManager.cs:156-168 | a shuffled bank is well formed |
| Quiz.ParseAnswer | QuizManager.cs:211-240 | a parsed answer is -1 or names an option: 0 or 1 for True/False, below the option count otherwise |
| Quiz.ParseChoiceExactly | QuizManager.cs:228-239 | on a multiple-choice question, an answer reads as option i exactly when it trims and upper-cases to the letter of i or parses as the number i + 1 |
| Quiz.ParseChoiceRefused | QuizManager.cs:228-239 | on a multiple-choice question, an answer is refused exactly when it is neither one letter within the options nor a number from 1 to the option count |
| Quiz.ParseTrueFalse | QuizManager.cs:215-226 | a True/False question accepts exactly "TRUE" as 0 and "FALSE" as 1, after trimming and upper-casing, and nothing else |
| Quiz.ParseLetter | QuizManager.cs:231-234 | on a multiple-choice question, every answer that trims and upper-cases to option i's letter reads as option i |
| Quiz.LetterForms | QuizManager.cs:213 | the capital and the small letter of option i both trim and upper-case to the capital |
| Quiz.NormalisedLetter | QuizManager.cs:213 | one non-whitespace character trims and upper-cases to its capital |
| Quiz.ParseNormalisedLetter | QuizManager.cs:231-234 | a capital within the options reads as its position |
| Quiz.ParseDigit | QuizManager.cs:236-239 | the digit n of a multiple-choice question reads as option n - 1, for n from one to nine |
| Quiz.ParseAnswerIgnoresPadding | QuizManager.cs:213 | surrounding whitespace does not change how an answer reads |
| Quiz.ParseAnswerIgnoresCase | QuizManager.cs:213 | the case of an answer does not change how it reads |
| Quiz.Percentage | QuizManager.cs:270 | the score percentage lies within 0..100 |
| Quiz.PercentageBound | QuizManager.cs:281 | correct * 100 / count lies within 0..100 when correct <= count |
| Quiz.Reset | QuizManager.cs:291-297 | the quiz stops and returns to question 0 with no correct answers; the questions stay shuffled as they are |
| Quiz.Initial | QuizManager.cs:48-52 | a new manager holds twelve well-formed questions, no quiz runs, and cursor and correct count are zero, and the score it reports is 0 before any quiz has run |
| Quiz.StartWhileActive | QuizManager.cs:173-177 | starting while a quiz runs changes nothing and only posts the already-in-progress message |
| Quiz.StartFromInactive | QuizManager.cs:179-185 | starting resets the cursor and score and permutes the questions. It posts the start message and the first question, and the quiz runs exactly when there are questions |
| Quiz.StartKeepsValid | QuizManager.cs:171-185 | every start keeps the quiz invariant |
| Quiz.AnswerWhenInactive | QuizManager.cs:204-209 | an answer with no quiz running only posts the not-active message and keeps the quiz off |
| Quiz.AnswerInvalid | QuizManager.cs:253-258 | an answer in no accepted format changes no field |
| Quiz.AnswerValid | QuizManager.cs:243-262 | an accepted answer moves to the next question and adds one to the score exactly when it is right; the quiz stays active exactly while questions remain |
| Quiz.AnswerValidReplies | QuizManager.cs:243-262 | an accepted answer posts right or wrong (with the correct option), then the explanation, then the next question or the score report |
| Quiz.AnswerKeepsValid | QuizManager.cs:202-263 | every answer keeps the quiz invariant |
| Quiz.RefusalsNotEmpty | QuizManager.cs:206 | the not-active and invalid-answer messages are not empty |
| Quiz.AnswerPostsReply | QuizManager.cs:202-263 | every answer posts at least one message, and its last message is not empty |
| Quiz.Start | QuizManager.cs:171-185 | starting during a quiz changes nothing; otherwise cursor and correct count restart at zero over a permutation of the same questions; the first message is the already-in-progress or the quiz-started notice |
| Quiz.Answer | QuizManager.cs:202-263 | an answer never changes the questions, moves the cursor by at most one, raises the correct count by at most one, and always posts a message |
| Quiz.Judge | QuizManager.cs:242-262 | judging a parsed answer never changes the questions, moves the cursor by at most one, raises the correct count by at most one, and always posts a message |
| Quiz.Score | QuizManager.cs:276-282 | -1 exactly while a quiz runs; otherwise a percentage from 0 to 100, the correct share of the questions rounded down when there are questions |
| Quiz.ScoreRange | QuizManager.cs:276-282 | the score is -1 exactly while a quiz runs, is otherwise within 0..100, and is 0 after a reset |
| Quiz.QuizManager.IsQuizActive | QuizManager.cs:285-288 | the quiz is active exactly when the score getter reports -1 |
| Quiz.QuizManager.GetQuizScore | QuizManager.cs:276-282 | -1 exactly while a quiz runs, otherwise within 0..100 |
| Quiz.ResetIdempotent | QuizManager.cs:291-297 | resetting twice is resetting once, and a reset state is valid whenever its questions are well formed |
| Quiz.QuizManager.constructor | QuizManager.cs:48-52 | the new manager's state is Initial for the first shuffle's draws |
| Quiz.QuizManager.ShuffleQuestions | QuizManager.cs:156-168 | the in-place swap loop leaves the questions as Shuffled(old questions) and changes no other field |
| Quiz.QuizManager.StartNewQuiz | QuizManager.cs:171-185 | the new state and the posted messages are Start of the old state |
| Quiz.QuizManager.PresentQuizQuestion | QuizManager.cs:188-199 | the current question is posted, or the quiz ends when none is left |
| Quiz.QuizManager.EndQuizNow | QuizManager.cs:266-273 | the quiz stops and the score report is posted |
| Quiz.QuizManager.ProcessQuizAnswer | QuizManager.cs:202-263 | the new state and the posted messages are Answer of the old state |
| Quiz.QuizManager.AnswerCurrent | QuizManager.cs:210-262 | on an active quiz, the new state and the posted messages are Answer of the old state |
| Quiz.QuizManager.JudgeAnswer | QuizManager.cs:242-262 | the new state and the posted messages are Judge of the old state for the parsed answer |
| Quiz.QuizManager.Advance | QuizManager.cs:260-262 | the reply and explanation are posted, followed by the next question or the end of the quiz |
| Quiz.QuizManager.ResetQuizState | QuizManager.cs:291-297 | the state becomes Reset of the old state |
| Responses.IsCybersecurityQuestion | ResponseGenerator.cs:22-28 | true exactly when one of the eighteen keywords occurs in the lower-cased input |
| Responses.TopicOf | ResponseGenerator.cs:31-171 | a chosen topic is mentioned by the lower-cased input |
| Responses.TopicOfIsFirst | ResponseGenerator.cs:35-167 | topic i is chosen exactly when the input mentions it and no topic earlier in the chain |
| Responses.TopicOfNone | ResponseGenerator.cs:168-171 | the final else is taken exactly when no topic is mentioned |
| Responses.RepliesFor | ResponseGenerator.cs:35-171 | a branch offers three replies, except Trojan, worm, ransomware, spyware and the final else, which offer one |
| Responses.GetCybersecurityResponse | ResponseGenerator.cs:31-172 | the reply is one of the replies of the chosen branch |
| Responses.ResponseIgnoresCase | ResponseGenerator.cs:33 | the reply does not depend on the case of the input |
| Responses.MalwareBeforePassword | ResponseGenerator.cs:44-61 | an input that mentions malware but not phishing gets a malware reply, whatever later topics it mentions |
| Responses.MalwarePassword | ResponseGenerator.cs:44-52 | "malware password" gets a malware reply |
| Responses.NoTopicIsGeneral | ResponseGenerator.cs:168-171 | an input that mentions no topic gets the general reply |
| Responses.BruteForceMissesEarlyTopics | ResponseGenerator.cs:35-106 | "brute-force" mentions none of the first eight topics |
| Responses.BruteForceMissesLateTopics | ResponseGenerator.cs:107-167 | "brute-force" mentions none of the last nine topics |
| Responses.BruteForceIsGeneral | ResponseGenerator.cs:26 | "brute-force" passes the keyword test but has no branch, so it gets the general reply |
| Responses.MfaPhraseSelectsMfa | ResponseGenerator.cs:62 | "multi-factor authentication" and without the phrases earlier in the chain selects the MFA branch |
| Responses.MfaPhraseIsNoKeyword | ResponseGenerator.cs:26 | "multi-factor authentication" is not a keyword |
| Responses.MfaPhrase | ResponseGenerator.cs:62 | "multi-factor authentication" alone selects the MFA branch |
| Responses.KeywordOf | ResponseGenerator.cs:26 | the first phrase of every topic is a keyword |
| Responses.TopicNeedsKeyword | ResponseGenerator.cs:26-27 | an input that reaches a topic branch without "multi-factor authentication" passes the keyword test |
| Responses.OnlyMfaHasTwoPhrases | ResponseGenerator.cs:62 | "multi-factor authentication" is the only branch phrase that is not a topic's first |
| ConsoleBot.NormalisedBlank | Program.cs:153-155 | a lower-cased, trimmed query is blank only when it is empty |
| ConsoleBot.Classify | Program.cs:151-208 | a query gets the didn't-understand reply exactly when it is blank once normalised |
| ConsoleBot.Branch | Program.cs:155-207 | the same, for a query already normalised |
| ConsoleBot.ClassifyIsFirst | Program.cs:160-203 | branch k is taken exactly when the query is not blank, contains a phrase of group k, and contains none of the groups earlier in the chain |
| ConsoleBot.BranchIsFirst | Program.cs:160-203 | the same, for a query already normalised |
| ConsoleBot.ClassifyFallback | Program.cs:204-207 | the could-you-rephrase reply is given exactly when the query is not blank and contains no phrase of any group |
| ConsoleBot.GetResponse | Program.cs:151-208 | a blank query gets the not-understood reply, and a non-blank query that asks about no topic gets the could-you-rephrase fallback |
| ConsoleBot.ResponseOfBranch | Program.cs:160-203 | a query that asks about branch k and about no earlier branch gets the text of branch k |
| ConsoleBot.BlankQuery | Program.cs:155-158 | an empty or all-whitespace query gets the didn't-understand reply |
| ConsoleBot.ClassifyIgnoresCase | Program.cs:153 | the branch does not depend on the case of the query |
| ConsoleBot.NormaliseIgnoresCase | Program.cs:153 | lower- or upper-casing a query first does not change its normal form |
| ConsoleBot.ClassifyIgnoresPadding | Program.cs:153 | whitespace around the query does not change the branch |
| ConsoleBot.NormaliseIgnoresPadding | Program.cs:153 | whitespace around the query does not change its normal form |
| ConsoleBot.FirstAsked | Program.cs:160-203 | the first group that the query asks for is the one the chain finds |
| ConsoleBot.ClassifyAt | Program.cs:160-203 | a query that is not blank takes the branch of the first group found |
| ConsoleBot.StrongPasswordAsks | Program.cs:172 | "strong password" is a password-safety phrase |
| ConsoleBot.StrongPasswordBeforePhishing | Program.cs:172-179 | a query that asks about strong passwords, and not for any of the three branches earlier in the chain, gets the password-safety reply even when it also mentions phishing |
| ConsoleBot.PasswordAsksNothing | Program.cs:172-203 | "password" alone contains no phrase of any branch |
| ConsoleBot.PasswordAloneFallsBack | Program.cs:204-207 | "password" alone gets the could-you-rephrase reply |
| ConsoleBot.ResponseIgnoresCaseAndPadding | Program.cs:151-153 | the reply does not depend on the case of the query or on whitespace around it |
| Chat.ThankReplies | ChatEngine.cs:79-84 | four replies to thanks |
| Chat.Greetings | ChatEngine.cs:143-147 | three greetings |
| Chat.PostAll | ChatEngine.cs:42-45 | a manager's messages are appended to the history as "System: " entries, in order, and nothing else changes |
| Chat.Post | ChatEngine.cs:334-337 | one "System: " entry is appended, it reads back as the latest content, and nothing else changes |
| Chat.StateDedupe | ChatEngine.cs:251-254 | only the history may change, by at most one entry, and afterwards the latest entry shows a non-empty response |
| Chat.DirectDedupe | ChatEngine.cs:158-161 | only the history may change, by at most one entry, and afterwards the latest entry shows the response |
| Chat.DedupeShowsReply | ChatEngine.cs:158-161 | for a non-empty response both de-duplication rules agree: it is posted exactly when the latest entry does not contain it yet |
| Chat.LastParsedIsRightmost | ChatEngine.cs:263-270 | the backward scan finds nothing exactly when no token parses, and otherwise finds the value of a token after which no token parses |
| Chat.ExtractTaskIndexRightmost | ChatEngine.cs:260-271 | the task index is -1 when no token parses; a result other than -1 is the value of a parsing token with no parsing token after it |
| Chat.ExtractTaskIndexOfRightmost | ChatEngine.cs:260-271 | conversely, when a token parses and no token after it does, the task index is that token's value |
| Chat.TaskNumberAtEnd | ChatEngine.cs:260-271 | a non-negative number written as the last token is the task index, whatever comes before it |
| Chat.Answered | ChatEngine.cs:174-175 | the quiz takes the answer and its messages are posted; the last one, which is not empty, is the latest content |
| Chat.QuizStep | ChatEngine.cs:173-180 | the quiz takes the answer, the reply is its last message, and the engine goes idle exactly when the quiz is over |
| Chat.TitleStep | ChatEngine.cs:182-194 | non-blank input becomes the trimmed title and moves to the description step; blank input keeps the state and re-asks |
| Chat.DescriptionStep | ChatEngine.cs:196-208 | non-blank input becomes the trimmed description and moves to the date step; blank input keeps the state and re-asks |
| Chat.DateStep | ChatEngine.cs:210-231 | "no" or a parsed date adds the pending task with that reminder and goes idle; anything else returns the retry prompt with nothing changed and nothing posted |
| Chat.CompleteStep | ChatEngine.cs:233-244 | a number is passed to CompleteTask, anything else gets the prompt, and the engine goes idle either way |
| Chat.HandleState | ChatEngine.cs:168-256 | the handler answers (with a non-empty reply) exactly when the state is not Idle, and in Idle changes nothing |
| Chat.FirstMatch | ChatEngine.cs:70-153 | the first command, from a given position on, whose test the input passes; the tests of the commands in between fail |
| Chat.CommandOf | ChatEngine.cs:70-153 | the chosen command's test passes |
| Chat.CommandIsFirst | ChatEngine.cs:70-153 | command k is chosen exactly when its test passes and no earlier command's test does |
| Chat.CommandUnknown | ChatEngine.cs:150-153 | the final else is taken exactly when no command's test passes |
| Chat.RunCommand | ChatEngine.cs:70-153 | every command keeps the invariant, the log and the user name, and only adds history. Only "add task" (which opens a new pending task) and a numberless "complete task" change the conversation state, and the answering commands change nothing |
| Chat.Direct | ChatEngine.cs:69-163 | "exit" posts the goodbye and returns the exit marker at once; every other reply ends up shown by the latest entry |
| Chat.LogInput | ChatEngine.cs:55-56 | the input is appended as a "User: " entry and logged, and nothing else changes |
| Chat.Process | ChatEngine.cs:52-164 | every input keeps the engine invariant |
| Chat.ProcessLogsInput | ChatEngine.cs:55-56 | every input is recorded first: one "User: " entry opens what the call adds, the activity log gains exactly that input's entry, and the user name stays |
| Chat.StateFirst | ChatEngine.cs:61-67 | outside Idle the state handler answers, and no direct command is tried |
| Chat.IdleDirect | ChatEngine.cs:246-248 | in Idle the input goes to the direct commands |
| Chat.ReplyShown | ChatEngine.cs:155-163 | the reply is shown by the latest entry, except the exit marker (which follows the goodbye) and the date retry prompt (which is never posted) |
| Chat.DirectShown | ChatEngine.cs:155-161 | a direct command's reply is shown, except "exit", which shows the goodbye |
| Chat.HandleStateShown | ChatEngine.cs:250-254 | the state handler's reply is shown, except the date retry prompt, which changes nothing |
| Chat.TitleTakesInput | ChatEngine.cs:182-194 | while waiting for a title, any non-blank input, even a command, becomes the lower-cased, trimmed title |
| Chat.DescriptionTakesInput | ChatEngine.cs:196-208 | while waiting for a description, any non-blank input becomes the description and the engine moves to the date step |
| Chat.DateAddsTask | ChatEngine.cs:210-231 | "no" adds the task without a reminder, a parsed date adds it with that reminder (each exactly once, then Idle), and anything else only gets the retry prompt |
| Chat.ToLowerIdempotentTrimmed | ChatEngine.cs:212 | the lower-cased, trimmed input is its own lower-case form, so the date step's second ToLower changes nothing |
| Chat.CompletingReturnsToIdle | ChatEngine.cs:233-244 | after CompletingTask the engine is idle whatever the input; a number is passed to CompleteTask |
| Chat.QuizTakesAnswer | ChatEngine.cs:173-180 | in InQuiz the input is the quiz answer, the reply is the quiz's last message, and the engine goes idle exactly when the quiz is over |
| Chat.ExitExactly | ChatEngine.cs:70 | the exit command is chosen exactly for the whole inputs "exit", "quit" and "bye" |
| Chat.ExitReturnsMarker | ChatEngine.cs:70-76 | exit returns the marker after the user entry and the goodbye, and changes no other state |
| Chat.ProcessExit | ChatEngine.cs:70-76 | the whole result of the exit command from Idle |
| Chat.IdleTransitions | ChatEngine.cs:96-117 | from Idle only "add task" (to WaitingForTitle, with a new pending task) and a numberless "complete task" (to CompletingTask) leave Idle |
| Chat.TypedStartQuizStaysIdle | ChatEngine.cs:91-95 | a typed "start quiz" starts the quiz but leaves the engine in Idle |
| Chat.CompleteTaskCommandEffect | ChatEngine.cs:103-117 | "complete task" with a number completes that task at once; without one it asks which and moves to CompletingTask |
| Chat.AnsweringCommands | ChatEngine.cs:77-153 | apart from recording the input, the commands that only answer change nothing but the history, and their reply is the command's answer |
| Chat.HelpCommand | ChatEngine.cs:87-90 | the help command is chosen exactly when the lower-cased input is "help" |
| Chat.HelpReply | ResponseGenerator.cs:175-184 | typing "help" while idle replies with the help text and changes nothing but the history |
| Chat.Initial | ChatEngine.cs:35-48 | a new engine is Idle, has no pending task, no history and no tasks, and has one log entry |
| Chat.AfterClearChat | ChatEngine.cs:281-288 | ClearChat keeps the engine invariant |
| Chat.AfterStartQuiz | ChatEngine.cs:300-309 | StartQuiz keeps the engine invariant |
| Chat.AfterSetUserName | ChatEngine.cs:340-344 | SetUserName keeps the engine invariant |
| Chat.ClearChatResets | ChatEngine.cs:281-288 | only the cleared marker is left, the quiz is reset with score 0, and the engine is Idle with no pending task; tasks and user name stay, and the clear is logged |
| Chat.ClearChatTwice | ChatEngine.cs:281-288 | clearing twice leaves the engine as clearing once does, apart from the extra log entry |
| Chat.StartQuizEffect | ChatEngine.cs:300-309 | while a quiz runs StartQuiz only posts the notice; otherwise it starts the quiz, posts its messages and enters InQuiz |
| Chat.StartQuizThenAnswer | ChatEngine.cs:308 | after StartQuiz the next input is taken as the quiz answer |
| Chat.UserNameOfShape | ChatEngine.cs:342 | a blank name is stored as "Guest", and any other name trimmed; a trimmed name is not blank and is stored unchanged |
| Chat.SetUserNameEffect | ChatEngine.cs:340-344 | SetUserName stores that name, logs it, and changes nothing else |
| Chat.ChatEngine.constructor | ChatEngine.cs:35-48 | the new engine's state is Initial, around a new quiz manager |
| Chat.ChatEngine.PostMessages | ChatEngine.cs:42-45 | the callback loop appends each manager message in order |
| Chat.ChatEngine.StateReply | ChatEngine.cs:251-254 | the state is StateDedupe of the old state |
| Chat.ChatEngine.DirectReply | ChatEngine.cs:158-161 | the state is DirectDedupe of the old state |
| Chat.ChatEngine.HandleQuizAnswer | ChatEngine.cs:173-180 | state and reply are QuizStep of the old state |
| Chat.ChatEngine.HandleTitle | ChatEngine.cs:182-194 | state and reply are TitleStep of the old state |
| Chat.ChatEngine.HandleDescription | ChatEngine.cs:196-208 | state and reply are DescriptionStep of the old state |
| Chat.ChatEngine.HandleDate | ChatEngine.cs:210-231 | state and reply are DateStep of the old state, including the early return |
| Chat.ChatEngine.HandleCompletion | ChatEngine.cs:233-244 | state and reply are CompleteStep of the old state |
| Chat.ChatEngine.HandleStateBasedInput | ChatEngine.cs:168-256 | state and reply are HandleState of the old state |
| Chat.ChatEngine.ExtractTaskIndexFromInput | ChatEngine.cs:260-271 | the backward loop returns ExtractTaskIndex of the input |
| Chat.ChatEngine.AnswerCommand | ChatEngine.cs:77-153 | the reply of an answering command, with nothing changed |
| Chat.ChatEngine.RunDirectCommand | ChatEngine.cs:70-153 | state and reply are RunCommand of the old state |
| Chat.ChatEngine.StartQuizCommandRun | ChatEngine.cs:91-95 | the "start quiz" branch performs RunCommand's effect |
| Chat.ChatEngine.CompleteTaskCommandRun | ChatEngine.cs:103-117 | the "complete task" branch performs RunCommand's effect |
| Chat.ChatEngine.DirectCommand | ChatEngine.cs:69-161 | state and reply are Direct of the old state |
| Chat.ChatEngine.ProcessUserInput | ChatEngine.cs:52-164 | state and reply are Process of the old state |
| Chat.ChatEngine.ClearChat | ChatEngine.cs:281-288 | the state is AfterClearChat of the old state |
| Chat.ChatEngine.StartQuiz | ChatEngine.cs:300-309 | the state is AfterStartQuiz of the old state |
| Chat.ChatEngine.SetUserName | ChatEngine.cs:340-344 | the state is AfterSetUserName of the old state |
| Chat.ChatEngine.ShowAllTasks | ChatEngine.cs:290-293 | the task listing is posted, and nothing else changes |
| Chat.ChatEngine.ShowActivityLog | ChatEngine.cs:316-319 | the activity listing is posted, and nothing else changes |
| Chat.ChatEngine.AddSystemMessage | ChatEngine.cs:334-337 | the message is posted, and nothing else changes |
| Chat.ChatEngine.GetChatHistory | ChatEngine.cs:276-279 | an empty history displays as the empty text, and the history a clear leaves displays as the single line "Bot: Chat history cleared." |
| Chat.ChatEngine.GetActiveTaskCount | ChatEngine.cs:295-298 | the count is the number of tasks not completed, never more than the number of tasks |
| Chat.ChatEngine.GetQuizScore | ChatEngine.cs:311-314 | -1 exactly while a quiz runs, otherwise within 0..100 |
| Chat.ChatEngine.GetActivityCount | ChatEngine.cs:321-324 | the count is the number of log entries, at most fifty |
| Chat.ChatEngine.GetTasksForReminderCheck | ChatEngine.cs:327-331 | each task returned is in the list, not completed, has a reminder date and has not been notified |
| Chat.ChatEngine.GetUserName | ChatEngine.cs:347-350 | the name of a valid engine is never empty |

## Left out

- The WPF window, the reminder timer, the voice greeting and the console loop of Program.cs: these are input/output around the core. Only `GetResponse` of Program.cs is modelled.
- The NLP processor, the sentiment detector, the user profile and the quiz score record: they are not called by the modelled core.
- The clock, the random generator and `DateTime.TryParse` are outside calls. They are parameters: a `DateTime` value, draws `pick`/`draw`, and a `parseDate` function. The model fixes no date syntax and never compares timestamps, so the due times of reminders are not modelled.
- FormatDate: timestamps are rendered as in the invariant culture, with Gregorian year, month and day fields and ':' as the time separator. .NET takes the time separator and the calendar from the current culture; that dependence reaches the due segment of a task's text, the task-added message and every activity-log entry.
- Culture-sensitive casing: `ToLower`/`ToUpper` change only the ASCII letters.
- `int.TryParse` is modelled for `NumberStyles.Integer` in the invariant culture. Trailing NUL characters, which .NET also accepts, are not.
- C# `null`: an unset task title or description is `""`, because string interpolation prints null as empty. A null `Options` array of QuizQuestion is `None`. The null returned by the state handler is `""`.
- Quiz.Percentage uses integer arithmetic `correct * 100 / count` instead of the double-precision `(int)((double)correct / count * 100)`. For the twelve-question bank the two agree: the exact value is never within rounding error of an integer unless it is one. For other counts they may differ by one.
- QuizQuestions.Letter: a C# char is a UTF-16 unit, but a Dafny char is a Unicode scalar value. Codes from the surrogate range on become U+FFFD; the question bank never comes near them.
- Responses: the wording of the canned topic replies is not fixed. Each is a named constant without a value, so the model states which branch and which variant is chosen, but not the text.
- Chat.HandleState: in C# the three steps of adding a task read `pendingTask` and would throw if it were null. The engine invariant rules that case out, so the exception path is not modelled.
- The managers' `ArgumentNullException` for a null callback: the model has no null callbacks.
