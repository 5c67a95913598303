# Quiz session and commit id — a Dafny model

This project models two small pieces of the "Girls who Viking" quiz application.

- **The quiz session** (`Quiz.java`). A `Quiz` holds a fixed list of questions and one
  counter of answered questions. It is done once the counter reaches the number of
  questions. It shows the question at the counter with a 1-based index and a "last" flag.
  `evaluate` rejects a `null` answer, does nothing on a finished quiz and otherwise
  advances by one. A result exists only for a finished quiz that has questions. `reset`
  returns to the first question. The `Answer` and `Question` records turn a `null` list
  into an empty one and copy any other list.
- **The commit id** (`utils/GitId.java`). It holds the full commit id and an abbreviation.
  A supplied abbreviation is kept. Otherwise the marker `unbekannt` is used for an
  unknown id, and the first (at most) eight characters for a known one.

Files:
- `java.dfy` (module `Java`): Java's `null`/`Optional` as `Option`; calls that throw as
  `Completion` (`Returns` or `Throws`); `Math.min`; and `List.copyOf`, which throws
  `NullPointerException` on a `null` element.
- `quiz.dfy` (module `Quizzes`): the records as datatypes, with their compact constructors
  as functions (`NewAnswer`, `NewQuestion`). The session is a class `Quiz` with a constant
  `questions` and a mutable `counter`. The queries are functions that read the object, and
  `Evaluate` and `Reset` are methods. `NextCounter` and `Replay` describe the counter
  across one or several `evaluate` calls. The two unit-test scenarios are methods.
- `git_id.dfy` (module `Utils`): the datatype `GitId`, its getters, and the constructor
  as the function `NewGitId`.

`QuizService.java:18,55` and `QuizServiceTest.java:39,47,63` refer to `Quiz.Definition`,
`Quiz.Outcome`, `increments()` and `new Quiz(definition)`. Those belong to a later version of
`Quiz.java` than the one modelled here. The modelled `Quiz.java` has no scoring and no
outcomes: `evaluate` ignores the selected answer, and `Result` is an empty record.

## Model

| member | source | states |
|---|---|---|
| `Java.CopyOf` | src/main/java/de/jcvogt/girlswhoviking/Quiz.java:39 | copying a list throws `NullPointerException` exactly when some element is `null`; otherwise the copy has the same length and the same elements in the same order |
| `Java.CopyOfNonNull` | src/main/java/de/jcvogt/girlswhoviking/Quiz.java:39 | copying a list with no `null` element returns exactly its elements |
| `Quizzes.NewAnswer` | src/main/java/de/jcvogt/girlswhoviking/Quiz.java:37-41 | a `null` increments list becomes empty; a list with a `null` element throws, and only then; otherwise the answer keeps its text and an element-wise copy of the increments |
| `Quizzes.NewQuestion` | src/main/java/de/jcvogt/girlswhoviking/Quiz.java:49-53 | a `null` answers list becomes empty; a list with a `null` element throws, and only then; otherwise the question keeps its text and an element-wise copy of the answers |
| `Quizzes.NewAnswerRoundTrip` | src/main/java/de/jcvogt/girlswhoviking/Quiz.java:37-41 | rebuilding an answer from its own text and increments gives the same answer |
| `Quizzes.NewQuestionRoundTrip` | src/main/java/de/jcvogt/girlswhoviking/Quiz.java:49-53 | rebuilding a question from its own text and answers gives the same question |
| `Quizzes.Quiz.constructor` | src/main/java/de/jcvogt/girlswhoviking/Quiz.java:82-88 | a new quiz keeps the given questions, starts at counter 0, satisfies 0 <= counter <= number of questions, and is done from the start exactly when it has no questions |
| `Quizzes.Quiz.IsDone` | src/main/java/de/jcvogt/girlswhoviking/Quiz.java:90-92 | done exactly when the counter equals the number of questions; a quiz without questions is always done |
| `Quizzes.Quiz.GetCurrentQuestion` | src/main/java/de/jcvogt/girlswhoviking/Quiz.java:94-103 | empty exactly when the quiz is done; otherwise the question at the counter, with 1-based index counter + 1 within 1..size, `last` true exactly when the index is the size, and `question()`/`answers()` (lines 64-70) giving that question's text and answers |
| `Quizzes.Quiz.Evaluate` | src/main/java/de/jcvogt/girlswhoviking/Quiz.java:105-115 | a `null` answer throws and leaves the counter unchanged, even on a finished quiz; on a done quiz it returns true and changes nothing; otherwise the counter rises by exactly one and the new done state is returned; the counter bound is kept and the answer value is ignored |
| `Quizzes.NextCounter` | src/main/java/de/jcvogt/girlswhoviking/Quiz.java:105-115 | one `evaluate` call raises the counter by exactly one when the answer is non-null and the quiz unfinished, leaves it unchanged otherwise, and never moves it past the number of questions |
| `Quizzes.ReplayAdvancesByNonNull` | src/main/java/de/jcvogt/girlswhoviking/Quiz.java:105-115 | after any sequence of `evaluate` calls from a valid counter, the counter is min(start + number of non-null answers, number of questions) |
| `Quizzes.FreshQuizDoneIff` | src/main/java/de/jcvogt/girlswhoviking/Quiz.java:84-115 | a fresh quiz is done after a sequence of `evaluate` calls exactly when at least as many of them had a non-null answer as there are questions; the counter never exceeds the number of questions |
| `Quizzes.Quiz.GetResult` | src/main/java/de/jcvogt/girlswhoviking/Quiz.java:117-124 | a result is present exactly when the quiz has questions and all of them have been answered |
| `Quizzes.Quiz.Reset` | src/main/java/de/jcvogt/girlswhoviking/Quiz.java:126-128 | the counter becomes 0 and the questions are untouched; a quiz with questions is then not done, has no result and shows its first question with index 1 |
| `Quizzes.EmptyQuizScenario` | src/test/java/de/jcvogt/girlswhoviking/QuizTest.java:29-37 | a quiz without questions is done, has no current question, answers `evaluate(42)` with true and has no result |
| `Quizzes.SingleQuestionScenario` | src/test/java/de/jcvogt/girlswhoviking/QuizTest.java:39-53 | a one-question quiz shows its question with index 1 as the last one; `evaluate(42)` returns true and there is no current question afterwards |
| `Utils.NewGitId` | src/main/java/de/jcvogt/girlswhoviking/utils/GitId.java:37-53 | defined for every full id, the empty one included; `getFull` returns the full id verbatim; `isUnknown` holds exactly for the marker; `getAbbrev` returns a supplied abbreviation verbatim; otherwise the marker abbreviates an unknown id, and a known id is abbreviated by its prefix of length min(8, length) |
| `Utils.KnownAbbrevIsShortPrefix` | src/main/java/de/jcvogt/girlswhoviking/utils/GitId.java:40 | a derived abbreviation of a known id has at most 8 characters and is a prefix of the id; an id of at most 8 characters is its own abbreviation |
| `Utils.UnknownAbbrevIsLonger` | src/main/java/de/jcvogt/girlswhoviking/utils/GitId.java:31-40 | the derived abbreviation of the unknown id is the 9-character marker, so the 8-character bound holds only for known ids |
| `Utils.NewGitIdRoundTrip` | src/main/java/de/jcvogt/girlswhoviking/utils/GitId.java:37-49 | building from an id's own full value and abbreviation gives the same id; supplying the abbreviation that would have been derived changes nothing |

## Left out

- Concurrency: the counter is an `AtomicInteger`, but the check-then-increment in `evaluate` is not atomic. The model uses a plain `nat` field and a single-threaded session.
- Integer width: the counter stays within the number of questions, and a Java list holds at most `Integer.MAX_VALUE` elements. So neither `incrementAndGet` nor `idx + 1` can wrap, and unbounded integers model them exactly.
- Aliasing of the question list: the constructor stores the caller's list without copying it. The model holds an immutable sequence, so a caller changing that list later is not captured.
- A `null` question list passed to the `Quiz` constructor, and `null` elements in it, are not modelled. The list is a sequence of questions, so the constructor cannot receive `null`.
- `null` strings (question text, answer text, full commit id) are not modelled; strings are sequences of characters. The full commit id has a non-null configuration default.
- `Utils.NewGitId`: a character is a Unicode scalar value, while Java's `length()` and `substring` count UTF-16 code units. For a full id with a character outside the Basic Multilingual Plane, Java's length differs from `|full|`, so `min(8, length)` and the derived prefix differ as well. Commit ids are ASCII hex, where both agree.
- Serialisation (`Serializable`, `serialVersionUID`) and the configuration injection of the full and abbreviated commit id: framework concerns. The constructor takes both as plain parameters.
- Scoring, outcomes and increments-based evaluation: the modelled `Quiz.java` has none of them. Increments are stored by `Answer` but never read.
- `QuizService` and `QuizServiceTest`: they load a quiz definition from a JSON resource and build `new Quiz(definition)`, a constructor of a later `Quiz` variant that the modelled `Quiz.java` does not have. They are not part of this model.
- `QuizResource`: web routing and templates; it only calls the modelled `Quiz` API (`isDone`, `reset`, `evaluate`, `getResult`). It is not part of this model.
- `IndexResource`, `GitPropertiesConfigSourceFactory` and `StrExtensions`: web, configuration I/O and string helpers that do not call `Quiz` or `GitId`. They are not part of this model.
