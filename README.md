# The Sisyphus task list, modelled in Dafny

The page keeps an ordered list of tasks. Each task has an id, a text, a description and a
status (`todo` or `completed`). The user can do two things to the list:

- **Add a task.** One `todo` task is appended. A missing or empty text or description is
  replaced by a fixed placeholder.
- **Complete a task.** The handler first marks every task with that id `completed`. It then
  sends a prompt built from the task's text and description to a text-generation service.
  Finally it appends exactly two new `todo` tasks. How the request ended decides which two:
  - A 2xx answer with at least two non-blank lines: those two lines (trimmed), each
    described as an "AI-generated follow-up to:" the completed task.
  - Any other 2xx answer that can be read: the "Overthink" pair.
  - A non-2xx status: the "Regret" pair.
  - Anything that throws (the request itself, decoding the JSON, a `null` body, or a
    selected `generated_text` that is not a string): the "anxiety" pair.

The model has three modules:

- `JsText` (`JsText.dfy`) gives the JavaScript string behaviour the handler relies on:
  - truthiness of a value that may be absent;
  - `split('\n')`, with `Join` as its inverse;
  - `trim()`, with the whitespace set of ECMAScript written out.
- `FollowUps` (`FollowUps.dfy`) holds the pure part of the completion handler:
  - the context string and the prompt;
  - the `||` chain that picks the generated text;
  - the `split / filter / slice / map` pipeline that reads task texts from it;
  - the three fixed pairs;
  - `TasksFor`, which picks the pair for each outcome of the request.
- `TaskStore` (`TaskStore.dfy`) holds the task records and the page's state:
  - a class `Store` whose field `tasks` is replaced by each `setTasks` call;
  - the functions that specify each replacement;
  - the relation `Extends`, which every change keeps: nothing is removed, moved or edited,
    and a task only goes from to-do to completed;
  - a session model (`Run` over a sequence of intents).

The network is a parameter of `Store.Complete`: a function from the prompt to an
`Outcome`, which is `Rejected`, `NotOk` or `Ok(body)`. The clock is passed in as the
readings it returns. `Date.now()` is called once per new record inside the `.map` that
builds it, so a completion reads the clock twice. Its two tasks get ids `now0` and
`now1 + 1`.

Three facts about the code's behaviour shape the model:
- A request that throws leads to the "anxiety" pair from the `catch` at
  `TaskListPage.jsx:115`.
- Only a response whose `ok` is false leads to the "Regret" pair.
- Ids are not unique: `SameInstantSameId` shows two tasks added at the same clock reading
  sharing an id.

## Model

| member | source | states |
|---|---|---|
| `JsText.OrElse` | frontend/src/pages/TaskListPage.jsx:144-145 | `x || fallback` on an optional string is either the fallback or the given value, and it is empty only when the fallback is |
| `JsText.OrElseNonEmpty` | frontend/src/pages/TaskListPage.jsx:144-145 | JavaScript's or-default with a non-empty fallback is never empty; it is the fallback exactly when `x` is absent, empty, or equal to the fallback |
| `JsText.LineEndSpec` | frontend/src/pages/TaskListPage.jsx:57 | the cut point of `split('\n')` is the first line feed: none comes before it, and a line feed (or the end of the text) is at it |
| `JsText.LineEndUnique` | frontend/src/pages/TaskListPage.jsx:57 | the first line feed is the only such index, so the cut point is determined by the text |
| `JsText.Split` | frontend/src/pages/TaskListPage.jsx:57 | `split('\n')` gives at least one piece |
| `JsText.SplitPiecesNoBreak` | frontend/src/pages/TaskListPage.jsx:57 | no piece of `split('\n')` contains a line feed |
| `JsText.JoinSplit` | frontend/src/pages/TaskListPage.jsx:57 | joining the pieces with line feeds gives back the original text, so the split loses nothing |
| `JsText.SplitJoin` | frontend/src/pages/TaskListPage.jsx:57 | splitting a join of line-feed-free pieces gives back exactly those pieces |
| `JsText.SplitSingle` | frontend/src/pages/TaskListPage.jsx:57 | a text with no line feed is a single piece |
| `JsText.SplitAppend` | frontend/src/pages/TaskListPage.jsx:57 | splitting `a + "\n" + b` gives the pieces of `a` followed by the pieces of `b` |
| `JsText.Trim` | frontend/src/pages/TaskListPage.jsx:60 | `trim()` never lengthens a string; `TrimSpec` below pins down exactly what it leaves |
| `JsText.TrimStartSpec` | frontend/src/pages/TaskListPage.jsx:60 | removing leading white space leaves a suffix, cuts off only white space, and stops at a non-space character |
| `JsText.TrimEndSpec` | frontend/src/pages/TaskListPage.jsx:60 | removing trailing white space leaves a prefix, cuts off only white space, and stops at a non-space character |
| `JsText.TrimIsPiece` | frontend/src/pages/TaskListPage.jsx:60 | `trim()` leaves a contiguous piece of the string |
| `JsText.TrimCutsOnlySpace` | frontend/src/pages/TaskListPage.jsx:60 | everything `trim()` removes, at either end, is white space |
| `JsText.TrimEndsNonSpace` | frontend/src/pages/TaskListPage.jsx:60 | a non-empty result of `trim()` starts and ends with a non-space character |
| `JsText.TrimSpec` | frontend/src/pages/TaskListPage.jsx:58-60 | all the facts above together, which determine the result of `trim()` |
| `JsText.TrimIdempotent` | frontend/src/pages/TaskListPage.jsx:60 | trimming twice is trimming once |
| `JsText.TrimUnchanged` | frontend/src/pages/TaskListPage.jsx:60 | a string that neither starts nor ends with white space is its own trim |
| `JsText.TrimEmptyIffBlank` | frontend/src/pages/TaskListPage.jsx:58 | `text.trim()` is falsy exactly when the line is made of white space only |
| `FollowUps.ContextString` | frontend/src/pages/TaskListPage.jsx:36 | the context starts with the task text; it is the bare text exactly when the description is absent or empty; otherwise the rest is `": "` and the description |
| `FollowUps.Prompt` | frontend/src/pages/TaskListPage.jsx:46 | the `inputs` text starts with the fixed head (`Generate 2 related tasks based on: ` and an opening quote), ends with the fixed tail (the closing quote and the instruction), and is exactly as long as both plus the context |
| `FollowUps.PromptContext` | frontend/src/pages/TaskListPage.jsx:46 | a context read back from a prompt fills exactly the space between the fixed head and tail: the prompt is head, context, tail |
| `FollowUps.PromptContextNone` | frontend/src/pages/TaskListPage.jsx:46 | a text the reader rejects is not the prompt of any context |
| `FollowUps.PromptRoundTrip` | frontend/src/pages/TaskListPage.jsx:46 | the context can be read back from the prompt built around it |
| `FollowUps.PromptInjective` | frontend/src/pages/TaskListPage.jsx:46 | different contexts produce different prompts |
| `FollowUps.SelectGenerated` | frontend/src/pages/TaskListPage.jsx:53 | a truthy `generated_text` wins; otherwise element 0's string `generated_text` is taken; the result is `""` exactly when neither is truthy; evaluating and splitting it throws exactly for a `null` body or a truthy non-string pick |
| `FollowUps.NonBlank` | frontend/src/pages/TaskListPage.jsx:58 | the filter keeps no more lines than it is given, and every line it keeps has a non-space character |
| `FollowUps.NonBlankSingle` | frontend/src/pages/TaskListPage.jsx:58 | a single line is kept exactly when it is not blank |
| `FollowUps.NonBlankMembers` | frontend/src/pages/TaskListPage.jsx:58 | a line is in the filter's result exactly when it is in the input and is not blank |
| `FollowUps.NonBlankAppend` | frontend/src/pages/TaskListPage.jsx:58 | the filter works line by line, so it keeps the relative order of the lines |
| `FollowUps.Take` | frontend/src/pages/TaskListPage.jsx:59 | `slice(0, n)` is a prefix of the list, of length `n` or the whole list when shorter |
| `FollowUps.TrimEach` | frontend/src/pages/TaskListPage.jsx:60 | the map keeps the length, and the text at each position is the trim of the line at that position |
| `FollowUps.ParseLines` | frontend/src/pages/TaskListPage.jsx:56-60 | at most two task texts, none empty; exactly two when the text has at least two non-blank lines |
| `FollowUps.ParseLinesTrimmed` | frontend/src/pages/TaskListPage.jsx:56-60 | every task text read is already trimmed |
| `FollowUps.ParseLinesSingle` | frontend/src/pages/TaskListPage.jsx:56-60 | a one-line text gives its trimmed self, or nothing when it is blank |
| `FollowUps.ParseLinesCons` | frontend/src/pages/TaskListPage.jsx:56-60 | a blank first line is skipped; a non-blank one is trimmed and comes before the texts read from the rest; only the first two are kept |
| `FollowUps.ParseLinesIgnoresTail` | frontend/src/pages/TaskListPage.jsx:59 | once two usable lines have been read, anything after them is discarded |
| `FollowUps.ParseFirstTwoOfThree` | frontend/src/pages/TaskListPage.jsx:56-60 | three non-empty lines with no white space at either end give the first two lines, unchanged |
| `FollowUps.ParseThreeLines` | frontend/src/pages/TaskListPage.jsx:56-60 | `"Task A\nTask B\nTask C"` gives `["Task A", "Task B"]` |
| `FollowUps.ParseEmpty` | frontend/src/pages/TaskListPage.jsx:53-60 | the empty text gives no task text |
| `FollowUps.OverthinkPair` | frontend/src/pages/TaskListPage.jsx:63-72 | the fallback for a readable answer: two drafts with non-empty texts and descriptions, the first quoting the task text after "Overthink the completion of" |
| `FollowUps.RegretPair` | frontend/src/pages/TaskListPage.jsx:95-104 | the fallback for a non-2xx status: two drafts with non-empty texts and descriptions, the first quoting the task text after "Regret completing" |
| `FollowUps.AnxietyPair` | frontend/src/pages/TaskListPage.jsx:119-128 | the fallback in the `catch`: two drafts with non-empty texts and descriptions, the first quoting the task text after "Deal with the anxiety of completing" |
| `FollowUps.AiPair` | frontend/src/pages/TaskListPage.jsx:75-79 | one draft per parsed line, in order, whose text is that line and whose description is "AI-generated follow-up to:" the completed task |
| `FollowUps.TasksFor` | frontend/src/pages/TaskListPage.jsx:51-128 | every outcome, including every malformed body, yields exactly two drafts, each with a non-empty text |
| `FollowUps.TasksForOk` | frontend/src/pages/TaskListPage.jsx:63-82 | a readable 2xx answer with two usable lines gives those lines in order, each described as a follow-up of the completed task (its description is not used); with fewer it gives the "Overthink" pair |
| `FollowUps.TasksForFailures` | frontend/src/pages/TaskListPage.jsx:93-128 | a thrown request or an unreadable body gives the "anxiety" pair; a non-2xx status gives the "Regret" pair |
| `FollowUps.EmptyTextOverthinks` | frontend/src/pages/TaskListPage.jsx:53-82 | an empty selected text always leads to the "Overthink" pair |
| `FollowUps.HappyPathExample` | frontend/src/pages/TaskListPage.jsx:53-90 | a three-line answer for "Buy milk" gives "Task A" and "Task B", each an AI-generated follow-up to "Buy milk" |
| `FollowUps.FallbacksDistinct` | frontend/src/pages/TaskListPage.jsx:63-128 | the three fixed pairs start with different texts, so the first new task shows which path was taken |
| `TaskStore.InitialTasks` | frontend/src/pages/TaskListPage.jsx:9-22 | the page starts with two to-do tasks with different ids |
| `TaskStore.NewTask` | frontend/src/pages/TaskListPage.jsx:141-147 | an added task has the clock reading as its id, is to do, and never has an empty text or description |
| `TaskStore.NewTaskDefaults` | frontend/src/pages/TaskListPage.jsx:144-145 | a placeholder replaces the text or description exactly when it is absent or empty; otherwise the given value is kept |
| `TaskStore.WithCompleted` | frontend/src/pages/TaskListPage.jsx:27-33 | marking keeps the length of the list |
| `TaskStore.WithCompletedSpec` | frontend/src/pages/TaskListPage.jsx:27-33 | marking keeps the order and the id, text and description of every task; exactly the tasks with the given id become completed, and the others keep their status |
| `TaskStore.WithCompletedNoMatch` | frontend/src/pages/TaskListPage.jsx:27-33 | marking an id that no task has leaves the list unchanged |
| `TaskStore.WithCompletedIdempotent` | frontend/src/pages/TaskListPage.jsx:27-33 | marking the same id twice equals marking it once |
| `TaskStore.Stamp` | frontend/src/pages/TaskListPage.jsx:85-90 | turning drafts into records makes one record per draft; `StampSpec` gives their fields |
| `TaskStore.StampSpec` | frontend/src/pages/TaskListPage.jsx:85-90 | new records keep the drafts' order, texts and descriptions and are all to do; their ids strictly increase while the clock does not go back |
| `TaskStore.ExtendsTransitive` | frontend/src/pages/TaskListPage.jsx:27-149 | the relation kept by every change composes over successive changes |
| `TaskStore.CompletedIsFinal` | frontend/src/pages/TaskListPage.jsx:27-33 | once completed, a task record never changes under any change that keeps `Extends` |
| `TaskStore.AfterCompletion` | frontend/src/pages/TaskListPage.jsx:24-139 | a completion makes the list exactly two tasks longer, whatever the request did |
| `TaskStore.CompletionSpec` | frontend/src/pages/TaskListPage.jsx:24-139 | for every outcome, the list after a completion is the marked list followed by exactly two to-do tasks. They have ids `now0` and `now1 + 1` and the outcome's pair in order; earlier tasks change only by the status flip |
| `TaskStore.CompletionMarksTask` | frontend/src/pages/TaskListPage.jsx:27-33 | after a completion, the completed task is in its old place with status completed and its other fields unchanged |
| `TaskStore.Apply` | frontend/src/pages/TaskListPage.jsx:24-150 | one intent adds one task (an add) or two tasks (a completion) |
| `TaskStore.Run` | frontend/src/pages/TaskListPage.jsx:24-150 | a session of intents adds at least one task per intent |
| `TaskStore.RunSpec` | frontend/src/pages/TaskListPage.jsx:24-150 | over any session the list grows by one per added task and by exactly two per completion, whatever the request did; no existing task is removed, moved, edited or reopened |
| `TaskStore.SameInstantSameId` | frontend/src/pages/TaskListPage.jsx:141-149 | two tasks added at the same clock reading get the same id: the code does not make ids unique |
| `TaskStore.Store.constructor` | frontend/src/pages/TaskListPage.jsx:9-22 | the state starts as the two initial tasks |
| `TaskStore.Store.AddTask` | frontend/src/pages/TaskListPage.jsx:141-150 | the new state is the old list followed by the one new task; earlier tasks are unchanged |
| `TaskStore.Store.MarkCompleted` | frontend/src/pages/TaskListPage.jsx:27-33 | the new state is the old list with the given id marked completed |
| `TaskStore.Store.AppendTasks` | frontend/src/pages/TaskListPage.jsx:85-92 | the new state is the old list followed by the drafts made into to-do records |
| `TaskStore.Store.Complete` | frontend/src/pages/TaskListPage.jsx:24-139 | the new state is the marked list followed by the two tasks chosen for the network's answer to the prompt built from the task; the list is two longer, both new tasks are to do, and `Extends` holds |

## Left out

- The HTTP request (`TaskListPage.jsx:37-49`), its headers and the bearer token read from the
  environment (line 6): network I/O. `Store.Complete` takes the network as a function from the
  prompt to an `Outcome`.
- `response.json()` (line 52): a foreign JSON decoder. Its result is the abstract `Body`. A body
  that fails to decode is the outcome `Rejected`, like a rejected `fetch`, since both land in the
  same `catch`.
- The JSON body is seen only through the two `generated_text` properties the code reads.
  Any value other than a string or an absent property is reduced to its truthiness, which is all
  the selection and the `.split` call depend on.
- `console.error` (line 116): logging with no effect on the list.
- The `async`/`await` interleaving between concurrent completions, and React's batching of state
  updates. Each completion is one atomic step here (the status flip, then the append). So
  another change landing between the two `setTasks` calls of one completion is not modelled.
- `Date.now()`: each reading is a parameter. No claim is made that ids are unique, because the
  code does not ensure it (see `SameInstantSameId`).
- Strings are sequences of Unicode scalar values, not UTF-16 code units. Surrogate pairs and
  the coercion of non-string `taskText` or `taskDescription` values inside template literals are
  not modelled. What the components `TaskComponent` and `AddTaskButton` (imported at lines 3-4)
  pass to the handlers is not part of this model. Their arguments are therefore optional strings
  where the code tests their truthiness, and strings otherwise.
- The rendering (lines 152-181), `frontend/src/components/TaskBlock.jsx` (presentation only) and
  `frontend/src/App.jsx` (a placeholder component tree): no logic that touches the list.
