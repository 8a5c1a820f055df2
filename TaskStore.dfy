/** The task list of the page and the two ways it changes: adding a task, and
    completing one, which first marks it completed and then appends the two
    follow-up tasks chosen for how the text-generation request ended. */
module TaskStore {
  import opened JsText
  import opened FollowUps

  datatype Status = Todo | Completed

  /** One task record of the list. */
  datatype Task = Task(id: int, text: string, description: string, status: Status)

  const TextPlaceholder: string := "A mysteriously vague task that will haunt you"
  const DescriptionPlaceholder: string :=
    "No description provided, which somehow makes it more ominous"

  const FirstText: string := "Start my useless project"
  const FirstDescription: string :=
    "Begin the endless cycle of productivity theater by creating something that solves no real problems"
  const SecondText: string := "Question my life choices"
  const SecondDescription: string :=
    "Spend at least 30 minutes contemplating whether this project reflects deeper existential issues"

  /** The two tasks the page starts with. */
  function InitialTasks(): (r: seq<Task>)
    ensures |r| == 2 && r[0].id != r[1].id
    ensures forall i :: 0 <= i < |r| ==> r[i].status == Todo
  {
    [ Task(1, FirstText, FirstDescription, Todo),
      Task(2, SecondText, SecondDescription, Todo) ]
  }

  // ---------------------------------------------------------------------------
  // Adding a task

  /** The record `handleAddTask` builds from what it is given and the clock:
      a to-do task whose text and description are never empty. */
  function NewTask(text: Option<string>, description: Option<string>, now: int): (t: Task)
    ensures t.id == now && t.status == Todo
    ensures t.text != "" && t.description != ""
  {
    Task(now, OrElse(text, TextPlaceholder), OrElse(description, DescriptionPlaceholder), Todo)
  }

  /** The placeholders stand in exactly for a missing or empty text or description. */
  lemma NewTaskDefaults(text: Option<string>, description: Option<string>, now: int)
    ensures Present(text) ==> NewTask(text, description, now).text == text.value
    ensures !Present(text) ==> NewTask(text, description, now).text == TextPlaceholder
    ensures Present(description) ==> NewTask(text, description, now).description == description.value
    ensures !Present(description) ==> NewTask(text, description, now).description == DescriptionPlaceholder
  {
  }

  // ---------------------------------------------------------------------------
  // Marking a task completed

  /** `tasks.map(task => task.id === id ? { ...task, status: 'completed' } : task)`. */
  function WithCompleted(tasks: seq<Task>, id: int): (r: seq<Task>)
    ensures |r| == |tasks|
  {
    if tasks == [] then []
    else
      [if tasks[0].id == id then tasks[0].(status := Completed) else tasks[0]]
      + WithCompleted(tasks[1..], id)
  }

  /** Marking keeps the order and every field of every task, except that each task
      carrying `id` (and only those) is now completed. */
  lemma {:induction false} WithCompletedSpec(tasks: seq<Task>, id: int)
    ensures |WithCompleted(tasks, id)| == |tasks|
    ensures forall i :: 0 <= i < |tasks| ==>
      var after := WithCompleted(tasks, id)[i];
      after.id == tasks[i].id && after.text == tasks[i].text &&
      after.description == tasks[i].description &&
      after.status == (if tasks[i].id == id then Completed else tasks[i].status)
  {
    if tasks != [] {
      WithCompletedSpec(tasks[1..], id);
      var r := WithCompleted(tasks, id);
      forall i | 1 <= i < |tasks|
        ensures r[i] == WithCompleted(tasks[1..], id)[i - 1] && tasks[i] == tasks[1..][i - 1]
      {
      }
    }
  }

  /** Marking an id no task carries changes nothing. */
  lemma WithCompletedNoMatch(tasks: seq<Task>, id: int)
    requires forall i :: 0 <= i < |tasks| ==> tasks[i].id != id
    ensures WithCompleted(tasks, id) == tasks
  {
    WithCompletedSpec(tasks, id);
    var r := WithCompleted(tasks, id);
    assert forall i :: 0 <= i < |tasks| ==> r[i] == tasks[i];
  }

  /** Marking the same id twice is the same as marking it once. */
  lemma WithCompletedIdempotent(tasks: seq<Task>, id: int)
    ensures WithCompleted(WithCompleted(tasks, id), id) == WithCompleted(tasks, id)
  {
    var once := WithCompleted(tasks, id);
    WithCompletedSpec(tasks, id);
    WithCompletedSpec(once, id);
    var twice := WithCompleted(once, id);
    assert forall i :: 0 <= i < |tasks| ==> twice[i] == once[i];
  }

  // ---------------------------------------------------------------------------
  // Appending new tasks

  /** `drafts.map((d, index) => ({ id: Date.now() + index, ...d, status: 'todo' }))`,
      where `readings[index]` is what the clock returned while element `index` was built. */
  function Stamp(drafts: seq<Draft>, readings: seq<int>): (r: seq<Task>)
    requires |readings| == |drafts|
    ensures |r| == |drafts|
  {
    seq(|drafts|, i requires 0 <= i < |drafts| =>
      Task(readings[i] + i, drafts[i].text, drafts[i].description, Todo))
  }

  /** The new records keep the drafts' order, texts and descriptions, are all to
      do, and get strictly increasing ids as long as the clock does not go back. */
  lemma StampSpec(drafts: seq<Draft>, readings: seq<int>)
    requires |readings| == |drafts|
    ensures |Stamp(drafts, readings)| == |drafts|
    ensures forall i :: 0 <= i < |drafts| ==>
      Stamp(drafts, readings)[i].text == drafts[i].text &&
      Stamp(drafts, readings)[i].description == drafts[i].description &&
      Stamp(drafts, readings)[i].status == Todo
    ensures forall i, j :: 0 <= i < j < |drafts| && readings[i] <= readings[j] ==>
      Stamp(drafts, readings)[i].id < Stamp(drafts, readings)[j].id
  {
  }

  // ---------------------------------------------------------------------------
  // What every change keeps

  /** `after` grows `before`: it keeps every earlier task in place with the same id,
      text and description, and a task can only go from to-do to completed. */
  ghost predicate Extends(before: seq<Task>, after: seq<Task>)
  {
    |before| <= |after| &&
    forall i :: 0 <= i < |before| ==>
      after[i].id == before[i].id && after[i].text == before[i].text &&
      after[i].description == before[i].description &&
      (before[i].status == Completed ==> after[i].status == Completed)
  }

  lemma ExtendsTransitive(a: seq<Task>, b: seq<Task>, c: seq<Task>)
    requires Extends(a, b) && Extends(b, c)
    ensures Extends(a, c)
  {
  }

  /** Once completed, a task record never changes again. */
  lemma CompletedIsFinal(before: seq<Task>, after: seq<Task>, i: int)
    requires Extends(before, after)
    requires 0 <= i < |before| && before[i].status == Completed
    ensures after[i] == before[i]
  {
  }

  // ---------------------------------------------------------------------------
  // A whole completion

  /** The list after completing the task `id` titled `taskText`: first every task with
      that id is marked completed, then the two drafts chosen for `outcome` are
      appended, built while the clock read `now0` and then `now1`. */
  function AfterCompletion(tasks: seq<Task>, id: int, taskText: string, outcome: Outcome,
                           now0: int, now1: int): (r: seq<Task>)
    ensures |r| == |tasks| + 2
  {
    WithCompleted(tasks, id) + Stamp(TasksFor(outcome, taskText), [now0, now1])
  }

  /** Whatever the outcome, a completion keeps the marked list as it is and adds
      exactly two to-do tasks at the end, with ids `now0` and `now1 + 1`, in the
      order the outcome's pair lists them. */
  lemma {:induction false} CompletionSpec(tasks: seq<Task>, id: int, taskText: string,
                                          outcome: Outcome, now0: int, now1: int)
    ensures var after := AfterCompletion(tasks, id, taskText, outcome, now0, now1);
      && |after| == |tasks| + 2
      && after[..|tasks|] == WithCompleted(tasks, id)
      && Extends(tasks, after)
      && after[|tasks|] ==
           Task(now0, TasksFor(outcome, taskText)[0].text, TasksFor(outcome, taskText)[0].description, Todo)
      && after[|tasks| + 1] ==
           Task(now1 + 1, TasksFor(outcome, taskText)[1].text, TasksFor(outcome, taskText)[1].description, Todo)
  {
    var after := AfterCompletion(tasks, id, taskText, outcome, now0, now1);
    var marked := WithCompleted(tasks, id);
    WithCompletedSpec(tasks, id);
    assert after[..|tasks|] == marked;
    assert forall i :: 0 <= i < |tasks| ==> after[i] == marked[i];
  }

  /** Completing a task that is in the list leaves it completed. */
  lemma CompletionMarksTask(tasks: seq<Task>, id: int, taskText: string, outcome: Outcome,
                            now0: int, now1: int, i: int)
    requires 0 <= i < |tasks| && tasks[i].id == id
    ensures AfterCompletion(tasks, id, taskText, outcome, now0, now1)[i] == tasks[i].(status := Completed)
  {
    WithCompletedSpec(tasks, id);
    CompletionSpec(tasks, id, taskText, outcome, now0, now1);
    assert AfterCompletion(tasks, id, taskText, outcome, now0, now1)[i] == WithCompleted(tasks, id)[i];
  }

  // ---------------------------------------------------------------------------
  // A session

  /** What the user asks of the page, with what the outside world answered. */
  datatype Intent =
    | Adding(text: Option<string>, description: Option<string>, now: int)
    | Completing(id: int, taskText: string, outcome: Outcome, now0: int, now1: int)

  /** The list after one intent: one task more for an add, two more for a completion. */
  function Apply(tasks: seq<Task>, intent: Intent): (r: seq<Task>)
    ensures |r| == |tasks| + (if intent.Adding? then 1 else 2)
  {
    match intent
    case Adding(text, description, now) => tasks + [NewTask(text, description, now)]
    case Completing(id, taskText, outcome, now0, now1) =>
      AfterCompletion(tasks, id, taskText, outcome, now0, now1)
  }

  /** The list after the intents, one after the other. */
  function Run(tasks: seq<Task>, intents: seq<Intent>): (r: seq<Task>)
    ensures |r| >= |tasks| + |intents|
    decreases |intents|
  {
    if intents == [] then tasks else Run(Apply(tasks, intents[0]), intents[1..])
  }

  /** How many tasks the intents add: one per added task, two per completion. */
  function Growth(intents: seq<Intent>): nat
  {
    if intents == [] then 0
    else (if intents[0].Adding? then 1 else 2) + Growth(intents[1..])
  }

  /** Over any session the list only grows, by one per added task and by exactly two
      per completion whatever the text-generation request did, and no task already
      there is removed, moved, edited or brought back from completed. */
  lemma {:induction false} RunSpec(tasks: seq<Task>, intents: seq<Intent>)
    ensures |Run(tasks, intents)| == |tasks| + Growth(intents)
    ensures Extends(tasks, Run(tasks, intents))
    decreases |intents|
  {
    if intents != [] {
      var next := Apply(tasks, intents[0]);
      match intents[0] {
        case Adding(text, description, now) =>
          assert Extends(tasks, next);
        case Completing(id, taskText, outcome, now0, now1) =>
          CompletionSpec(tasks, id, taskText, outcome, now0, now1);
      }
      RunSpec(next, intents[1..]);
      ExtendsTransitive(tasks, next, Run(next, intents[1..]));
    }
  }

  /** Ids are not unique: two tasks added while the clock reads the same value share one. */
  lemma SameInstantSameId(now: int)
    ensures var r := Run([], [Adding(None, None, now), Adding(None, None, now)]);
      |r| == 2 && r[0].id == r[1].id
  {
    var r1 := Apply([], Adding(None, None, now));
    assert Run(r1, [Adding(None, None, now)]) == Apply(r1, Adding(None, None, now));
  }

  // ---------------------------------------------------------------------------
  // The page's state

  /** The `tasks` state cell of the page, replaced by each `setTasks`. */
  class Store {
    var tasks: seq<Task>

    constructor()
      ensures tasks == InitialTasks()
    {
      tasks := InitialTasks();
    }

    /** `handleAddTask`: append one to-do task, substituting the placeholders. */
    method AddTask(text: Option<string>, description: Option<string>, now: int)
      modifies this
      ensures tasks == old(tasks) + [NewTask(text, description, now)]
      ensures tasks == Apply(old(tasks), Adding(text, description, now))
      ensures Extends(old(tasks), tasks)
    {
      var task := NewTask(text, description, now);
      tasks := tasks + [task];
    }

    /** The first `setTasks` of `handleCompleteTask`. */
    method MarkCompleted(id: int)
      modifies this
      ensures tasks == WithCompleted(old(tasks), id)
      ensures Extends(old(tasks), tasks)
    {
      tasks := WithCompleted(tasks, id);
      WithCompletedSpec(old(tasks), id);
    }

    /** The last `setTasks` of every path of `handleCompleteTask`. */
    method AppendTasks(drafts: seq<Draft>, readings: seq<int>)
      requires |readings| == |drafts|
      modifies this
      ensures tasks == old(tasks) + Stamp(drafts, readings)
      ensures Extends(old(tasks), tasks)
    {
      tasks := tasks + Stamp(drafts, readings);
    }

    /** `handleCompleteTask`: mark the task completed, send the prompt built from its
        text and description through `network`, and append the pair chosen for the
        outcome. `now0` and `now1` are the clock's readings for the two new records. */
    method Complete(id: int, text: string, description: Option<string>,
                    network: string -> Outcome, now0: int, now1: int)
      modifies this
      ensures tasks == AfterCompletion(old(tasks), id, text,
                                       network(Prompt(ContextString(text, description))), now0, now1)
      ensures tasks == Apply(old(tasks), Completing(id, text,
                                       network(Prompt(ContextString(text, description))), now0, now1))
      ensures |tasks| == |old(tasks)| + 2 && Extends(old(tasks), tasks)
      ensures tasks[|tasks| - 2].status == Todo && tasks[|tasks| - 1].status == Todo
    {
      MarkCompleted(id);
      var outcome := network(Prompt(ContextString(text, description)));
      var drafts := TasksFor(outcome, text);
      AppendTasks(drafts, [now0, now1]);
      CompletionSpec(old(tasks), id, text, outcome, now0, now1);
    }
  }
}
