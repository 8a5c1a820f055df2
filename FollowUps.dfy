/** What a task completion turns into: the prompt sent to the text-generation
    service, the reading of its answer, and the pair of follow-up task
    descriptors chosen for each possible outcome. Everything here is pure. */
module FollowUps {
  import opened JsText

  // ---------------------------------------------------------------------------
  // The prompt

  /** The text the prompt is about: `text: description` when the description is
      truthy, the bare text otherwise. */
  function ContextString(text: string, description: Option<string>): (r: string)
    ensures |text| <= |r| && r[..|text|] == text
    ensures r == text <==> !Present(description)
    ensures Present(description) ==> r[|text|..] == ": " + description.value
  {
    if Present(description) then text + ": " + description.value else text
  }

  const PromptHead: string := "Generate 2 related tasks based on: \""
  const PromptTail: string := "\". Return only the task titles, one per line."

  /** The `inputs` field of the request body: the fixed head, the context, the fixed tail. */
  function Prompt(context: string): (r: string)
    ensures |r| == |PromptHead| + |context| + |PromptTail|
    ensures r[..|PromptHead|] == PromptHead && r[|r| - |PromptTail|..] == PromptTail
  {
    PromptHead + context + PromptTail
  }

  /** The context a prompt was built from, if it has the prompt's shape. */
  function PromptContext(prompt: string): (r: Option<string>)
    ensures r.Some? ==> |PromptHead| + |r.value| + |PromptTail| == |prompt|
    ensures r.Some? ==> prompt == PromptHead + r.value + PromptTail
  {
    if |prompt| >= |PromptHead| + |PromptTail|
       && prompt[..|PromptHead|] == PromptHead
       && prompt[|prompt| - |PromptTail|..] == PromptTail
    then Some(prompt[|PromptHead|..|prompt| - |PromptTail|])
    else None
  }

  /** The prompt carries its context intact: it can be read back, so two
      different contexts never produce the same request. */
  lemma PromptRoundTrip(context: string)
    ensures PromptContext(Prompt(context)) == Some(context)
  {
    var p := Prompt(context);
    assert p[..|PromptHead|] == PromptHead;
    assert p[|p| - |PromptTail|..] == PromptTail;
    assert p[|PromptHead|..|p| - |PromptTail|] == context;
  }

  /** A text that is not of the prompt's shape is no prompt at all. */
  lemma PromptContextNone(prompt: string)
    requires PromptContext(prompt).None?
    ensures forall c :: Prompt(c) != prompt
  {
    forall c ensures Prompt(c) != prompt {
      if Prompt(c) == prompt {
        PromptRoundTrip(c);
      }
    }
  }

  lemma PromptInjective(c1: string, c2: string)
    requires Prompt(c1) == Prompt(c2)
    ensures c1 == c2
  {
    PromptRoundTrip(c1);
    PromptRoundTrip(c2);
  }

  // ---------------------------------------------------------------------------
  // The answer of the service

  /** A `generated_text` property as far as the selection can tell it apart:
      absent, a string, or any other JSON value (with its truthiness). */
  datatype Field = Missing | Str(s: string) | NonString(truthy: bool)

  /** The decoded JSON body: `null`, or any other value, seen through its
      `generated_text` property and its element 0's `generated_text` property
      (`Missing` when there is no element 0 or it is null). */
  datatype Body = NullBody | Value(generated: Field, firstGenerated: Field)

  /** How the request ended. `Rejected`: `fetch` or `response.json()` threw;
      `NotOk`: a response with a non-2xx status; `Ok`: a 2xx response and its body. */
  datatype Outcome = Rejected | NotOk | Ok(body: Body)

  predicate Truthy(f: Field)
  {
    match f
    case Missing => false
    case Str(s) => s != ""
    case NonString(t) => t
  }

  /** `result.generated_text || result[0]?.generated_text || ''`, when it is a string.
      `None` when evaluating it and calling `.split` on it throws: the body is `null`,
      or the value the chain picks is not a string. */
  function SelectGenerated(body: Body): (r: Option<string>)
    ensures r.None? <==>
      body.NullBody? ||
      (Truthy(body.generated) && body.generated.NonString?) ||
      (!Truthy(body.generated) && Truthy(body.firstGenerated) && body.firstGenerated.NonString?)
    ensures body.Value? && body.generated.Str? && body.generated.s != "" ==> r == Some(body.generated.s)
    ensures body.Value? && !Truthy(body.generated) && body.firstGenerated.Str? ==> r == Some(body.firstGenerated.s)
    ensures r == Some("") <==> body.Value? && !Truthy(body.generated) && !Truthy(body.firstGenerated)
  {
    match body
    case NullBody => None
    case Value(g, a) =>
      var picked := if Truthy(g) then g else if Truthy(a) then a else Str("");
      if picked.Str? then Some(picked.s) else None
  }

  // ---------------------------------------------------------------------------
  // Parsing the generated text

  /** `lines.filter(text => text.trim())`: the lines holding a non-space character, in order. */
  function NonBlank(lines: seq<string>): (r: seq<string>)
    ensures |r| <= |lines|
    ensures forall i :: 0 <= i < |r| ==> Trim(r[i]) != ""
  {
    if lines == [] then []
    else if Trim(lines[0]) != "" then [lines[0]] + NonBlank(lines[1..])
    else NonBlank(lines[1..])
  }

  /** The filter keeps the order of the lines: it works line by line. */
  lemma {:induction false} NonBlankAppend(a: seq<string>, b: seq<string>)
    ensures NonBlank(a + b) == NonBlank(a) + NonBlank(b)
  {
    if a != [] {
      assert (a + b)[1..] == a[1..] + b;
      NonBlankAppend(a[1..], b);
    } else {
      assert a + b == b;
    }
  }

  /** A one-line list is kept exactly when its line is not blank. */
  lemma NonBlankSingle(x: string)
    ensures NonBlank([x]) == if Trim(x) == "" then [] else [x]
  {
    assert [x][1..] == [];
  }

  /** The filter keeps exactly the lines of the input that are not blank. */
  lemma {:induction false} NonBlankMembers(lines: seq<string>)
    ensures forall x :: x in NonBlank(lines) <==> x in lines && Trim(x) != ""
  {
    if lines != [] {
      NonBlankMembers(lines[1..]);
      assert lines == [lines[0]] + lines[1..];
    }
  }

  /** `s.slice(0, n)`: the first `n` elements, or all of `s` when it is shorter. */
  function Take<T>(s: seq<T>, n: nat): (r: seq<T>)
    ensures |r| == if |s| <= n then |s| else n
    ensures r == s[..|r|]
  {
    if |s| <= n then s else s[..n]
  }

  /** `lines.map(text => text.trim())`. */
  function TrimEach(lines: seq<string>): (r: seq<string>)
    ensures |r| == |lines|
    ensures forall i :: 0 <= i < |r| ==> r[i] == Trim(lines[i])
  {
    seq(|lines|, i requires 0 <= i < |lines| => Trim(lines[i]))
  }

  /** The task texts read from the generated text: at most two, none empty, and
      two exactly when the text has at least two lines that are not blank. */
  function ParseLines(generated: string): (r: seq<string>)
    ensures |r| <= 2
    ensures forall i :: 0 <= i < |r| ==> r[i] != ""
    ensures |r| == 2 <==> |NonBlank(Split(generated))| >= 2
  {
    TrimEach(Take(NonBlank(Split(generated)), 2))
  }

  /** Every task text read from the generated text is already trimmed. */
  lemma ParseLinesTrimmed(generated: string)
    ensures forall i :: 0 <= i < |ParseLines(generated)| ==>
      Trim(ParseLines(generated)[i]) == ParseLines(generated)[i]
  {
    var r := ParseLines(generated);
    var k := Take(NonBlank(Split(generated)), 2);
    forall i | 0 <= i < |r| ensures Trim(r[i]) == r[i] {
      assert r[i] == Trim(k[i]);
      TrimIdempotent(k[i]);
    }
  }

  /** A generated text with no line feed gives its trimmed self, or nothing when blank. */
  lemma ParseLinesSingle(a: string)
    requires '\n' !in a
    ensures ParseLines(a) == if Trim(a) == "" then [] else [Trim(a)]
  {
    SplitSingle(a);
    NonBlankSingle(a);
  }

  /** Trimming the first two of `[x] + k` trims `x` and the first of `k`. */
  lemma TrimEachTakeCons(x: string, k: seq<string>)
    ensures TrimEach(Take([x] + k, 2)) == Take([Trim(x)] + TrimEach(Take(k, 2)), 2)
  {
    var lhs := TrimEach(Take([x] + k, 2));
    var rhs := Take([Trim(x)] + TrimEach(Take(k, 2)), 2);
    assert |lhs| == |rhs|;
    forall i | 0 <= i < |lhs| ensures lhs[i] == rhs[i] {
      if i > 0 { assert lhs[i] == Trim(k[i - 1]); }
    }
  }

  /** Reading a generated text line by line: a blank first line is skipped, a
      non-blank one is trimmed and comes first; the rest of the text supplies the
      lines after it, and only two are kept. */
  lemma ParseLinesCons(a: string, b: string)
    requires '\n' !in a
    ensures ParseLines(a + "\n" + b) ==
      if Trim(a) == "" then ParseLines(b) else Take([Trim(a)] + ParseLines(b), 2)
  {
    var k := NonBlank(Split(b));
    var head := if Trim(a) == "" then [] else [a];
    assert NonBlank(Split(a + "\n" + b)) == head + k by {
      SplitAppend(a, b);
      SplitSingle(a);
      NonBlankAppend([a], Split(b));
      NonBlankSingle(a);
    }
    if Trim(a) != "" {
      TrimEachTakeCons(a, k);
    }
  }

  /** Lines after the first two usable ones are discarded: once two task texts
      have been read, whatever follows does not matter. */
  lemma {:induction false} ParseLinesIgnoresTail(a: string, b: string)
    requires |ParseLines(a)| == 2
    ensures ParseLines(a + "\n" + b) == ParseLines(a)
  {
    SplitAppend(a, b);
    NonBlankAppend(Split(a), Split(b));
    var k := NonBlank(Split(a));
    assert Take(k + NonBlank(Split(b)), 2) == Take(k, 2);
  }

  /** Three lines without surrounding white space: the first two are the task texts. */
  lemma ParseFirstTwoOfThree(a: string, b: string, c: string)
    requires '\n' !in a && '\n' !in b && '\n' !in c
    requires a != [] && !IsSpace(a[0]) && !IsSpace(a[|a| - 1])
    requires b != [] && !IsSpace(b[0]) && !IsSpace(b[|b| - 1])
    requires c != [] && !IsSpace(c[0]) && !IsSpace(c[|c| - 1])
    ensures ParseLines(a + "\n" + (b + "\n" + c)) == [a, b]
  {
    assert ParseLines(c) == [c] by {
      TrimUnchanged(c);
      ParseLinesSingle(c);
    }
    assert ParseLines(b + "\n" + c) == [b, c] by {
      TrimUnchanged(b);
      ParseLinesCons(b, c);
    }
    TrimUnchanged(a);
    ParseLinesCons(a, b + "\n" + c);
  }

  /** The example of a three-line answer: its first two lines are kept. */
  lemma ParseThreeLines()
    ensures ParseLines("Task A\nTask B\nTask C") == ["Task A", "Task B"]
  {
    var a, b, c := "Task A", "Task B", "Task C";
    assert "Task A\nTask B\nTask C" == a + "\n" + (b + "\n" + c);
    assert ParseLines(a + "\n" + (b + "\n" + c)) == [a, b] by {
      ParseFirstTwoOfThree(a, b, c);
    }
  }

  /** An empty generated text yields no task text. */
  lemma ParseEmpty()
    ensures ParseLines("") == []
  {
    ParseLinesSingle("");
  }

  // ---------------------------------------------------------------------------
  // The follow-up pairs

  /** A new task before it has an id and a status. */
  datatype Draft = Draft(text: string, description: string)

  // The fixed texts, named so that proofs about the pairs need not unfold them.
  const AiDescriptionPrefix: string := "AI-generated follow-up to: "
  const OverthinkPrefix: string := "Overthink the completion of \""
  const OverthinkDescription: string :=
    "Spend unnecessary time analyzing whether you did it correctly and what the implications are"
  const SubTasksText: string := "Create 3 sub-tasks for what you just finished"
  const SubTasksDescription: string :=
    "Break down the completed task into smaller, more manageable pieces of regret"
  const RegretPrefix: string := "Regret completing \""
  const RegretDescription: string := "Wonder if you could have done it better, faster, or not at all"
  const WonderPrefix: string := "Wonder why you thought finishing \""
  const WonderSuffix: string := "\" was a good idea"
  const WonderDescription: string :=
    "Question the fundamental assumptions that led to this moment of completion"
  const AnxietyPrefix: string := "Deal with the anxiety of completing \""
  const AnxietyDescription: string :=
    "Process the overwhelming dread that comes with actually finishing something"
  const WorthPrefix: string := "Question whether \""
  const WorthSuffix: string := "\" was worth doing at all"
  const WorthDescription: string :=
    "Engage in deep philosophical reflection about the meaning and value of your actions"

  function AiDescription(taskText: string): string
  {
    AiDescriptionPrefix + taskText
  }

  /** The pair used when the answer held fewer than two usable lines. */
  function OverthinkPair(taskText: string): (r: seq<Draft>)
    ensures |r| == 2 && OverthinkPrefix <= r[0].text && r[0].text[|OverthinkPrefix|..] == taskText + "\""
    ensures forall d :: d in r ==> d.text != "" && d.description != ""
  {
    [ Draft(OverthinkPrefix + taskText + "\"", OverthinkDescription),
      Draft(SubTasksText, SubTasksDescription) ]
  }

  /** The pair used when the service answered with a non-2xx status. */
  function RegretPair(taskText: string): (r: seq<Draft>)
    ensures |r| == 2 && RegretPrefix <= r[0].text && r[0].text[|RegretPrefix|..] == taskText + "\""
    ensures forall d :: d in r ==> d.text != "" && d.description != ""
  {
    [ Draft(RegretPrefix + taskText + "\"", RegretDescription),
      Draft(WonderPrefix + taskText + WonderSuffix, WonderDescription) ]
  }

  /** The pair used when anything in the request or the reading of its answer threw. */
  function AnxietyPair(taskText: string): (r: seq<Draft>)
    ensures |r| == 2 && AnxietyPrefix <= r[0].text && r[0].text[|AnxietyPrefix|..] == taskText + "\""
    ensures forall d :: d in r ==> d.text != "" && d.description != ""
  {
    [ Draft(AnxietyPrefix + taskText + "\"", AnxietyDescription),
      Draft(WorthPrefix + taskText + WorthSuffix, WorthDescription) ]
  }

  /** The drafts built from generated lines: the lines are the texts and every
      description points back at the completed task. */
  function AiPair(lines: seq<string>, taskText: string): (r: seq<Draft>)
    ensures |r| == |lines|
    ensures forall i :: 0 <= i < |r| ==> r[i].text == lines[i] && r[i].description == AiDescription(taskText)
  {
    seq(|lines|, i requires 0 <= i < |lines| => Draft(lines[i], AiDescription(taskText)))
  }

  /** The two task descriptors a completion of the task titled `taskText` adds,
      given how the request ended. Always exactly two, each with a non-empty text. */
  function TasksFor(outcome: Outcome, taskText: string): (r: seq<Draft>)
    ensures |r| == 2
    ensures forall i :: 0 <= i < |r| ==> r[i].text != ""
  {
    match outcome
    case Rejected => AnxietyPair(taskText)
    case NotOk => RegretPair(taskText)
    case Ok(body) =>
      match SelectGenerated(body)
      case None => AnxietyPair(taskText)
      case Some(generated) =>
        var lines := ParseLines(generated);
        if |lines| >= 2 then AiPair(lines, taskText) else OverthinkPair(taskText)
  }

  /** The happy path: a 2xx answer with at least two usable lines gives those two
      lines, in order, as task texts, each described as a follow-up of the completed
      task; otherwise a 2xx answer that could be read gives the "Overthink" pair. */
  lemma TasksForOk(body: Body, taskText: string, generated: string)
    requires SelectGenerated(body) == Some(generated)
    ensures |ParseLines(generated)| == 2 ==>
      TasksFor(Ok(body), taskText) ==
        [Draft(ParseLines(generated)[0], AiDescription(taskText)),
         Draft(ParseLines(generated)[1], AiDescription(taskText))]
    ensures |ParseLines(generated)| < 2 ==> TasksFor(Ok(body), taskText) == OverthinkPair(taskText)
  {
  }

  /** The error paths: a thrown request, an unreadable answer and a non-2xx status. */
  lemma TasksForFailures(body: Body, taskText: string)
    ensures TasksFor(Rejected, taskText) == AnxietyPair(taskText)
    ensures SelectGenerated(body).None? ==> TasksFor(Ok(body), taskText) == AnxietyPair(taskText)
    ensures TasksFor(NotOk, taskText) == RegretPair(taskText)
  {
  }

  /** An empty selected text always leads to the "Overthink" pair. */
  lemma EmptyTextOverthinks(body: Body, taskText: string)
    requires SelectGenerated(body) == Some("")
    ensures TasksFor(Ok(body), taskText) == OverthinkPair(taskText)
  {
    ParseEmpty();
  }

  /** The three-line example: an answer "Task A\nTask B\nTask C" for "Buy milk". */
  lemma HappyPathExample()
    ensures TasksFor(Ok(Value(Str("Task A\nTask B\nTask C"), Missing)), "Buy milk") ==
      [Draft("Task A", AiDescriptionPrefix + "Buy milk"),
       Draft("Task B", AiDescriptionPrefix + "Buy milk")]
  {
    var g := "Task A\nTask B\nTask C";
    var body := Value(Str(g), Missing);
    assert SelectGenerated(body) == Some(g);
    assert ParseLines(g) == ["Task A", "Task B"] by { ParseThreeLines(); }
    TasksForOk(body, "Buy milk", g);
  }

  /** The three fallback pairs differ, so the first new task's text tells which
      path the completion took. */
  lemma FallbacksDistinct(taskText: string)
    ensures OverthinkPair(taskText)[0].text != RegretPair(taskText)[0].text
    ensures OverthinkPair(taskText)[0].text != AnxietyPair(taskText)[0].text
    ensures RegretPair(taskText)[0].text != AnxietyPair(taskText)[0].text
  {
    assert OverthinkPair(taskText)[0].text[0] == 'O';
    assert RegretPair(taskText)[0].text[0] == 'R';
    assert AnxietyPair(taskText)[0].text[0] == 'D';
  }
}
