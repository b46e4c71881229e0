/**
  The request-routing process: a classifier labels the prompt with a model name, the
  routing step forwards the prompt to the basic or the complex handler by exact name,
  and `ExecuteAsync` reads the answer back from the kernel's shared data. The classifier
  and the chat completion are parameters; the complex handler is an opaque function of
  the dictionary and the prompt.
 */
module RequestRouting {
  import opened Wrappers
  import opened ProcessEngine

  datatype Step = RequestInput | RoutePromptStep | HandleBasicPromptStep | HandleComplexPromptStep

  datatype Function = RoutePrompt | HandleBasicPrompt | HandleComplexPrompt

  datatype Event = StartProcess | OnResult(fn: Function) | ComplexPrompt | BasicPrompt

  type Key = (Step, Event)

  datatype Payload = NoValue | Prompt(text: string)

  /**
    The model's services: the classifier's name for a prompt, the basic model's first
    choice (whose content may be null), and the complex handler's effect on the dictionary.
   */
  datatype Services = Services(
    classify: string -> string,
    answer: string -> Option<string>,
    complex: (KernelData, string) -> KernelData)

  const ComplexLabel := "gpt-4o"
  const BasicLabel := "gpt-4o-mini"
  const ResponseKey := "ResponseContent"

  /** The subscriptions the process constructor declares. */
  const Edges: seq<Edge<Key, Function>> := [
    Edge((RequestInput, StartProcess), RoutePrompt),
    Edge((RoutePromptStep, BasicPrompt), HandleBasicPrompt),
    Edge((RoutePromptStep, ComplexPrompt), HandleComplexPrompt)
  ]

  /** The routing table those subscriptions build (`RoutesFromEdges`). */
  const Routes: map<Key, Function> := map[
    (RequestInput, StartProcess) := RoutePrompt,
    (RoutePromptStep, BasicPrompt) := HandleBasicPrompt,
    (RoutePromptStep, ComplexPrompt) := HandleComplexPrompt
  ]

  /** The table built from the subscription list is `Routes`. */
  lemma RoutesFromEdges()
    ensures UniqueKeys(Edges)
    ensures Table(Edges) == Routes
  {
    TableRoutes(Edges);
    assert Edges[0].key == (RequestInput, StartProcess);
    assert Edges[1].key == (RoutePromptStep, BasicPrompt);
    assert Edges[2].key == (RoutePromptStep, ComplexPrompt);
    forall key | key in Table(Edges) ensures key in Routes {
      var k :| 0 <= k < |Edges| && Edges[k].key == key;
      assert k in {0, 1, 2};
    }
  }

  /**
    What the routing step emits for a classifier name: the prompt, unchanged, as
    `HandleComplexPrompt` for exactly "gpt-4o", as `HandleBasicPrompt` for exactly
    "gpt-4o-mini", and nothing for any other name.
   */
  function RouteEvent(name: string, prompt: string): (r: seq<Emission<Key, Payload>>)
    ensures |r| <= 1
    ensures forall k :: 0 <= k < |r| ==> r[k].key.0 == RoutePromptStep && r[k].payload == Prompt(prompt)
    ensures (|r| == 1 && r[0].key.1 == ComplexPrompt) <==> name == ComplexLabel
    ensures (|r| == 1 && r[0].key.1 == BasicPrompt) <==> name == BasicLabel
    ensures r == [] <==> name != ComplexLabel && name != BasicLabel
  {
    if name == ComplexLabel then [Emission((RoutePromptStep, ComplexPrompt), Prompt(prompt))]
    else if name == BasicLabel then [Emission((RoutePromptStep, BasicPrompt), Prompt(prompt))]
    else []
  }

  /** Labels are compared exactly: a differently cased model name routes nowhere. */
  lemma LabelsAreCaseSensitive(prompt: string)
    ensures RouteEvent("GPT-4o", prompt) == []
    ensures RouteEvent("gpt-4o ", prompt) == []
  {
    assert "GPT-4o"[0] != ComplexLabel[0] && "GPT-4o"[0] != BasicLabel[0];
    assert |"gpt-4o "| != |ComplexLabel|;
    assert "gpt-4o "[6] != BasicLabel[6];
  }

  function StepOf(f: Function): Step {
    match f
    case RoutePrompt => RoutePromptStep
    case HandleBasicPrompt => HandleBasicPromptStep
    case HandleComplexPrompt => HandleComplexPromptStep
  }

  function Returned(f: Function): Emission<Key, Payload> {
    Emission((StepOf(f), OnResult(f)), NoValue)
  }

  /** The basic handler stores the first choice's content, which may be null. */
  function StoreAnswer(data: KernelData, answer: Option<string>): (r: KernelData)
    ensures r.Keys == data.Keys + {ResponseKey}
    ensures answer.Some? ==> r[ResponseKey] == Str(answer.value)
    ensures answer.None? ==> r[ResponseKey] == Null
    ensures forall key :: key in data && key != ResponseKey ==> r[key] == data[key]
  {
    data[ResponseKey := match answer case Some(s) => Str(s) case None => Null]
  }

  /** Invoking a step function; every function returns nothing, so its result event carries no value. */
  function Invoke(svc: Services, data: KernelData, f: Function, p: Payload): Reaction<KernelData, Key, Payload> {
    if !p.Prompt? then Reaction(data, [])
    else match f
      case RoutePrompt => Reaction(data, RouteEvent(svc.classify(p.text), p.text) + [Returned(f)])
      case HandleBasicPrompt => Reaction(StoreAnswer(data, svc.answer(p.text)), [Returned(f)])
      case HandleComplexPrompt => Reaction(svc.complex(data, p.text), [Returned(f)])
  }

  function Handler(svc: Services): (KernelData, Function, Payload) -> Reaction<KernelData, Key, Payload> {
    (data, f, p) => Invoke(svc, data, f, p)
  }

  /** Enough steps for the run to finish: route, then handle. */
  const RunLength := 2

  /** The dictionary once the process has run to completion on a prompt. */
  function Finish(svc: Services, data: KernelData, prompt: string): Run<KernelData, Function, Payload> {
    RunFor(Routes, Handler(svc), Start(Routes, data, Emission((RequestInput, StartProcess), Prompt(prompt))), RunLength)
  }

  /** `ExecuteAsync`: runs the process and reads the response back with an `as string` cast. */
  function ExecuteAsync(svc: Services, data: KernelData, prompt: string): Result<Option<string>, Fault> {
    AsString(Finish(svc, data, prompt).state, ResponseKey)
  }

  /** The handler a name selects, if any. */
  function Chosen(name: string): Option<Function> {
    if name == ComplexLabel then Some(HandleComplexPrompt)
    else if name == BasicLabel then Some(HandleBasicPrompt)
    else None
  }

  /** One step of a run whose queue holds a single message. */
  lemma StepTo(svc: Services, r: Run<KernelData, Function, Payload>, m: Message<Function, Payload>, out: seq<Message<Function, Payload>>)
    requires r.queue == [m]
    requires Route(Routes, Invoke(svc, r.state, m.target, m.payload).emitted) == out
    ensures Deliver(Routes, Handler(svc), r) == Run(Invoke(svc, r.state, m.target, m.payload).state, out, r.log + [m.target])
  {
    assert r.queue[1..] == [];
  }

  /** The routing step forwards the prompt to the chosen handler, or to nobody. */
  lemma RouteStep(svc: Services, data: KernelData, prompt: string)
    ensures Start(Routes, data, Emission((RequestInput, StartProcess), Prompt(prompt))) == Run(data, [Message(RoutePrompt, Prompt(prompt))], [])
    ensures var c := Chosen(svc.classify(prompt));
      Deliver(Routes, Handler(svc), Run(data, [Message(RoutePrompt, Prompt(prompt))], [])) ==
        Run(data, if c.Some? then [Message(c.value, Prompt(prompt))] else [], [RoutePrompt])
  {
    var name := svc.classify(prompt);
    RouteOne(Routes, Emission((RequestInput, StartProcess), Prompt(prompt)));
    RouteOne(Routes, Returned(RoutePrompt));
    var emitted := RouteEvent(name, prompt);
    if emitted == [] {
      assert emitted + [Returned(RoutePrompt)] == [Returned(RoutePrompt)];
    } else {
      RouteTwo(Routes, emitted[0], Returned(RoutePrompt));
      RouteOne(Routes, emitted[0]);
      assert emitted + [Returned(RoutePrompt)] == [emitted[0], Returned(RoutePrompt)];
    }
    var c := Chosen(name);
    StepTo(svc, Run(data, [Message(RoutePrompt, Prompt(prompt))], []), Message(RoutePrompt, Prompt(prompt)),
           if c.Some? then [Message(c.value, Prompt(prompt))] else []);
  }

  /** A handler changes the dictionary and emits only a result event, which nothing subscribes to. */
  lemma HandleStep(svc: Services, data: KernelData, f: Function, prompt: string)
    requires f != RoutePrompt
    ensures Deliver(Routes, Handler(svc), Run(data, [Message(f, Prompt(prompt))], [RoutePrompt])) ==
      Run(Invoke(svc, data, f, Prompt(prompt)).state, [], [RoutePrompt, f])
  {
    RouteOne(Routes, Returned(f));
    StepTo(svc, Run(data, [Message(f, Prompt(prompt))], [RoutePrompt]), Message(f, Prompt(prompt)), []);
  }

  /**
    A run routes once and then runs exactly the handler the name selects, or stops when
    the name is neither model name.
   */
  lemma RequestRun(svc: Services, data: KernelData, prompt: string)
    ensures var c := Chosen(svc.classify(prompt));
      Finish(svc, data, prompt) ==
        if c.Some? then Run(Invoke(svc, data, c.value, Prompt(prompt)).state, [], [RoutePrompt, c.value])
        else Run(data, [], [RoutePrompt])
  {
    RouteStep(svc, data, prompt);
    var c := Chosen(svc.classify(prompt));
    if c.Some? {
      HandleStep(svc, data, c.value, prompt);
    }
  }

  /** A basic name yields the basic model's answer, null content included. */
  lemma BasicAnswer(svc: Services, data: KernelData, prompt: string)
    requires svc.classify(prompt) == BasicLabel
    ensures ExecuteAsync(svc, data, prompt) == Success(svc.answer(prompt))
  {
    RequestRun(svc, data, prompt);
  }

  /** A complex name yields whatever the complex handler left under the response key. */
  lemma ComplexAnswer(svc: Services, data: KernelData, prompt: string)
    requires svc.classify(prompt) == ComplexLabel
    ensures ExecuteAsync(svc, data, prompt) == AsString(svc.complex(data, prompt), ResponseKey)
  {
    RequestRun(svc, data, prompt);
  }

  /**
    Any other name leaves the dictionary untouched, so the read sees only what was there
    before: on a kernel that never held a response it fails with a missing key.
   */
  lemma UnroutedLabel(svc: Services, data: KernelData, prompt: string)
    requires svc.classify(prompt) != BasicLabel && svc.classify(prompt) != ComplexLabel
    ensures Finish(svc, data, prompt).state == data
    ensures ExecuteAsync(svc, data, prompt) == AsString(data, ResponseKey)
    ensures ResponseKey !in data ==> ExecuteAsync(svc, data, prompt) == Failure(KeyNotFound(ResponseKey))
  {
    RequestRun(svc, data, prompt);
  }
}
