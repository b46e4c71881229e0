/**
  The random decision process: a number is drawn, compared against a threshold, and one
  of two handlers records the outcome and the number in the kernel's shared data, from
  which `StartAsync` assembles its result. The draw is a parameter.
 */
module DecisionProcess {
  import opened Wrappers
  import opened ProcessEngine

  datatype Step = DecisionInput | GenerateRandomNumberStep | MakeDecisionStep | HandleLowOutcomeStep | HandleHighOutcomeStep

  datatype Function = GenerateRandomNumber | MakeDecision | HandleLowOutcome | HandleHighOutcome

  datatype Event = StartProcess | OnResult(fn: Function) | HighOutcome | LowOutcome

  type Key = (Step, Event)

  datatype Payload = NoValue | Number(value: int)

  /** The draw is uniform over 1..20: `Next(1, 21)` excludes its upper bound. */
  predicate Drawable(v: int) {
    1 <= v <= 20
  }

  /** The subscriptions the process constructor declares. */
  const Edges: seq<Edge<Key, Function>> := [
    Edge((DecisionInput, StartProcess), GenerateRandomNumber),
    Edge((GenerateRandomNumberStep, OnResult(GenerateRandomNumber)), MakeDecision),
    Edge((MakeDecisionStep, HighOutcome), HandleHighOutcome),
    Edge((MakeDecisionStep, LowOutcome), HandleLowOutcome)
  ]

  /** The routing table those subscriptions build (`RoutesFromEdges`). */
  const Routes: map<Key, Function> := map[
    (DecisionInput, StartProcess) := GenerateRandomNumber,
    (GenerateRandomNumberStep, OnResult(GenerateRandomNumber)) := MakeDecision,
    (MakeDecisionStep, HighOutcome) := HandleHighOutcome,
    (MakeDecisionStep, LowOutcome) := HandleLowOutcome
  ]

  /**
    The table built from the subscription list is `Routes`: each subscribed pair goes to its
    target and nothing else is routed; in particular both decision events are routed.
   */
  lemma RoutesFromEdges()
    ensures UniqueKeys(Edges)
    ensures Table(Edges) == Routes
    ensures forall k :: 0 <= k < |Edges| ==> Edges[k].key in Routes && Routes[Edges[k].key] == Edges[k].target
  {
    TableRoutes(Edges);
    assert Edges[0].key == (DecisionInput, StartProcess);
    assert Edges[1].key == (GenerateRandomNumberStep, OnResult(GenerateRandomNumber));
    assert Edges[2].key == (MakeDecisionStep, HighOutcome);
    assert Edges[3].key == (MakeDecisionStep, LowOutcome);
    forall key | key in Table(Edges) ensures key in Routes {
      var k :| 0 <= k < |Edges| && Edges[k].key == key;
      assert k in {0, 1, 2, 3};
    }
  }

  const OutcomeKey := "DecisionOutcome"
  const ValueKey := "OriginalValue"

  /** The event `MakeDecisionAsync` emits for a value: the threshold is "above 10". */
  function Decide(v: int): (r: Emission<Key, Payload>)
    ensures r.key.0 == MakeDecisionStep && r.payload == Number(v)
    ensures r.key.1 == HighOutcome <==> v > 10
    ensures r.key.1 == LowOutcome <==> v <= 10
  {
    if v > 10 then Emission((MakeDecisionStep, HighOutcome), Number(v))
    else Emission((MakeDecisionStep, LowOutcome), Number(v))
  }

  /** What either handler writes: the outcome label and the original value. */
  function Record(data: KernelData, outcome: string, v: int): (r: KernelData)
    ensures r.Keys == data.Keys + {OutcomeKey, ValueKey}
    ensures r[OutcomeKey] == Str(outcome) && r[ValueKey] == Int(v)
    ensures forall key :: key in data && key != OutcomeKey && key != ValueKey ==> r[key] == data[key]
  {
    data[OutcomeKey := Str(outcome)][ValueKey := Int(v)]
  }

  function Returned(f: Function, p: Payload): Emission<Key, Payload> {
    var step := match f
      case GenerateRandomNumber => GenerateRandomNumberStep
      case MakeDecision => MakeDecisionStep
      case HandleLowOutcome => HandleLowOutcomeStep
      case HandleHighOutcome => HandleHighOutcomeStep;
    Emission((step, OnResult(f)), p)
  }

  /**
    Invoking a step function, with `drawn` the number the generator returns. Each function
    emits its named event (if any) and then its result event.
   */
  function Invoke(drawn: int, data: KernelData, f: Function, p: Payload): Reaction<KernelData, Key, Payload> {
    match f
    case GenerateRandomNumber => Reaction(data, [Returned(f, Number(drawn))])
    case MakeDecision =>
      if p.Number? then Reaction(data, [Decide(p.value), Returned(f, NoValue)]) else Reaction(data, [])
    case HandleHighOutcome =>
      if p.Number? then Reaction(Record(data, "High", p.value), [Returned(f, NoValue)]) else Reaction(data, [])
    case HandleLowOutcome =>
      if p.Number? then Reaction(Record(data, "Low", p.value), [Returned(f, NoValue)]) else Reaction(data, [])
  }

  function Handler(drawn: int): (KernelData, Function, Payload) -> Reaction<KernelData, Key, Payload> {
    (data, f, p) => Invoke(drawn, data, f, p)
  }

  /** The number of steps a run takes: draw, decide, handle. */
  const RunLength := 3

  /** The process after `StartProcess` has been sent in and the run has gone its course. */
  function Finish(drawn: int, data: KernelData): Run<KernelData, Function, Payload> {
    RunFor(Routes, Handler(drawn), Start(Routes, data, Emission((DecisionInput, StartProcess), NoValue)), RunLength)
  }

  datatype ProcessOutcome = ProcessOutcome(decisionOutcome: Option<string>, originalValue: int)

  /** `StartAsync`: runs the process, then reads the outcome and the value back, in that order. */
  function StartAsync(drawn: int, data: KernelData): (r: Result<ProcessOutcome, Fault>) {
    var after := Finish(drawn, data).state;
    match CastString(after, OutcomeKey)
    case Failure(e) => Failure(e)
    case Success(outcome) =>
      match CastInt(after, ValueKey)
      case Failure(e) => Failure(e)
      case Success(v) => Success(ProcessOutcome(outcome, v))
  }

  /** The label the handlers store for a value. */
  function Label(v: int): string {
    if v > 10 then "High" else "Low"
  }

  /** One step of a run whose queue holds a single message. */
  lemma StepTo(drawn: int, r: Run<KernelData, Function, Payload>, m: Message<Function, Payload>, out: seq<Message<Function, Payload>>)
    requires r.queue == [m]
    requires Route(Routes, Invoke(drawn, r.state, m.target, m.payload).emitted) == out
    ensures Deliver(Routes, Handler(drawn), r) == Run(Invoke(drawn, r.state, m.target, m.payload).state, out, r.log + [m.target])
  {
    assert r.queue[1..] == [];
  }

  /** `StartProcess` reaches the generator, which hands the drawn number to the decision step. */
  lemma DrawStep(drawn: int, data: KernelData)
    ensures Start(Routes, data, Emission((DecisionInput, StartProcess), NoValue)) == Run(data, [Message(GenerateRandomNumber, NoValue)], [])
    ensures Deliver(Routes, Handler(drawn), Run(data, [Message(GenerateRandomNumber, NoValue)], [])) ==
      Run(data, [Message(MakeDecision, Number(drawn))], [GenerateRandomNumber])
  {
    RouteOne(Routes, Emission((DecisionInput, StartProcess), NoValue));
    RouteOne(Routes, Returned(GenerateRandomNumber, Number(drawn)));
    StepTo(drawn, Run(data, [Message(GenerateRandomNumber, NoValue)], []), Message(GenerateRandomNumber, NoValue),
           [Message(MakeDecision, Number(drawn))]);
  }

  /** The handler the threshold picks for a value. */
  function HandlerFor(v: int): Function {
    if v > 10 then HandleHighOutcome else HandleLowOutcome
  }

  /** The decision step's outcome event reaches the chosen handler; its result event goes nowhere. */
  lemma DecideStep(drawn: int, data: KernelData, log: seq<Function>)
    ensures Deliver(Routes, Handler(drawn), Run(data, [Message(MakeDecision, Number(drawn))], log)) ==
      Run(data, [Message(HandlerFor(drawn), Number(drawn))], log + [MakeDecision])
  {
    RouteTwo(Routes, Decide(drawn), Returned(MakeDecision, NoValue));
    RouteOne(Routes, Decide(drawn));
    RouteOne(Routes, Returned(MakeDecision, NoValue));
    StepTo(drawn, Run(data, [Message(MakeDecision, Number(drawn))], log), Message(MakeDecision, Number(drawn)),
           [Message(HandlerFor(drawn), Number(drawn))]);
  }

  /** The handler records the outcome and emits only a result event, which nothing subscribes to. */
  lemma HandleStep(drawn: int, data: KernelData, log: seq<Function>)
    ensures Deliver(Routes, Handler(drawn), Run(data, [Message(HandlerFor(drawn), Number(drawn))], log)) ==
      Run(Record(data, Label(drawn), drawn), [], log + [HandlerFor(drawn)])
  {
    RouteOne(Routes, Returned(HandlerFor(drawn), NoValue));
    StepTo(drawn, Run(data, [Message(HandlerFor(drawn), Number(drawn))], log), Message(HandlerFor(drawn), Number(drawn)), []);
  }

  /**
    A run draws, decides and runs exactly the handler the threshold picks; the handler
    records the label and the drawn value on top of whatever the dictionary held, and then
    nothing is left to run.
   */
  lemma DecisionRun(drawn: int, data: KernelData)
    ensures Finish(drawn, data) ==
      Run(Record(data, Label(drawn), drawn), [], [GenerateRandomNumber, MakeDecision, HandlerFor(drawn)])
  {
    var h := Handler(drawn);
    var r0 := Start(Routes, data, Emission((DecisionInput, StartProcess), NoValue));
    var r1 := Run(data, [Message(MakeDecision, Number(drawn))], [GenerateRandomNumber]);
    var r2 := Run(data, [Message(HandlerFor(drawn), Number(drawn))], [GenerateRandomNumber, MakeDecision]);
    DrawStep(drawn, data);
    assert RunFor(Routes, h, r0, 3) == RunFor(Routes, h, r1, 2);
    DecideStep(drawn, data, [GenerateRandomNumber]);
    assert RunFor(Routes, h, r1, 2) == RunFor(Routes, h, r2, 1);
    HandleStep(drawn, data, [GenerateRandomNumber, MakeDecision]);
  }

  /**
    End to end: whatever the dictionary held before, the outcome is "High" exactly when the
    drawn value is above 10 and "Low" otherwise, and the original value is the drawn value.
   */
  lemma StartAsyncOutcome(drawn: int, data: KernelData)
    ensures StartAsync(drawn, data) == Success(ProcessOutcome(Some(Label(drawn)), drawn))
    ensures StartAsync(drawn, data).value.decisionOutcome == Some("High") <==> drawn > 10
  {
    DecisionRun(drawn, data);
  }

  /**
    Both outcomes occur for values the generator can draw, and the threshold sits between
    10 and 11.
   */
  lemma OutcomeBoundary(data: KernelData)
    ensures Drawable(10) && StartAsync(10, data) == Success(ProcessOutcome(Some("Low"), 10))
    ensures Drawable(11) && StartAsync(11, data) == Success(ProcessOutcome(Some("High"), 11))
  {
    StartAsyncOutcome(10, data);
    StartAsyncOutcome(11, data);
  }
}
