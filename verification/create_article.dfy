/**
  The article-writing process: six steps wired by a static routing table. The web search
  and the language-model prompts are uninterpreted functions (`Services`); the
  content-generation step is the queue machine of `GenerateContent`; the runtime is
  `ProcessEngine`.
 */
module CreateArticle {
  import opened Wrappers
  import opened ProcessEngine
  import GC = GenerateContent

  datatype Step =
    | ArticleProcess
    | ResearchTopicStep
    | CreateOutlineStep
    | GenerateContentStep
    | ResearchSectionStep
    | WriteSectionStep
    | FinalizeArticleStep

  /** The step functions; `FinalizeArticleFunction` is the finalize step's `FinalizeArticle`. */
  datatype Function =
    | ResearchContent
    | CreateOutline
    | StartGenerateContent
    | ContinueGenerateContent
    | ResearchSectionContent
    | GenerateSectionContent
    | FinalizeArticleFunction

  function StepOf(f: Function): Step {
    match f
    case ResearchContent => ResearchTopicStep
    case CreateOutline => CreateOutlineStep
    case StartGenerateContent => GenerateContentStep
    case ContinueGenerateContent => GenerateContentStep
    case ResearchSectionContent => ResearchSectionStep
    case GenerateSectionContent => WriteSectionStep
    case FinalizeArticleFunction => FinalizeArticleStep
  }

  /** Event ids: a function's result event, the process input event, and the two named events. */
  datatype Event = OnResult(fn: Function) | CreateArticle | ResearchSection | FinalizeArticle

  type Key = (Step, Event)

  /** The payloads that travel along the routes. */
  datatype Data =
    | TopicText(topic: string)
    | TopicResearch(topic: string, searchResults: string)
    | Outline(structure: GC.ArticleStructure)
    | SectionRequest(requestTopic: Option<string>, sectionTitle: string)
    | SectionResearch(section: string, researchQuery: string, searchResults: string)
    | Section(content: GC.SectionContent)
    | FinalizeInput(articleTopic: Option<string>, title: Option<string>, sections: seq<GC.SectionContent>)
    | NoValue

  /**
    The external calls: a web search, the outline prompt (title and section titles for a
    topic and its search results), the research-query prompt, and the section-writing
    prompt (section title, search results, topic, query).
   */
  datatype Services = Services(
    search: string -> string,
    outline: (string, string) -> (string, seq<string>),
    query: (Option<string>, string) -> string,
    write: (string, string, Option<string>, string) -> string)

  /**
    Step states. The generating step and the writing step are both stateful steps over a
    `GeneratedContentState`, each with its own instance. `finalized` records the inputs
    the finalize step received (its file output is not modelled).
   */
  datatype ArticleState = ArticleState(generator: GC.GeneratedContentState, writer: GC.GeneratedContentState, finalized: seq<Data>)

  const InitialState := ArticleState(GC.Initial, GC.Initial, [])

  /** The subscriptions the process constructor declares, in declaration order. */
  const Edges: seq<Edge<Key, Function>> := [
    Edge((ArticleProcess, CreateArticle), ResearchContent),
    Edge((ResearchTopicStep, OnResult(ResearchContent)), CreateOutline),
    Edge((CreateOutlineStep, OnResult(CreateOutline)), StartGenerateContent),
    Edge((GenerateContentStep, ResearchSection), ResearchSectionContent),
    Edge((GenerateContentStep, FinalizeArticle), FinalizeArticleFunction),
    Edge((ResearchSectionStep, OnResult(ResearchSectionContent)), GenerateSectionContent),
    Edge((WriteSectionStep, OnResult(GenerateSectionContent)), ContinueGenerateContent)
  ]

  /** The routing table those subscriptions build (`RoutesFromEdges`). */
  const Routes: map<Key, Function> := map[
    (ArticleProcess, CreateArticle) := ResearchContent,
    (ResearchTopicStep, OnResult(ResearchContent)) := CreateOutline,
    (CreateOutlineStep, OnResult(CreateOutline)) := StartGenerateContent,
    (GenerateContentStep, ResearchSection) := ResearchSectionContent,
    (GenerateContentStep, FinalizeArticle) := FinalizeArticleFunction,
    (ResearchSectionStep, OnResult(ResearchSectionContent)) := GenerateSectionContent,
    (WriteSectionStep, OnResult(GenerateSectionContent)) := ContinueGenerateContent
  ]

  /** Each (source step, event) pair is subscribed at most once. */
  lemma EdgesUnique()
    ensures UniqueKeys(Edges)
  {
  }

  /**
    The table built from the subscription list is `Routes`: each (source step, event) pair
    in the list goes to its target, and no other pair has a route.
   */
  lemma RoutesFromEdges()
    ensures Table(Edges) == Routes
    ensures forall k :: 0 <= k < |Edges| ==> Edges[k].key in Routes && Routes[Edges[k].key] == Edges[k].target
  {
    EdgesUnique();
    TableRoutes(Edges);
    assert Edges[0].key == (ArticleProcess, CreateArticle);
    assert Edges[1].key == (ResearchTopicStep, OnResult(ResearchContent));
    assert Edges[2].key == (CreateOutlineStep, OnResult(CreateOutline));
    assert Edges[3].key == (GenerateContentStep, ResearchSection);
    assert Edges[4].key == (GenerateContentStep, FinalizeArticle);
    assert Edges[5].key == (ResearchSectionStep, OnResult(ResearchSectionContent));
    assert Edges[6].key == (WriteSectionStep, OnResult(GenerateSectionContent));
    forall key | key in Table(Edges) ensures key in Routes {
      var k :| 0 <= k < |Edges| && Edges[k].key == key;
      assert k in {0, 1, 2, 3, 4, 5, 6};
    }
  }

  /**
    The events with no route: anything the finalize step emits, so a run ends there, and
    the generating step's own function results. No route leads back to the process input.
   */
  lemma UnroutedEvents()
    ensures forall e :: (FinalizeArticleStep, e) !in Table(Edges)
    ensures (GenerateContentStep, OnResult(StartGenerateContent)) !in Table(Edges)
    ensures (GenerateContentStep, OnResult(ContinueGenerateContent)) !in Table(Edges)
    ensures forall key :: key in Table(Edges) ==> StepOf(Table(Edges)[key]) != ArticleProcess
  {
    RoutesFromEdges();
  }

  /** The event a content-generation handler emits, as an emission of its step. */
  function Announce(e: GC.Emitted): (r: Emission<Key, Data>)
    ensures r.key.0 == GenerateContentStep
  {
    match e
    case ResearchSection(topic, section) => Emission((GenerateContentStep, ResearchSection), SectionRequest(topic, section))
    case FinalizeArticle(topic, title, sections) => Emission((GenerateContentStep, FinalizeArticle), FinalizeInput(topic, title, sections))
  }

  /** A function's result event. */
  function Returned(f: Function, d: Data): Emission<Key, Data> {
    Emission((StepOf(f), OnResult(f)), d)
  }

  /**
    Invoking step function `f` on payload `d`: what each step does, then its emissions (the
    named event first, the function's result event last). A payload of a shape the
    function does not take is not delivered and changes nothing.
   */
  function Invoke(svc: Services, st: ArticleState, f: Function, d: Data): Reaction<ArticleState, Key, Data> {
    match f
    case ResearchContent => Reaction(st, ResearchTopic(svc, d))
    case CreateOutline => Reaction(st, Outlining(svc, d))
    case StartGenerateContent =>
      if d.Outline? then Generated(st, GC.Start(st.generator, d.structure), f) else Reaction(st, [])
    case ContinueGenerateContent =>
      if d.Section? then Generated(st, GC.Continue(st.generator, d.content), f) else Reaction(st, [])
    case ResearchSectionContent => Reaction(st, SectionResearching(svc, d))
    case GenerateSectionContent => Reaction(st, SectionWriting(svc, st.writer, d))
    case FinalizeArticleFunction =>
      if d.FinalizeInput? then Reaction(st.(finalized := st.finalized + [d]), [Returned(f, NoValue)]) else Reaction(st, [])
  }

  /** The topic-research step: searches the web for the topic. */
  function ResearchTopic(svc: Services, d: Data): seq<Emission<Key, Data>> {
    if d.TopicText? then [Returned(ResearchContent, TopicResearch(d.topic, svc.search(d.topic)))] else []
  }

  /** The outline step: asks the outline prompt for a title and section titles. */
  function Outlining(svc: Services, d: Data): seq<Emission<Key, Data>> {
    if d.TopicResearch? then
      var outline := svc.outline(d.topic, d.searchResults);
      [Returned(CreateOutline, Outline(GC.ArticleStructure(d.topic, outline.0, outline.1)))]
    else []
  }

  /** A content-generation handler's outcome: the new step state, its event, then its (empty) result. */
  function Generated(st: ArticleState, h: GC.Handled, f: Function): Reaction<ArticleState, Key, Data> {
    Reaction(st.(generator := h.state), [Announce(h.event), Returned(f, NoValue)])
  }

  /** The section-research step: a research query for the section, and the search results for it. */
  function SectionResearching(svc: Services, d: Data): seq<Emission<Key, Data>> {
    if d.SectionRequest? then
      var query := svc.query(d.requestTopic, d.sectionTitle);
      [Returned(ResearchSectionContent, SectionResearch(d.sectionTitle, query, svc.search(query)))]
    else []
  }

  /** The section-writing step: writes the section, passing the topic held in its own state. */
  function SectionWriting(svc: Services, writer: GC.GeneratedContentState, d: Data): seq<Emission<Key, Data>> {
    if d.SectionResearch? then
      [Returned(GenerateSectionContent,
              Section(GC.SectionContent(d.section, svc.write(d.section, d.searchResults, writer.topic, d.researchQuery))))]
    else []
  }

  function Handler(svc: Services): (ArticleState, Function, Data) -> Reaction<ArticleState, Key, Data> {
    (st, f, d) => Invoke(svc, st, f, d)
  }

  /**
    Every step function emits at most one event that has a route, so the queue never holds
    more than one message and a run is a linear chain.
   */
  lemma AtMostOneRouted(svc: Services, st: ArticleState, f: Function, d: Data)
    ensures |Route(Routes, Invoke(svc, st, f, d).emitted)| <= 1
  {
    var em := Invoke(svc, st, f, d).emitted;
    if |em| == 2 {
      RouteTwo(Routes, em[0], em[1]);
      assert em[1].key == (GenerateContentStep, OnResult(f));
      RouteOne(Routes, em[1]);
    }
  }

  /** `StartAsync`: the topic enters as the `CreateArticle` input event. */
  function Begin(topic: string): (r: Run<ArticleState, Function, Data>)
    ensures r.queue == [Message(ResearchContent, TopicText(topic))]
  {
    RouteOne(Routes, Emission((ArticleProcess, CreateArticle), TopicText(topic)));
    Start(Routes, InitialState, Emission((ArticleProcess, CreateArticle), TopicText(topic)))
  }

  /** The run `Begin` produces, written out. */
  function Kickoff(topic: string): Run<ArticleState, Function, Data> {
    Run(InitialState, [Message(ResearchContent, TopicText(topic))], [])
  }

  /** Starting the process queues exactly one message: the topic, for the topic-research step. */
  lemma BeginKickoff(topic: string)
    ensures Begin(topic) == Kickoff(topic)
  {
  }

  /** The section a title ends up with: research query, search, then the writing prompt. */
  function WriteOf(svc: Services, topic: Option<string>, writerTopic: Option<string>): string -> GC.SectionContent {
    title =>
      var query := svc.query(topic, title);
      GC.SectionContent(title, svc.write(title, svc.search(query), writerTopic, query))
  }

  /** `n` rounds of the per-section loop, as the functions it runs. */
  function Rounds(n: nat): (r: seq<Function>)
    ensures |r| == 3 * n
  {
    if n == 0 then [] else [ResearchSectionContent, GenerateSectionContent, ContinueGenerateContent] + Rounds(n - 1)
  }

  /** How often `f` occurs in `fs`. */
  function Count(fs: seq<Function>, f: Function): nat {
    if |fs| == 0 then 0 else (if fs[0] == f then 1 else 0) + Count(fs[1..], f)
  }

  lemma {:induction false} CountAppend(a: seq<Function>, b: seq<Function>, f: Function)
    ensures Count(a + b, f) == Count(a, f) + Count(b, f)
  {
    if |a| > 0 {
      assert (a + b)[0] == a[0];
      assert (a + b)[1..] == a[1..] + b;
      CountAppend(a[1..], b, f);
    } else {
      assert a + b == b;
    }
  }

  /** In `n` rounds each of the three loop functions runs exactly `n` times and no other function runs. */
  lemma {:induction false} RoundsCount(n: nat, f: Function)
    ensures Count(Rounds(n), f) ==
      if f in {ResearchSectionContent, GenerateSectionContent, ContinueGenerateContent} then n else 0
  {
    if n > 0 {
      var round := [ResearchSectionContent, GenerateSectionContent, ContinueGenerateContent];
      CountAppend(round, Rounds(n - 1), f);
      assert round[1..][1..][1..] == [];
      RoundsCount(n - 1, f);
    }
  }

  /** The process run for `fuel` steps with the given services. */
  function RunArticle(svc: Services, r: Run<ArticleState, Function, Data>, fuel: nat): Run<ArticleState, Function, Data> {
    RunFor(Routes, Handler(svc), r, fuel)
  }

  /** One step from a queue holding only `m`, whose function's emissions route to `out`. */
  lemma StepTo(svc: Services, r: Run<ArticleState, Function, Data>, m: Message<Function, Data>, out: seq<Message<Function, Data>>)
    requires r.queue == [m]
    requires Route(Routes, Invoke(svc, r.state, m.target, m.payload).emitted) == out
    ensures Deliver(Routes, Handler(svc), r) == Run(Invoke(svc, r.state, m.target, m.payload).state, out, r.log + [m.target])
  {
    assert r.queue[1..] == [];
  }

  /** A single result event from a step other than the generating step is delivered along its route. */
  lemma ResultRoutes(f: Function, d: Data)
    requires f in {ResearchContent, CreateOutline, ResearchSectionContent, GenerateSectionContent}
    ensures (StepOf(f), OnResult(f)) in Routes
    ensures Route(Routes, [Returned(f, d)]) == [Message(Routes[(StepOf(f), OnResult(f))], d)]
    ensures Routes[(StepOf(f), OnResult(f))] ==
      match f
      case ResearchContent => CreateOutline
      case CreateOutline => StartGenerateContent
      case ResearchSectionContent => GenerateSectionContent
      case _ => ContinueGenerateContent
  {
    RouteOne(Routes, Returned(f, d));
  }

  /** The generating step's emissions deliver exactly its named event. */
  lemma AnnounceRoutes(e: GC.Emitted, f: Function)
    requires f in {StartGenerateContent, ContinueGenerateContent}
    ensures Route(Routes, [Announce(e), Returned(f, NoValue)]) == [Message(Target(e), Announce(e).payload)]
  {
    RouteTwo(Routes, Announce(e), Returned(f, NoValue));
    RouteOne(Routes, Announce(e));
    RouteOne(Routes, Returned(f, NoValue));
  }

  /** Where the generating step's named event goes. */
  function Target(e: GC.Emitted): Function {
    if e.ResearchSection? then ResearchSectionContent else FinalizeArticleFunction
  }

  /** The three steps from the topic to the started generating step. */
  lemma {:induction false} Opening(svc: Services, topic: string)
    ensures var outline := svc.outline(topic, svc.search(topic));
      var h := GC.Start(GC.Initial, GC.ArticleStructure(topic, outline.0, outline.1));
      RunArticle(svc, Kickoff(topic), 3) ==
        Run(InitialState.(generator := h.state), [Message(Target(h.event), Announce(h.event).payload)],
            [ResearchContent, CreateOutline, StartGenerateContent])
  {
    var outline := svc.outline(topic, svc.search(topic));
    var structure := GC.ArticleStructure(topic, outline.0, outline.1);
    var h := GC.Start(GC.Initial, structure);
    var r0 := Kickoff(topic);
    var m1 := Message(CreateOutline, TopicResearch(topic, svc.search(topic)));
    ResultRoutes(ResearchContent, TopicResearch(topic, svc.search(topic)));
    StepTo(svc, r0, r0.queue[0], [m1]);
    var r1 := Deliver(Routes, Handler(svc), r0);
    var m2 := Message(StartGenerateContent, Outline(structure));
    ResultRoutes(CreateOutline, Outline(structure));
    StepTo(svc, r1, m1, [m2]);
    var r2 := Deliver(Routes, Handler(svc), r1);
    var m3 := Message(Target(h.event), Announce(h.event).payload);
    AnnounceRoutes(h.event, StartGenerateContent);
    StepTo(svc, r2, m2, [m3]);
  }

  /** The generating step's state once every pending title has come back written. */
  function Drained(g: GC.GeneratedContentState, done: seq<GC.SectionContent>): GC.GeneratedContentState {
    g.(generatedSections := done, pendingSections := [], status := GC.Completed)
  }

  /** The research step turns a section request into a query and its search results. */
  lemma ResearchStep(svc: Services, r: Run<ArticleState, Function, Data>, topic: Option<string>, section: string)
    requires r.queue == [Message(ResearchSectionContent, SectionRequest(topic, section))]
    ensures var q := svc.query(topic, section);
      Deliver(Routes, Handler(svc), r) ==
        Run(r.state, [Message(GenerateSectionContent, SectionResearch(section, q, svc.search(q)))], r.log + [ResearchSectionContent])
  {
    var q := svc.query(topic, section);
    ResultRoutes(ResearchSectionContent, SectionResearch(section, q, svc.search(q)));
    StepTo(svc, r, r.queue[0], [Message(GenerateSectionContent, SectionResearch(section, q, svc.search(q)))]);
  }

  /** The writing step writes the section with the topic held in its own state. */
  lemma WriteStep(svc: Services, r: Run<ArticleState, Function, Data>, section: string, q: string, results: string)
    requires r.queue == [Message(GenerateSectionContent, SectionResearch(section, q, results))]
    ensures Deliver(Routes, Handler(svc), r) ==
      Run(r.state, [Message(ContinueGenerateContent, Section(GC.SectionContent(section, svc.write(section, results, r.state.writer.topic, q))))],
          r.log + [GenerateSectionContent])
  {
    var c := GC.SectionContent(section, svc.write(section, results, r.state.writer.topic, q));
    ResultRoutes(GenerateSectionContent, Section(c));
    StepTo(svc, r, r.queue[0], [Message(ContinueGenerateContent, Section(c))]);
  }

  /** The continue handler hands the section to the generating step, which emits its next event. */
  lemma ContinueStep(svc: Services, r: Run<ArticleState, Function, Data>, c: GC.SectionContent)
    requires r.queue == [Message(ContinueGenerateContent, Section(c))]
    ensures var h := GC.Continue(r.state.generator, c);
      Deliver(Routes, Handler(svc), r) ==
        Run(r.state.(generator := h.state), [Message(Target(h.event), Announce(h.event).payload)], r.log + [ContinueGenerateContent])
  {
    var h := GC.Continue(r.state.generator, c);
    AnnounceRoutes(h.event, ContinueGenerateContent);
    StepTo(svc, r, r.queue[0], [Message(Target(h.event), Announce(h.event).payload)]);
  }

  /** Three steps of the per-section loop: research, write, continue. */
  lemma {:induction false} SectionRound(svc: Services, r: Run<ArticleState, Function, Data>, section: string)
    requires r.queue == [Message(ResearchSectionContent, SectionRequest(r.state.generator.topic, section))]
    requires r.state.writer.topic == None
    ensures var g := r.state.generator;
      var h := GC.Continue(g, WriteOf(svc, g.topic, None)(section));
      RunArticle(svc, r, 3) == Run(r.state.(generator := h.state), [Message(Target(h.event), Announce(h.event).payload)],
                                   r.log + [ResearchSectionContent, GenerateSectionContent, ContinueGenerateContent])
  {
    var g := r.state.generator;
    var q := svc.query(g.topic, section);
    ResearchStep(svc, r, g.topic, section);
    var r1 := Deliver(Routes, Handler(svc), r);
    WriteStep(svc, r1, section, q, svc.search(q));
    var r2 := Deliver(Routes, Handler(svc), r1);
    ContinueStep(svc, r2, WriteOf(svc, g.topic, None)(section));
    assert RunArticle(svc, r1, 2) == RunArticle(svc, r2, 1);
  }

  /** The finalize step records its input and routes nothing, so the queue runs dry. */
  lemma FinalStep(svc: Services, r: Run<ArticleState, Function, Data>, d: Data)
    requires d.FinalizeInput? && r.queue == [Message(FinalizeArticleFunction, d)]
    ensures RunArticle(svc, r, 1) == Run(r.state.(finalized := r.state.finalized + [d]), [], r.log + [FinalizeArticleFunction])
  {
    RouteOne(Routes, Returned(FinalizeArticleFunction, NoValue));
    StepTo(svc, r, r.queue[0], []);
  }

  /**
    The per-section loop from a request for `section`: the remaining titles are researched
    and written in queue order, each once, and the run ends with one finalize call whose
    input lists the sections written before and the new ones in order.
   */
  lemma {:induction false} SectionLoop(svc: Services, r: Run<ArticleState, Function, Data>, section: string)
    requires r.queue == [Message(ResearchSectionContent, SectionRequest(r.state.generator.topic, section))]
    requires r.state.writer.topic == None
    ensures var g := r.state.generator;
      var n := |g.pendingSections| + 1;
      var done := g.generatedSections + GC.MapWrite([section] + g.pendingSections, WriteOf(svc, g.topic, None));
      RunArticle(svc, r, 3 * n + 1) ==
        Run(r.state.(generator := Drained(g, done), finalized := r.state.finalized + [FinalizeInput(g.topic, g.title, done)]),
            [], r.log + Rounds(n) + [FinalizeArticleFunction])
    decreases |r.state.generator.pendingSections|, 1
  {
    if |r.state.generator.pendingSections| == 0 {
      LoopEnds(svc, r, section);
    } else {
      LoopContinues(svc, r, section);
    }
  }

  /** `SectionLoop` for the last pending title. */
  lemma LoopEnds(svc: Services, r: Run<ArticleState, Function, Data>, section: string)
    requires r.queue == [Message(ResearchSectionContent, SectionRequest(r.state.generator.topic, section))]
    requires r.state.writer.topic == None
    requires |r.state.generator.pendingSections| == 0
    ensures var g := r.state.generator;
      var done := g.generatedSections + GC.MapWrite([section], WriteOf(svc, g.topic, None));
      RunArticle(svc, r, 4) ==
        Run(r.state.(generator := Drained(g, done), finalized := r.state.finalized + [FinalizeInput(g.topic, g.title, done)]),
            [], r.log + Rounds(1) + [FinalizeArticleFunction])
  {
    var g := r.state.generator;
    SectionRound(svc, r, section);
    var r3 := RunArticle(svc, r, 3);
    RunForSplit(Routes, Handler(svc), r, 3, 1, 4);
    LastRound(svc, r3, g, section);
    var write := WriteOf(svc, g.topic, None);
    assert GC.MapWrite([section], write) == [write(section)];
    assert GC.Continue(g, write(section)).state == Drained(g, g.generatedSections + [write(section)]);
    assert Rounds(1) == [ResearchSectionContent, GenerateSectionContent, ContinueGenerateContent];
  }

  /** `SectionLoop` with more titles pending: one round, then the loop from the next title. */
  lemma {:induction false} LoopContinues(svc: Services, r: Run<ArticleState, Function, Data>, section: string)
    requires r.queue == [Message(ResearchSectionContent, SectionRequest(r.state.generator.topic, section))]
    requires r.state.writer.topic == None
    requires |r.state.generator.pendingSections| > 0
    ensures var g := r.state.generator;
      var n := |g.pendingSections| + 1;
      var done := g.generatedSections + GC.MapWrite([section] + g.pendingSections, WriteOf(svc, g.topic, None));
      RunArticle(svc, r, 3 * n + 1) ==
        Run(r.state.(generator := Drained(g, done), finalized := r.state.finalized + [FinalizeInput(g.topic, g.title, done)]),
            [], r.log + Rounds(n) + [FinalizeArticleFunction])
    decreases |r.state.generator.pendingSections|, 0
  {
    var g := r.state.generator;
    var n := |g.pendingSections| + 1;
    var write := WriteOf(svc, g.topic, None);
    var h := GC.Continue(g, write(section));
    SectionRound(svc, r, section);
    var r3 := RunArticle(svc, r, 3);
    RunForSplit(Routes, Handler(svc), r, 3, 3 * (n - 1) + 1, 3 * n + 1);
    SectionLoop(svc, r3, g.pendingSections[0]);
    GC.DriveStep(g, section, write, h.state.pendingSections, [section] + g.pendingSections);
    LoopLog(r.log, n);
  }

  /** The last round: the queue is empty after the continue call, so the finalize step runs next. */
  lemma LastRound(svc: Services, r3: Run<ArticleState, Function, Data>, g: GC.GeneratedContentState, section: string)
    requires |g.pendingSections| == 0
    requires var h := GC.Continue(g, WriteOf(svc, g.topic, None)(section));
      r3.queue == [Message(Target(h.event), Announce(h.event).payload)]
    ensures var done := g.generatedSections + GC.MapWrite([section], WriteOf(svc, g.topic, None));
      RunArticle(svc, r3, 1) ==
        Run(r3.state.(finalized := r3.state.finalized + [FinalizeInput(g.topic, g.title, done)]), [], r3.log + [FinalizeArticleFunction])
  {
    var write := WriteOf(svc, g.topic, None);
    FinalStep(svc, r3, FinalizeInput(g.topic, g.title, g.generatedSections + [write(section)]));
    assert GC.MapWrite([section], write) == [write(section)];
  }

  lemma LoopLog(log: seq<Function>, n: nat)
    requires n > 0
    ensures log + [ResearchSectionContent, GenerateSectionContent, ContinueGenerateContent] + Rounds(n - 1) + [FinalizeArticleFunction]
         == log + Rounds(n) + [FinalizeArticleFunction]
  {
  }

  /** The sections the run writes for `titles`, with the article topic and the writer's unset topic. */
  function Written(svc: Services, topic: string, titles: seq<string>): seq<GC.SectionContent> {
    GC.MapWrite(titles, WriteOf(svc, Some(topic), None))
  }

  /** What a complete run leaves behind, for an outline with section titles `titles`. */
  function Outcome(svc: Services, topic: string, titles: seq<string>): ArticleState {
    var done := Written(svc, topic, titles);
    ArticleState(GC.GeneratedContentState(done, [], Some(topic), None, GC.Completed), GC.Initial,
                 [FinalizeInput(Some(topic), None, done)])
  }

  /** The functions a complete run invokes, in order. */
  function Trace(n: nat): seq<Function> {
    [ResearchContent, CreateOutline, StartGenerateContent] + Rounds(n) + [FinalizeArticleFunction]
  }

  /**
    End to end: started on a topic whose outline has N section titles, the process runs
    3N + 4 functions and then has nothing left to do. Topic research, outline and start
    run once; research, write and continue run once per title, in outline order; finalize
    runs once, with one written section per title in outline order. The finalize input's
    title is unset, since the outline's title is never stored, and every section is
    written with the writing step's own unset topic.
   */
  lemma ArticleRun(svc: Services, topic: string)
    ensures var titles := svc.outline(topic, svc.search(topic)).1;
      RunArticle(svc, Begin(topic), 3 * |titles| + 4) == Run(Outcome(svc, topic, titles), [], Trace(|titles|))
  {
    BeginKickoff(topic);
    if |svc.outline(topic, svc.search(topic)).1| == 0 {
      EmptyOutlineRun(svc, topic);
    } else {
      OutlineRun(svc, topic);
    }
  }

  lemma EmptyOutlineRun(svc: Services, topic: string)
    requires |svc.outline(topic, svc.search(topic)).1| == 0
    ensures RunArticle(svc, Kickoff(topic), 4) == Run(Outcome(svc, topic, []), [], Trace(0))
  {
    var r3 := RunArticle(svc, Kickoff(topic), 3);
    OpeningShape(svc, topic);
    RunForSplit(Routes, Handler(svc), Kickoff(topic), 3, 1, 4);
    ArticleRunEmpty(svc, topic, r3);
  }

  lemma OutlineRun(svc: Services, topic: string)
    requires |svc.outline(topic, svc.search(topic)).1| > 0
    ensures var titles := svc.outline(topic, svc.search(topic)).1;
      RunArticle(svc, Kickoff(topic), 3 * |titles| + 4) == Run(Outcome(svc, topic, titles), [], Trace(|titles|))
  {
    var titles := svc.outline(topic, svc.search(topic)).1;
    RunForSplit(Routes, Handler(svc), Kickoff(topic), 3, 3 * |titles| + 1, 3 * |titles| + 4);
    AfterOpening(svc, topic, titles);
  }

  lemma AfterOpening(svc: Services, topic: string, titles: seq<string>)
    requires titles == svc.outline(topic, svc.search(topic)).1 && |titles| > 0
    ensures RunArticle(svc, RunArticle(svc, Kickoff(topic), 3), 3 * |titles| + 1) == Run(Outcome(svc, topic, titles), [], Trace(|titles|))
  {
    OpeningShape(svc, topic);
    ArticleRunSections(svc, topic, titles, RunArticle(svc, Kickoff(topic), 3));
  }

  /** The run after the opening steps for an outline without sections. */
  predicate OpenedEmpty(r3: Run<ArticleState, Function, Data>, topic: string) {
    && r3.queue == [Message(FinalizeArticleFunction, FinalizeInput(Some(topic), None, []))]
    && r3.state == ArticleState(GC.GeneratedContentState([], [], Some(topic), None, GC.Completed), GC.Initial, [])
    && r3.log == [ResearchContent, CreateOutline, StartGenerateContent]
  }

  /** The run after the opening steps for an outline with sections `titles`. */
  predicate OpenedOnSections(r3: Run<ArticleState, Function, Data>, topic: string, titles: seq<string>) {
    && |titles| > 0
    && r3.queue == [Message(ResearchSectionContent, SectionRequest(Some(topic), titles[0]))]
    && r3.state == ArticleState(GC.GeneratedContentState([], titles[1..], Some(topic), None, GC.GeneratingSections), GC.Initial, [])
    && r3.log == [ResearchContent, CreateOutline, StartGenerateContent]
  }

  /** The run after the opening steps, in the two cases of the outline. */
  lemma OpeningShape(svc: Services, topic: string)
    ensures var titles := svc.outline(topic, svc.search(topic)).1;
      var r3 := RunArticle(svc, Kickoff(topic), 3);
      (|titles| == 0 ==> OpenedEmpty(r3, topic)) && (|titles| > 0 ==> OpenedOnSections(r3, topic, titles))
  {
    Opening(svc, topic);
  }

  /** An outline without sections: the start handler has already asked to finalize with no sections. */
  lemma ArticleRunEmpty(svc: Services, topic: string, r3: Run<ArticleState, Function, Data>)
    requires OpenedEmpty(r3, topic)
    ensures RunArticle(svc, r3, 1) == Run(Outcome(svc, topic, []), [], Trace(0))
  {
    FinalStep(svc, r3, FinalizeInput(Some(topic), None, []));
    assert Rounds(0) == [];
    assert Written(svc, topic, []) == [];
    assert r3.log + [FinalizeArticleFunction] == Trace(0);
    assert r3.state.(finalized := r3.state.finalized + [FinalizeInput(Some(topic), None, [])]) == Outcome(svc, topic, []);
  }

  /** An outline with sections: the start handler has requested the first; the loop does the rest. */
  lemma ArticleRunSections(svc: Services, topic: string, titles: seq<string>, r3: Run<ArticleState, Function, Data>)
    requires OpenedOnSections(r3, topic, titles)
    ensures RunArticle(svc, r3, 3 * |titles| + 1) == Run(Outcome(svc, topic, titles), [], Trace(|titles|))
  {
    SectionLoop(svc, r3, titles[0]);
    var g := r3.state.generator;
    assert [titles[0]] + g.pendingSections == titles;
    var done := Written(svc, topic, titles);
    assert g.generatedSections + done == done;
    assert r3.state.(generator := Drained(g, done), finalized := r3.state.finalized + [FinalizeInput(g.topic, g.title, done)])
        == Outcome(svc, topic, titles);
    assert r3.log + Rounds(|titles|) + [FinalizeArticleFunction] == Trace(|titles|);
  }

  /**
    In a complete run for N titles, research, write and continue each run exactly N times
    and every other function exactly once.
   */
  lemma {:induction false} TraceCounts(n: nat, f: Function)
    ensures Count(Trace(n), f) ==
      if f in {ResearchSectionContent, GenerateSectionContent, ContinueGenerateContent} then n else 1
  {
    var opening := [ResearchContent, CreateOutline, StartGenerateContent];
    CountAppend(opening + Rounds(n), [FinalizeArticleFunction], f);
    CountAppend(opening, Rounds(n), f);
    RoundsCount(n, f);
    assert opening[1..][1..][1..] == [];
    assert [FinalizeArticleFunction][1..] == [];
  }
}
