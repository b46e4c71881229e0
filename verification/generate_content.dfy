/**
  The content-generation step of the article pipeline: a FIFO queue of pending section
  titles, drained one title per invocation. Both handlers end in the same branch: with a
  title pending they dequeue it and ask for research on it; with none left they mark the
  state completed and ask for the article to be finalized.
 */
module GenerateContent {
  import opened Wrappers

  datatype Status = Pending | GeneratingSections | Completed

  /** A written section: its title and its text. */
  datatype SectionContent = SectionContent(title: string, content: string)

  /**
    The step's persisted state. `topic` and `title` are reference-typed in the source and
    start unset, hence `Option`.
   */
  datatype GeneratedContentState = GeneratedContentState(
    generatedSections: seq<SectionContent>,
    pendingSections: seq<string>,
    topic: Option<string>,
    title: Option<string>,
    status: Status)

  /** The state every step of this type starts from. */
  const Initial := GeneratedContentState([], [], None, None, Pending)

  /** The outline the start handler receives. */
  datatype ArticleStructure = ArticleStructure(topic: string, title: string, sections: seq<string>)

  /** The two events the step emits, with their payloads. */
  datatype Emitted =
    | ResearchSection(topic: Option<string>, section: string)
    | FinalizeArticle(topic: Option<string>, title: Option<string>, sections: seq<SectionContent>)

  /** One handler call: the new state and the single event it emits. */
  datatype Handled = Handled(state: GeneratedContentState, event: Emitted)

  /**
    The branch both handlers end in. A pending title is dequeued and requested; an empty
    queue completes the step and hands over everything generated so far.
   */
  function Advance(s: GeneratedContentState): (r: Handled)
    ensures r.state.generatedSections == s.generatedSections
    ensures r.state.topic == s.topic && r.state.title == s.title
    ensures r.event.ResearchSection? <==> |s.pendingSections| > 0
    ensures r.event.ResearchSection? ==>
      r.event == ResearchSection(s.topic, s.pendingSections[0]) &&
      [r.event.section] + r.state.pendingSections == s.pendingSections &&
      r.state.status == GeneratingSections
    ensures r.event.FinalizeArticle? ==>
      r.event == FinalizeArticle(s.topic, s.title, s.generatedSections) &&
      r.state.pendingSections == [] && r.state.status == Completed
  {
    if |s.pendingSections| > 0 then
      Handled(s.(status := GeneratingSections, pendingSections := s.pendingSections[1..]),
              ResearchSection(s.topic, s.pendingSections[0]))
    else
      Handled(s.(status := Completed), FinalizeArticle(s.topic, s.title, s.generatedSections))
  }

  /** The start handler: the outline is loaded only while the step is still `Pending`. */
  function Start(s: GeneratedContentState, data: ArticleStructure): (r: Handled)
    ensures r.state.title == s.title
    ensures r.state.generatedSections == s.generatedSections
    ensures s.status == Pending ==> r.state.topic == Some(data.topic)
    ensures s.status == Pending && |data.sections| > 0 ==>
      r.event == ResearchSection(Some(data.topic), data.sections[0]) &&
      r.state.pendingSections == data.sections[1..]
    ensures s.status == Pending && |data.sections| == 0 ==>
      r.event == FinalizeArticle(Some(data.topic), s.title, s.generatedSections)
    ensures s.status != Pending ==> r.state.topic == s.topic
    ensures s.status != Pending && |s.pendingSections| > 0 ==>
      r.event == ResearchSection(s.topic, s.pendingSections[0]) &&
      r.state.pendingSections == s.pendingSections[1..]
    ensures s.status != Pending && |s.pendingSections| == 0 ==>
      r.event == FinalizeArticle(s.topic, s.title, s.generatedSections)
  {
    var loaded :=
      if s.status == Pending then s.(pendingSections := data.sections, topic := Some(data.topic))
      else s;
    Advance(loaded)
  }

  /** The continue handler: the received section is appended before the queue is consulted. */
  function Continue(s: GeneratedContentState, section: SectionContent): (r: Handled)
    ensures r.state.title == s.title && r.state.topic == s.topic
    ensures r.state.generatedSections == s.generatedSections + [section]
    ensures |s.pendingSections| > 0 ==>
      r.event == ResearchSection(s.topic, s.pendingSections[0]) &&
      r.state.pendingSections == s.pendingSections[1..] && r.state.status == GeneratingSections
    ensures |s.pendingSections| == 0 ==>
      r.event == FinalizeArticle(s.topic, s.title, s.generatedSections + [section]) &&
      r.state.status == Completed
  {
    Advance(s.(generatedSections := s.generatedSections + [section]))
  }

  /**
    The section loop on its own: the step is started on an outline, and every
    `ResearchSection(t, title)` it emits is answered by `Continue` with `write(title)`.
    The result lists the titles requested and the event the loop ends with.
   */
  function Drive(h: Handled, write: string -> SectionContent): (r: (seq<string>, Emitted))
    decreases |h.state.pendingSections| + (if h.event.ResearchSection? then 1 else 0)
  {
    if h.event.FinalizeArticle? then ([], h.event)
    else
      var next := Continue(h.state, write(h.event.section));
      var rest := Drive(next, write);
      ([h.event.section] + rest.0, rest.1)
  }

  /** Applies `write` to each title, keeping order. */
  function MapWrite(titles: seq<string>, write: string -> SectionContent): (r: seq<SectionContent>)
    ensures |r| == |titles|
    ensures forall k :: 0 <= k < |r| ==> r[k] == write(titles[k])
  {
    if |titles| == 0 then [] else [write(titles[0])] + MapWrite(titles[1..], write)
  }

  /**
    Driving the loop from a requested title `section` with `queue` still pending requests
    every title in queue order, each exactly once, and ends by finalizing with the sections
    written so far followed by the new ones in the same order; topic and title pass through.
   */
  lemma {:induction false} DriveFrom(s: GeneratedContentState, section: string, write: string -> SectionContent)
    ensures Drive(Handled(s, ResearchSection(s.topic, section)), write) ==
      ([section] + s.pendingSections,
       FinalizeArticle(s.topic, s.title, s.generatedSections + MapWrite([section] + s.pendingSections, write)))
    decreases |s.pendingSections|
  {
    var h := Handled(s, ResearchSection(s.topic, section));
    var next := Continue(s, write(section));
    var rest := Drive(next, write);
    assert Drive(h, write) == ([section] + rest.0, rest.1);
    var titles := [section] + s.pendingSections;
    if |s.pendingSections| == 0 {
      assert rest == ([], FinalizeArticle(s.topic, s.title, s.generatedSections + [write(section)]));
      assert MapWrite(titles, write) == [write(section)];
    } else {
      assert next == Handled(next.state, ResearchSection(next.state.topic, s.pendingSections[0]));
      DriveFrom(next.state, s.pendingSections[0], write);
      DriveStep(s, section, write, next.state.pendingSections, titles);
    }
  }

  /** The bookkeeping of one iteration of `DriveFrom`: titles and sections line up. */
  lemma DriveStep(s: GeneratedContentState, section: string, write: string -> SectionContent,
                  rest: seq<string>, titles: seq<string>)
    requires |s.pendingSections| > 0 && rest == s.pendingSections[1..]
    requires titles == [section] + s.pendingSections
    ensures [s.pendingSections[0]] + rest == s.pendingSections
    ensures s.generatedSections + [write(section)] + MapWrite([s.pendingSections[0]] + rest, write)
         == s.generatedSections + MapWrite(titles, write)
  {
    assert [s.pendingSections[0]] + rest == s.pendingSections;
    assert titles[1..] == s.pendingSections;
    assert MapWrite(titles, write) == [write(section)] + MapWrite(s.pendingSections, write);
  }

  /**
    From the initial state, an outline of N titles makes the loop request exactly those N
    titles in outline order and finalize with one section per title in that order. The
    finalize payload's title is the state's initial, unset title: no handler stores the
    outline's title.
   */
  lemma {:induction false} OutlineLoop(data: ArticleStructure, write: string -> SectionContent)
    ensures Drive(Start(Initial, data), write) ==
      (data.sections, FinalizeArticle(Some(data.topic), None, MapWrite(data.sections, write)))
  {
    var h := Start(Initial, data);
    if |data.sections| > 0 {
      assert h == Handled(h.state, ResearchSection(h.state.topic, data.sections[0]));
      DriveFrom(h.state, data.sections[0], write);
      assert h.state.pendingSections == data.sections[1..];
      assert [data.sections[0]] + data.sections[1..] == data.sections;
      assert h.state.generatedSections + MapWrite(data.sections, write) == MapWrite(data.sections, write);
    } else {
      assert Drive(h, write) == ([], FinalizeArticle(Some(data.topic), None, []));
    }
  }
}
