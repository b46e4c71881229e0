/**
  Extraction of prompt/completion test data from a trace log: a two-field state machine
  (the current prompt and whether pairing has started) folded over the trace events,
  collecting one pair per completion that follows a non-empty prompt.
 */
module TracePairs {
  import opened Wrappers

  const PromptMessage: string := "gen_ai.content.prompt"
  const CompletionMessage: string := "gen_ai.content.completion"

  /** One trace event: its message name and the two optional properties it may carry. */
  datatype TraceEvent = TraceEvent(message: string, prompt: Option<string>, completion: Option<string>)

  /** A collected pair; the completion is taken as it is, even when the event carries none. */
  datatype Pair = Pair(prompt: string, completion: Option<string>)

  datatype State = State(currentPrompt: Option<string>, parsing: bool, pairs: seq<Pair>)

  /** A fresh processor: no prompt, not pairing, no pairs. */
  const Initial: State := State(None, false, [])

  /** `!string.IsNullOrEmpty(prompt)`. */
  predicate Usable(prompt: Option<string>) {
    prompt.Some? && |prompt.value| > 0
  }

  predicate IsPrompt(e: TraceEvent) {
    e.message == PromptMessage
  }

  predicate IsCompletion(e: TraceEvent) {
    e.message == CompletionMessage
  }

  /** `ProcessEvent`. */
  function ProcessEvent(s: State, e: TraceEvent): (r: State)
    ensures s.parsing ==> r.parsing
    ensures !IsPrompt(e) ==> r.currentPrompt == s.currentPrompt
    ensures |s.pairs| <= |r.pairs| <= |s.pairs| + 1 && r.pairs[..|s.pairs|] == s.pairs
    ensures |r.pairs| == |s.pairs| + 1 <==> IsCompletion(e) && r.parsing && Usable(r.currentPrompt)
    ensures |r.pairs| == |s.pairs| + 1 ==> r.pairs[|s.pairs|] == Pair(r.currentPrompt.value, e.completion)
    ensures !IsPrompt(e) && !IsCompletion(e) ==> r == s
  {
    var s1 := if IsPrompt(e) then s.(currentPrompt := e.prompt, parsing := true) else s;
    if s1.parsing && IsCompletion(e) && Usable(s1.currentPrompt)
    then s1.(pairs := s1.pairs + [Pair(s1.currentPrompt.value, e.completion)])
    else s1
  }

  /** The processor after reading `events` in order. */
  function ProcessAll(s: State, events: seq<TraceEvent>): State
    decreases |events|
  {
    if |events| == 0 then s else ProcessEvent(ProcessAll(s, events[..|events| - 1]), events[|events| - 1])
  }

  /** A prompt event never yields a pair: the two message names differ. */
  lemma {:induction false} PromptEventAddsNoPair(s: State, e: TraceEvent)
    requires IsPrompt(e)
    ensures ProcessEvent(s, e).pairs == s.pairs
  {
    assert PromptMessage[15] != CompletionMessage[15];
  }

  // ===========================================================================
  // Reference definition
  // ===========================================================================

  /** The prompt of the last prompt event, if there is one. */
  function LatestPrompt(events: seq<TraceEvent>): Option<string> {
    if |events| == 0 then None
    else if IsPrompt(events[|events| - 1]) then events[|events| - 1].prompt
    else LatestPrompt(events[..|events| - 1])
  }

  predicate SeenPrompt(events: seq<TraceEvent>) {
    exists k :: 0 <= k < |events| && IsPrompt(events[k])
  }

  /** One pair per completion event whose latest preceding prompt is non-empty, in order. */
  function ExpectedPairs(events: seq<TraceEvent>): seq<Pair> {
    if |events| == 0 then []
    else
      var last := events[|events| - 1];
      var latest := LatestPrompt(events);
      ExpectedPairs(events[..|events| - 1])
        + (if IsCompletion(last) && Usable(latest) then [Pair(latest.value, last.completion)] else [])
  }

  /**
    From a fresh processor, the pairs are exactly the reference pairs, the current prompt
    is the latest prompt event's (null when it carried none), and pairing is on exactly
    when some prompt event was seen. The pairing flag therefore never changes the result:
    before any prompt event the current prompt is unset, so no pair could be made anyway.
   */
  lemma {:induction false} ProcessAllMatchesReference(events: seq<TraceEvent>)
    ensures ProcessAll(Initial, events).pairs == ExpectedPairs(events)
    ensures ProcessAll(Initial, events).currentPrompt == LatestPrompt(events)
    ensures ProcessAll(Initial, events).parsing <==> SeenPrompt(events)
    ensures !ProcessAll(Initial, events).parsing ==> ProcessAll(Initial, events).currentPrompt.None?
    decreases |events|
  {
    if |events| > 0 {
      var init := events[..|events| - 1];
      var last := events[|events| - 1];
      ProcessAllMatchesReference(init);
      if IsPrompt(last) {
        PromptEventAddsNoPair(ProcessAll(Initial, init), last);
        assert SeenPrompt(events);
      } else {
        assert SeenPrompt(events) <==> SeenPrompt(init) by {
          if SeenPrompt(events) {
            var k :| 0 <= k < |events| && IsPrompt(events[k]);
            assert init[k] == events[k];
          }
          if SeenPrompt(init) {
            var k :| 0 <= k < |init| && IsPrompt(init[k]);
            assert events[k] == init[k];
          }
        }
      }
    }
  }

  /** Reading more events never loses pairing, and never removes or rewrites a pair. */
  lemma {:induction false} ProcessAllGrows(s: State, events: seq<TraceEvent>)
    ensures s.parsing ==> ProcessAll(s, events).parsing
    ensures |s.pairs| <= |ProcessAll(s, events).pairs| <= |s.pairs| + |events|
    ensures ProcessAll(s, events).pairs[..|s.pairs|] == s.pairs
    decreases |events|
  {
    if |events| > 0 {
      var mid := ProcessAll(s, events[..|events| - 1]);
      ProcessAllGrows(s, events[..|events| - 1]);
      var r := ProcessAll(s, events);
      assert r.pairs[..|s.pairs|] == r.pairs[..|mid.pairs|][..|s.pairs|];
    }
  }

  /** A completion event as the trace log writes it. */
  function CompletionEvent(text: string): TraceEvent {
    TraceEvent(CompletionMessage, None, Some(text))
  }

  function CompletionEvents(texts: seq<string>): (r: seq<TraceEvent>)
    ensures |r| == |texts|
  {
    if |texts| == 0 then []
    else CompletionEvents(texts[..|texts| - 1]) + [CompletionEvent(texts[|texts| - 1])]
  }

  function PairsWith(prompt: string, texts: seq<string>): (r: seq<Pair>)
    ensures |r| == |texts|
  {
    if |texts| == 0 then []
    else PairsWith(prompt, texts[..|texts| - 1]) + [Pair(prompt, Some(texts[|texts| - 1]))]
  }

  /**
    The prompt is never cleared: after one non-empty prompt, every following completion
    yields a pair with that same prompt, and the processor keeps holding it.
   */
  lemma {:induction false} PromptReused(s: State, prompt: string, texts: seq<string>)
    requires |prompt| > 0
    ensures var r := ProcessAll(s, [TraceEvent(PromptMessage, Some(prompt), None)] + CompletionEvents(texts));
      r.pairs == s.pairs + PairsWith(prompt, texts) && r.currentPrompt == Some(prompt) && r.parsing
    decreases |texts|
  {
    var p := TraceEvent(PromptMessage, Some(prompt), None);
    if |texts| == 0 {
      var events := [p] + CompletionEvents(texts);
      assert events == [p];
      assert events[..0] == [];
      PromptEventAddsNoPair(s, p);
    } else {
      var init := texts[..|texts| - 1];
      PromptReused(s, prompt, init);
      PromptReusedStep(s, prompt, texts);
    }
  }

  lemma {:induction false} PromptReusedStep(s: State, prompt: string, texts: seq<string>)
    requires |texts| > 0
    requires var r := ProcessAll(s, [TraceEvent(PromptMessage, Some(prompt), None)] + CompletionEvents(texts[..|texts| - 1]));
      r.pairs == s.pairs + PairsWith(prompt, texts[..|texts| - 1]) && r.currentPrompt == Some(prompt) && r.parsing
    requires |prompt| > 0
    ensures var r := ProcessAll(s, [TraceEvent(PromptMessage, Some(prompt), None)] + CompletionEvents(texts));
      r.pairs == s.pairs + PairsWith(prompt, texts) && r.currentPrompt == Some(prompt) && r.parsing
  {
    var p := TraceEvent(PromptMessage, Some(prompt), None);
    var init := texts[..|texts| - 1];
    var events := [p] + CompletionEvents(texts);
    assert events[..|events| - 1] == [p] + CompletionEvents(init);
    var last := CompletionEvent(texts[|texts| - 1]);
    assert events[|events| - 1] == last;
    assert !IsPrompt(last) by {
      assert CompletionMessage[15] != PromptMessage[15];
    }
    var mid := ProcessAll(s, [p] + CompletionEvents(init));
    assert ProcessAll(s, events) == ProcessEvent(mid, last);
    assert ProcessEvent(mid, last).pairs == mid.pairs + [Pair(prompt, Some(texts[|texts| - 1]))];
  }
}
