# effective-llm-applications: the sequential core, in Dafny

The samples of *Effective LLM Applications* are mostly thin wrappers around chat-completion,
embedding and web-search calls. This project models the parts that hold self-contained,
sequential logic. It proves what that logic does for every input.

- **Markdown unwrapping** (`unwrap.dfy`, module `Unwrap`). This is the `unwrap.py` script.
  - `remove_line_endings` splits text into `"\n\n"` paragraphs and joins each paragraph's lines with a space.
  - `process_content` cuts the text into fenced code blocks and prose. Code blocks are kept verbatim.
  - In prose, each run of ordinary lines becomes one line. List-item lines and blank lines are kept, and they end the run.
  - The line loop is proved equal to a reference: partition the lines into blocks and render each block.
- **TODO list** (`todo.dfy`, module `TodoItems`). The feature-file agent's `TodoItemsPlugin`:
  - create, complete, remove and list on a `seq<TodoItem>`;
  - titles compared ignoring case;
  - the clock and the date format given as parameters.
- **Documentation search helpers** (`file_system.dfy`, module `FileSystem`). The pure parts of `FileSystemPlugin`:
  - snippet extraction, the search report, the text-file filter, the byte-size unit, and the guards in front of a file read.
- **Trace pairing** (`trace_pairs.dfy`, module `TracePairs`). `TraceEventDataProcessor` folds trace events into prompt/completion pairs.
- **Process framework** (`process_engine.dfy`, module `ProcessEngine`). The shared machinery the three processes run on:
  - a routing table built from `(step, event) -> function` subscriptions;
  - a FIFO queue runner with a step budget;
  - the kernel's shared `Data` dictionary, with the three ways the samples read it back.
- **Article pipeline**:
  - `generate_content.dfy`, module `GenerateContent`: the section-queue state machine of `GenerateContentStep`;
  - `create_article.dfy`, module `CreateArticle`: the `CreateArticleProcess` wiring and the whole run.
  - The research, outline, query and writing calls are uninterpreted functions.
- **Decision process** (`decision.dfy`, module `DecisionProcess`). `RandomDecisionMakingProcess`: the threshold rule, the two outcome handlers and the result `StartAsync` assembles. The drawn number is a parameter.
- **Request routing** (`request_routing.dfy`, module `RequestRouting`). `AnswerQuestionProcess`: the classifier label picks a handler, then `ExecuteAsync` reads the answer back. The classifier and the chat model are parameters.
- `wrappers.dfy` (`Option`, `Result`) and `text.dfy` (ASCII text helpers) are shared.

The proofs expose several behaviours of the code as written:
- The `ReadFileAsync` guard is a case-insensitive string-prefix test. So `/docs-x/a` passes it for the folder `/docs`: `FileSystem.SiblingFolderIsRead`.
- `Replace("  ", " ")` is one pass, so four spaces become two: `FileSystem.ReplaceDoubleSpaceRun`.
- `TraceEventDataProcessor` never turns pairing off and never clears the prompt. Every completion after one prompt pairs with that prompt: `TracePairs.PromptReused`.
- No article step ever writes `Title`, so the finalize payload always carries an unset title: `CreateArticle.ArticleRun`.
- If each step owns its state, the `WriteSectionStep` state is never written either. Every section is then written with an unset topic: `CreateArticle.SectionLoop`.
- When the classifier answers neither model name, no handler runs. `ExecuteAsync` then reads a key nobody wrote: `RequestRouting.UnroutedLabel`.

## Model

| member | source | states |
|---|---|---|
| Text.SplitCharJoin | samples/chapter-11/csharp/Chapter11.FeatureFileAgent/Plugins/FileSystemPlugin.cs:233 | splitting the content on '\n' and joining the pieces with '\n' gives the content back |
| Text.NatToStringRoundTrip | samples/chapter-11/csharp/Chapter11.FeatureFileAgent/Plugins/FileSystemPlugin.cs:161 | the decimal text of a count reads back as the same number |
| Unwrap.SplitParagraphsRoundTrip | scripts/unwrap.py:13 | joining the pieces of `split("\n\n")` with "\n\n" gives the text back |
| Unwrap.SplitParagraphsJoin | scripts/unwrap.py:13-16 | splitting a "\n\n"-join of paragraphs that hold no line break gives those paragraphs back |
| Unwrap.FixParagraphHasNoNewline | scripts/unwrap.py:15 | a paragraph's lines joined by a space hold no line break |
| Unwrap.RemoveLineEndingsParagraphs | scripts/unwrap.py:11-16 | the paragraph count is preserved; output paragraph k is input paragraph k's lines joined by one space; the output has no line break exactly when the input is a single paragraph |
| Unwrap.FindFromFirst | scripts/unwrap.py:21 | the fence search finds the first "```" at or after its start, or reports that there is none (the lazy `*?`) |
| Unwrap.SplitFencesConcat | scripts/unwrap.py:21-23 | concatenating the segments gives the content back |
| Unwrap.SplitFencesPieces | scripts/unwrap.py:21-23 | the odd segments are fence blocks: they start and end with "```" and hold none inside; every even segment but the last holds no "```" |
| Unwrap.SplitFencesShape | scripts/unwrap.py:21-29 | both: the segments concatenate to the content and alternate prose and fence blocks |
| Unwrap.BlocksFlatten | scripts/unwrap.py:35-52 | flattening the reference blocks gives back the lines in order |
| Unwrap.BlocksWellFormed | scripts/unwrap.py:35-52 | each block is one break line or a non-empty run of ordinary lines |
| Unwrap.BlocksMaximal | scripts/unwrap.py:35-52 | a run of ordinary lines is always followed by a break, so runs are maximal |
| Unwrap.BlocksPartition | scripts/unwrap.py:35-52 | the reference blocks partition the lines in order; each block is one break line or a non-empty run of ordinary lines; a run is always followed by a break, so runs are maximal |
| Unwrap.BlocksAtBreak | scripts/unwrap.py:37-48 | a list-item or blank line flushes the buffered run first, then is emitted verbatim on its own |
| Unwrap.RenderRun | scripts/unwrap.py:49-52 | a run of ordinary lines becomes one line of its stripped lines joined by a space, and an empty run becomes nothing |
| Unwrap.ProcessLinesMatchesBlocks | scripts/unwrap.py:35-52 | from any buffered run, the line loop with its final flush emits exactly the rendering of the reference blocks |
| Unwrap.UnwrapLines | scripts/unwrap.py:32-52 | the loop over a segment's lines equals the rendering of the reference blocks, so every input line lands in exactly one output line, in order |
| Unwrap.ProcessContentSegments | scripts/unwrap.py:23-55 | a segment that starts with "```" is copied unchanged; every other segment becomes its rendered lines joined by "\n"; segments stay in order |
| Unwrap.ProcessContentWithoutFences | scripts/unwrap.py:19-55 | text without "```" is one prose segment: the output is its rendered lines joined by "\n" |
| TodoItems.FindItem | samples/chapter-11/csharp/Chapter11.FeatureFileAgent/Plugins/TodoItemsPlugin.cs:67 | the index of the first item whose title equals the given one ignoring case, and none exactly when no title matches |
| TodoItems.Create | samples/chapter-11/csharp/Chapter11.FeatureFileAgent/Plugins/TodoItemsPlugin.cs:30-52 | "already exists" exactly when a title matches ignoring case, with the list unchanged; otherwise exactly one pending item with that title and creation time is appended |
| TodoItems.Complete | samples/chapter-11/csharp/Chapter11.FeatureFileAgent/Plugins/TodoItemsPlugin.cs:61-85 | "not found" exactly when no title matches; an already completed item leaves the list unchanged; otherwise only the first match becomes completed with the completion time, and nothing else changes |
| TodoItems.Remove | samples/chapter-11/csharp/Chapter11.FeatureFileAgent/Plugins/TodoItemsPlugin.cs:94-111 | "not found" with the list unchanged, or exactly the first match deleted with the rest in order |
| TodoItems.CreateKeepsDistinct | samples/chapter-11/csharp/Chapter11.FeatureFileAgent/Plugins/TodoItemsPlugin.cs:37-47 | create keeps titles pairwise distinct ignoring case |
| TodoItems.CompleteKeepsDistinct | samples/chapter-11/csharp/Chapter11.FeatureFileAgent/Plugins/TodoItemsPlugin.cs:79-80 | complete keeps titles pairwise distinct ignoring case |
| TodoItems.RemoveKeepsDistinct | samples/chapter-11/csharp/Chapter11.FeatureFileAgent/Plugins/TodoItemsPlugin.cs:107 | remove keeps titles pairwise distinct ignoring case |
| TodoItems.CompletionIsOneWay | samples/chapter-11/csharp/Chapter11.FeatureFileAgent/Plugins/TodoItemsPlugin.cs:37-109 | no operation turns a completed item back to pending: every item with a completed item's title stays completed |
| TodoItems.CreateIdempotent | samples/chapter-11/csharp/Chapter11.FeatureFileAgent/Plugins/TodoItemsPlugin.cs:37-40 | creating the same title twice reports "already exists" the second time and changes nothing |
| TodoItems.CreateThenRemove | samples/chapter-11/csharp/Chapter11.FeatureFileAgent/Plugins/TodoItemsPlugin.cs:37-109 | removing a freshly created title restores the list |
| TodoItems.CompleteTwice | samples/chapter-11/csharp/Chapter11.FeatureFileAgent/Plugins/TodoItemsPlugin.cs:74-77 | completing a present title twice reports "already completed" the second time and changes nothing |
| TodoItems.FilterPartition | samples/chapter-11/csharp/Chapter11.FeatureFileAgent/Plugins/TodoItemsPlugin.cs:131-132 | the pending and completed groups together are a permutation of the items |
| TodoItems.FilterMembership | samples/chapter-11/csharp/Chapter11.FeatureFileAgent/Plugins/TodoItemsPlugin.cs:131-132 | an item is in a group exactly when it is in the list with that completion status |
| TodoItems.Section | samples/chapter-11/csharp/Chapter11.FeatureFileAgent/Plugins/TodoItemsPlugin.cs:134-150 | an empty group prints nothing, header included; otherwise its header and then its entries |
| TodoItems.ListShape | samples/chapter-11/csharp/Chapter11.FeatureFileAgent/Plugins/TodoItemsPlugin.cs:125-152 | "No TODO items found." exactly for the empty list; otherwise the header, then the pending group's section, then the completed group's section; an all-pending or all-completed list shows only that group |
| TodoItems.ListHeaderFirst | samples/chapter-11/csharp/Chapter11.FeatureFileAgent/Plugins/TodoItemsPlugin.cs:125-130 | a non-empty listing starts with "Current TODO items:" and so is never the empty message |
| TodoItems.ListOneState | samples/chapter-11/csharp/Chapter11.FeatureFileAgent/Plugins/TodoItemsPlugin.cs:131-150 | when every item has one status, the listing is the header, that status's header and all the entries in stored order |
| TodoItems.ListMixed | samples/chapter-11/csharp/Chapter11.FeatureFileAgent/Plugins/TodoItemsPlugin.cs:131-150 | pending items followed by completed items print as the pending header and entries, then the completed header and entries, each in stored order |
| TodoItems.ListPendingFirst | samples/chapter-11/csharp/Chapter11.FeatureFileAgent/Plugins/TodoItemsPlugin.cs:131-150 | a completed item stored before a pending one is printed after it: the pending section always comes first |
| TodoItems.FilterSingle | samples/chapter-11/csharp/Chapter11.FeatureFileAgent/Plugins/TodoItemsPlugin.cs:131-132 | a one-item list keeps its item exactly in the group of its status |
| TodoItems.FilterAppend | samples/chapter-11/csharp/Chapter11.FeatureFileAgent/Plugins/TodoItemsPlugin.cs:131-132 | filtering a concatenation is the concatenation of the filters, so each group keeps the stored order |
| TodoItems.FilterAll | samples/chapter-11/csharp/Chapter11.FeatureFileAgent/Plugins/TodoItemsPlugin.cs:131-132 | when every item has one status, that group is the whole list in order and the other is empty |
| FileSystem.ReplaceDoubleSpaceRun | samples/chapter-11/csharp/Chapter11.FeatureFileAgent/Plugins/FileSystemPlugin.cs:245 | a run of n spaces comes out as (n + 1) / 2 spaces, so runs are halved rather than collapsed |
| FileSystem.ReplaceDoubleSpaceNoPair | samples/chapter-11/csharp/Chapter11.FeatureFileAgent/Plugins/FileSystemPlugin.cs:245 | text without two adjacent spaces passes through unchanged |
| FileSystem.Truncate | samples/chapter-11/csharp/Chapter11.FeatureFileAgent/Plugins/FileSystemPlugin.cs:247-250 | the result is the prefix of exactly the cap's length when the text is longer, and the whole text otherwise |
| FileSystem.WindowEnd | samples/chapter-11/csharp/Chapter11.FeatureFileAgent/Plugins/FileSystemPlugin.cs:239-240 | the window's last line lies between the matching line and the last line |
| FileSystem.MatchesBefore | samples/chapter-11/csharp/Chapter11.FeatureFileAgent/Plugins/FileSystemPlugin.cs:235-237 | the indices of the matching lines before i, ascending, and every matching line before i is among them |
| FileSystem.ExtractSnippets | samples/chapter-11/csharp/Chapter11.FeatureFileAgent/Plugins/FileSystemPlugin.cs:230-262 | the loop with its early exit returns the snippets of the first five matching lines, in line order |
| FileSystem.ScanLine | samples/chapter-11/csharp/Chapter11.FeatureFileAgent/Plugins/FileSystemPlugin.cs:235-252 | one turn of the loop keeps the invariant: a matching line appends its snippet, any other line adds nothing |
| FileSystem.CollectMatch | samples/chapter-11/csharp/Chapter11.FeatureFileAgent/Plugins/FileSystemPlugin.cs:237-252 | a matching line appends its snippet to those of the earlier matches |
| FileSystem.CollectSkip | samples/chapter-11/csharp/Chapter11.FeatureFileAgent/Plugins/FileSystemPlugin.cs:235-237 | a line that does not match adds nothing |
| FileSystem.CollectedEarlyExit | samples/chapter-11/csharp/Chapter11.FeatureFileAgent/Plugins/FileSystemPlugin.cs:254-257 | breaking out at the fifth snippet yields the same result as taking the first five of all the matches |
| FileSystem.FirstMatches | samples/chapter-11/csharp/Chapter11.FeatureFileAgent/Plugins/FileSystemPlugin.cs:254-257 | once five matches are seen, they are the first five matches of the whole file |
| FileSystem.SnippetsAtAppend | samples/chapter-11/csharp/Chapter11.FeatureFileAgent/Plugins/FileSystemPlugin.cs:252 | adding one index appends that line's snippet after the others |
| FileSystem.SnippetShape | samples/chapter-11/csharp/Chapter11.FeatureFileAgent/Plugins/FileSystemPlugin.cs:233-250 | every snippet is at most 200 characters and holds no line break and no tab |
| FileSystem.SnippetsShape | samples/chapter-11/csharp/Chapter11.FeatureFileAgent/Plugins/FileSystemPlugin.cs:230-262 | at most five snippets, as many as the matching lines up to five, each at most 200 characters without line break or tab |
| FileSystem.TextExtensionsAccepted | samples/chapter-11/csharp/Chapter11.FeatureFileAgent/Plugins/FileSystemPlugin.cs:217-228 | every listed extension counts as a text file |
| FileSystem.CollectMatchesSound | samples/chapter-11/csharp/Chapter11.FeatureFileAgent/Plugins/FileSystemPlugin.cs:129-147 | every reported match comes from a text file whose content contains the pattern, with that file's snippets |
| FileSystem.CollectMatchesComplete | samples/chapter-11/csharp/Chapter11.FeatureFileAgent/Plugins/FileSystemPlugin.cs:129-147 | every text file whose content contains the pattern is reported |
| FileSystem.MakeReport | samples/chapter-11/csharp/Chapter11.FeatureFileAgent/Plugins/FileSystemPlugin.cs:161-176 | the total is the match count; the first ten files are shown when more than ten matched, and N = count - 10 are left for "... and N more files."; otherwise every file is shown and none is left over; each shown file keeps its path and at most its first three snippets |
| FileSystem.FileBlocksEnding | samples/chapter-11/csharp/Chapter11.FeatureFileAgent/Plugins/FileSystemPlugin.cs:163-171 | the listed files end with a blank line |
| FileSystem.FormatMatchesTrailer | samples/chapter-11/csharp/Chapter11.FeatureFileAgent/Plugins/FileSystemPlugin.cs:161-176 | the report ends with "... and N more files." exactly when more than ten files matched, and with a blank line otherwise |
| FileSystem.RenderWithMore | samples/chapter-11/csharp/Chapter11.FeatureFileAgent/Plugins/FileSystemPlugin.cs:173-176 | with files left over, the report ends with the trailer and not with a blank line |
| FileSystem.RenderWithoutMore | samples/chapter-11/csharp/Chapter11.FeatureFileAgent/Plugins/FileSystemPlugin.cs:163-171 | with every file listed, the report ends with a blank line and not with the trailer |
| FileSystem.FormatBytes | samples/chapter-11/csharp/Chapter11.FeatureFileAgent/Plugins/FileSystemPlugin.cs:264-277 | below 1024 the integer followed by " bytes"; otherwise the KB, MB or GB suffix of the largest unit the size reaches |
| FileSystem.ReadFile | samples/chapter-11/csharp/Chapter11.FeatureFileAgent/Plugins/FileSystemPlugin.cs:70-107 | a blank path is refused first; a resolved path without the folder as a case-insensitive prefix is denied; past both guards, "File not found" exactly when the file does not exist, "File is empty" exactly when it exists but is blank, and its content otherwise |
| FileSystem.GuardIsPrefixTest | samples/chapter-11/csharp/Chapter11.FeatureFileAgent/Plugins/FileSystemPlugin.cs:84-87 | any path that starts with the folder as written, or with its lower-cased form, passes the guard |
| FileSystem.GuardIgnoresCase | samples/chapter-11/csharp/Chapter11.FeatureFileAgent/Plugins/FileSystemPlugin.cs:84-87 | any path that starts with any letter-case variant of the folder, such as "/DOCS/x" for "/docs", passes the guard |
| FileSystem.SiblingFolderIsRead | samples/chapter-11/csharp/Chapter11.FeatureFileAgent/Plugins/FileSystemPlugin.cs:81-101 | a file in a sibling folder whose name extends the folder's name is read |
| TracePairs.ProcessEvent | samples/chapter-05/csharp/Chapter5.ExtractPromptTestData/TraceEventDataProcessor.cs:10-32 | pairing once on stays on; only prompt events change the prompt; the list grows by at most one, and it grows exactly for a completion event while pairing with a non-empty prompt, by that prompt paired with the completion; any other message changes nothing |
| TracePairs.PromptEventAddsNoPair | samples/chapter-05/csharp/Chapter5.ExtractPromptTestData/TraceEventDataProcessor.cs:12-16 | a prompt event never adds a pair |
| TracePairs.ProcessAllMatchesReference | samples/chapter-05/csharp/Chapter5.ExtractPromptTestData/TraceEventDataProcessor.cs:10-32 | from the initial state the pairs are: one per completion that has a non-empty latest prompt before it, paired with that prompt; the current prompt is the latest prompt; pairing is on exactly once a prompt event was seen |
| TracePairs.ProcessAllGrows | samples/chapter-05/csharp/Chapter5.ExtractPromptTestData/TraceEventDataProcessor.cs:8-32 | the pair list only grows, by at most one per event, keeping its earlier pairs; pairing never switches off |
| TracePairs.PromptReused | samples/chapter-05/csharp/Chapter5.ExtractPromptTestData/TraceEventDataProcessor.cs:12-30 | after one non-empty prompt, every following completion yields a pair with that same prompt |
| ProcessEngine.TableRoutes | samples/chapter-10/csharp/Chapter10.ComplexProcess/Processes/CreateArticleProcess.cs:21-47 | with unique subscription keys, every subscribed (step, event) pair has exactly its own target, and nothing else is routed |
| ProcessEngine.CastString | samples/chapter-10/csharp/Chapter10.DecisionMakingProcess/Processes/RandomDecisionMakingProcess.cs:34 | `(string)data[key]!`: a missing key fails with KeyNotFound, an integer value fails with InvalidCast, null passes as null and a string as itself |
| ProcessEngine.CastInt | samples/chapter-10/csharp/Chapter10.DecisionMakingProcess/Processes/RandomDecisionMakingProcess.cs:35 | `(int)data[key]!`: a missing key fails with KeyNotFound, null with NullReference, a string with InvalidCast; an integer is returned as stored |
| ProcessEngine.AsString | samples/chapter-10/csharp/Chapter10.IntelligentRequestRouting/Processes/AnswerQuestionProcess.cs:38 | `data[key] as string`: fails exactly when the key is missing, and yields the text exactly when a string is stored |
| GenerateContent.Advance | samples/chapter-10/csharp/Chapter10.ComplexProcess/Steps/GenerateContentStep.cs:24-39 | with titles pending, the head is dequeued and requested with the topic, status GeneratingSections; with none, status Completed and FinalizeArticle carries topic, title and sections; sections, topic and title are kept |
| GenerateContent.Start | samples/chapter-10/csharp/Chapter10.ComplexProcess/Steps/GenerateContentStep.cs:16-40 | the queue and the topic are loaded only in Pending; otherwise the existing queue is used; an empty outline finalizes at once; the title is never written |
| GenerateContent.Continue | samples/chapter-10/csharp/Chapter10.ComplexProcess/Steps/GenerateContentStep.cs:43-63 | the received section is appended before branching; the next title is requested, or the article is finalized with all sections |
| GenerateContent.DriveFrom | samples/chapter-10/csharp/Chapter10.ComplexProcess/Steps/GenerateContentStep.cs:43-62 | driving the handler from a section request asks for each pending title exactly once in queue order, and finalizes with the sections written in that order |
| GenerateContent.OutlineLoop | samples/chapter-10/csharp/Chapter10.ComplexProcess/Steps/GenerateContentStep.cs:16-63 | from the initial state the outline's titles are requested exactly once each, in outline order, and the article is finalized with the outline topic, an unset title and the sections in order |
| CreateArticle.RoutesFromEdges | samples/chapter-10/csharp/Chapter10.ComplexProcess/Processes/CreateArticleProcess.cs:21-47 | the subscriptions build the routing table, each (step, event) pair to its one target |
| CreateArticle.UnroutedEvents | samples/chapter-10/csharp/Chapter10.ComplexProcess/Processes/CreateArticleProcess.cs:21-47 | nothing the finalize step emits is routed, the generating step's result events are not routed, and nothing routes back to the process input |
| CreateArticle.AtMostOneRouted | samples/chapter-10/csharp/Chapter10.ComplexProcess/Processes/CreateArticleProcess.cs:14-47 | every step function emits at most one routed event, so a run is a chain |
| CreateArticle.Begin | samples/chapter-10/csharp/Chapter10.ComplexProcess/Processes/CreateArticleProcess.cs:53-56 | the CreateArticle input event queues the topic research |
| CreateArticle.Opening | samples/chapter-10/csharp/Chapter10.ComplexProcess/Processes/CreateArticleProcess.cs:21-31 | research, outline and the start handler run in that order, and the start handler's event is queued for its target |
| CreateArticle.ResearchStep | samples/chapter-10/csharp/Chapter10.ComplexProcess/Steps/ResearchSectionStep.cs:25-31 | a section request yields the query for the topic and title and its search results, routed to the writer |
| CreateArticle.WriteStep | samples/chapter-10/csharp/Chapter10.ComplexProcess/Steps/WriteSectionStep.cs:18-35 | the writer writes the section with the topic from its own state and routes it back to the continue handler |
| CreateArticle.ContinueStep | samples/chapter-10/csharp/Chapter10.ComplexProcess/Processes/CreateArticleProcess.cs:43-47 | the written section reaches the continue handler, whose event is queued for its target |
| CreateArticle.SectionRound | samples/chapter-10/csharp/Chapter10.ComplexProcess/Processes/CreateArticleProcess.cs:33-47 | one loop round is research, write, continue, with the section written under an unset topic |
| CreateArticle.FinalStep | samples/chapter-10/csharp/Chapter10.ComplexProcess/Steps/FinalizeArticleStep.cs:8-25 | the finalize step takes its input and the queue runs dry |
| CreateArticle.SectionLoop | samples/chapter-10/csharp/Chapter10.ComplexProcess/Processes/CreateArticleProcess.cs:33-47 | from a section request with n titles outstanding, 3n+1 steps write every title in order, finalize once, and leave the queue empty |
| CreateArticle.RoundsCount | samples/chapter-10/csharp/Chapter10.ComplexProcess/Processes/CreateArticleProcess.cs:33-47 | n loop rounds run research, write and continue n times each and nothing else |
| CreateArticle.OpeningShape | samples/chapter-10/csharp/Chapter10.ComplexProcess/Processes/CreateArticleProcess.cs:21-31 | after three steps an empty outline has queued the finalize step, and a non-empty one the first section request with the rest pending |
| CreateArticle.ArticleRun | samples/chapter-10/csharp/Chapter10.ComplexProcess/Processes/CreateArticleProcess.cs:10-56 | for an outline of N titles, 3N+4 steps finalize exactly once, with the sections in outline order, the topic, and an unset title; the queue is then empty and the step sequence is fixed |
| CreateArticle.TraceCounts | samples/chapter-10/csharp/Chapter10.ComplexProcess/Processes/CreateArticleProcess.cs:29-47 | in that run research, write and continue each run N times, and every other function exactly once |
| DecisionProcess.RoutesFromEdges | samples/chapter-10/csharp/Chapter10.DecisionMakingProcess/Processes/RandomDecisionMakingProcess.cs:21-25 | the subscriptions build the routing table; both outcome events are routed |
| DecisionProcess.Decide | samples/chapter-10/csharp/Chapter10.DecisionMakingProcess/Steps/MakeDecisionStep.cs:8-18 | exactly one event, carrying the value unchanged: HighOutcome exactly when the value is above 10, LowOutcome exactly when it is 10 or less |
| DecisionProcess.Record | samples/chapter-10/csharp/Chapter10.DecisionMakingProcess/Steps/HandleHighOutcomeStep.cs:8-12 | a handler stores the outcome label and the original value and leaves every other key alone |
| DecisionProcess.DrawStep | samples/chapter-10/csharp/Chapter10.DecisionMakingProcess/Processes/RandomDecisionMakingProcess.cs:21-22 | StartProcess reaches the generator, whose result goes to the decision step |
| DecisionProcess.DecideStep | samples/chapter-10/csharp/Chapter10.DecisionMakingProcess/Processes/RandomDecisionMakingProcess.cs:24-25 | the decision reaches the handler the threshold picks, and its own result event goes nowhere |
| DecisionProcess.HandleStep | samples/chapter-10/csharp/Chapter10.DecisionMakingProcess/Steps/HandleLowOutcomeStep.cs:8-12 | the chosen handler records the outcome and the run ends |
| DecisionProcess.DecisionRun | samples/chapter-10/csharp/Chapter10.DecisionMakingProcess/Processes/RandomDecisionMakingProcess.cs:21-32 | a run draws, decides and runs exactly the handler for the drawn value, then stops |
| DecisionProcess.StartAsyncOutcome | samples/chapter-10/csharp/Chapter10.DecisionMakingProcess/Processes/RandomDecisionMakingProcess.cs:30-38 | whatever the dictionary held, the outcome is "High" exactly when the drawn value is above 10, else "Low", and the original value is the drawn value |
| DecisionProcess.OutcomeBoundary | samples/chapter-10/csharp/Chapter10.DecisionMakingProcess/Steps/MakeDecisionStep.cs:10 | 10 gives Low and 11 gives High, and both can be drawn |
| RequestRouting.RoutesFromEdges | samples/chapter-10/csharp/Chapter10.IntelligentRequestRouting/Processes/AnswerQuestionProcess.cs:19-25 | the subscriptions build the routing table |
| RequestRouting.RouteEvent | samples/chapter-10/csharp/Chapter10.IntelligentRequestRouting/Steps/RoutePromptStep.cs:13-25 | at most one event, carrying the prompt unchanged: the complex event exactly for "gpt-4o", the basic event exactly for "gpt-4o-mini", and none for any other label |
| RequestRouting.LabelsAreCaseSensitive | samples/chapter-10/csharp/Chapter10.IntelligentRequestRouting/Steps/RoutePromptStep.cs:17-21 | labels differing in case or by trailing space route nowhere |
| RequestRouting.StoreAnswer | samples/chapter-10/csharp/Chapter10.IntelligentRequestRouting/Steps/HandleBasicPromptStep.cs:27 | the first choice's content, or null, is stored under ResponseContent and every other key is kept |
| RequestRouting.RouteStep | samples/chapter-10/csharp/Chapter10.IntelligentRequestRouting/Processes/AnswerQuestionProcess.cs:19-25 | StartProcess reaches the router, which forwards the prompt to the handler its label selects, or to nobody |
| RequestRouting.RequestRun | samples/chapter-10/csharp/Chapter10.IntelligentRequestRouting/Processes/AnswerQuestionProcess.cs:30-36 | a run routes once and then runs exactly the selected handler, or stops |
| RequestRouting.BasicAnswer | samples/chapter-10/csharp/Chapter10.IntelligentRequestRouting/Processes/AnswerQuestionProcess.cs:30-39 | for the basic label the result is the basic model's answer, null included |
| RequestRouting.ComplexAnswer | samples/chapter-10/csharp/Chapter10.IntelligentRequestRouting/Processes/AnswerQuestionProcess.cs:38 | for the complex label the result is whatever the complex handler left under ResponseContent |
| RequestRouting.UnroutedLabel | samples/chapter-10/csharp/Chapter10.IntelligentRequestRouting/Processes/AnswerQuestionProcess.cs:38 | for any other label the dictionary is untouched, so a kernel that never held a response fails the read with a missing key |

## Left out

- File and JSON I/O: loading and saving the TODO file, directory enumeration, reading file contents, the `FileInfo` sizes and the `output.md` write in `FinalizeArticleStep`. Contents are inputs, and the finalize step only records its input.
- The `lock` in `TodoItemsPlugin`: each operation is modelled as one atomic step.
- `DateTime.UtcNow` and the `yyyy-MM-dd HH:mm` format: the clock value is a parameter and the formatting an uninterpreted `Stamp`.
- `Path.Combine`, `Path.GetFullPath`, `Path.GetExtension` and `Path.GetRelativePath`: the resolved path, the extension and the relative path are inputs.
- `ListFilesAsync` and `GetFolderInfoAsync`: they only enumerate the directory and format what the file system reports.
- The `catch` blocks: no exception is modelled except the dictionary read faults of the process results.
- Text semantics are ASCII-only:
  - case folding maps only A-Z;
  - white space is space, tab, line feed, vertical tab, form feed and carriage return. Python's `str.strip()` and `\s` in unwrap.py also treat the separators U+001C to U+001F (and non-ASCII spaces) as white space, and the model does not; .NET `char.IsWhiteSpace` does not treat U+001C to U+001F as white space;
  - `str.splitlines` splits on '\n' only;
  - `\d` is 0-9;
  - string lengths count characters, where .NET counts UTF-16 code units: a character outside the Basic Multilingual Plane counts twice in the source's `snippet.Length > 200`, and the source's `snippet[..200]` can split it, so `FileSystem.Truncate` agrees with the source only on text within that plane.
- FileSystem.FormatBytes: the `F2` division text is a parameter, because floating-point formatting is not modelled. Only the unit choice and the suffix are stated.
- Calls to the language models and web search are uninterpreted functions of their inputs. This covers the classifier, topic and section research, query generation, outline, section writing and the basic chat answer. The prompt templates are not modelled.
- The complex prompt handler: HandleComplexPromptStep.cs is not part of this model, so its effect on the dictionary is an uninterpreted function.
- The records `InitialArticleStructure`, `SectionContent`, `FinalizeArticleInput` and `ContentGenerationStatus`, and `TraceEventData`: their files are not part of this model. They are modelled from their use sites.
- `Random.Next(1, 21)`: the drawn value is a parameter, and `Drawable` states its range.
- The process framework:
  - the real queue order, supersteps and `ToMermaid` are not modelled;
  - a run has an explicit step budget, and the theorems give the budget that drains the queue;
  - each step function emits its named events before its result event;
  - a payload of the wrong shape makes a function a no-op, in place of the framework's binding error;
  - step names and function names are distinct enumerations.
- Step state ownership: each step is given its own `GeneratedContentState`, which is the framework's behaviour for a stateful step. So the writer's state is never written.
