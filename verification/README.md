# Research-run controller of the OpenAI SDK Research Assistant

The Streamlit app lets a user upload an optional reference document (PDF or
text), enter a research topic and press "Start Research". Five LLM stage
agents then run one after another:

- gap analysis, only with a reference text;
- planning;
- research, whose agent logs facts through the `save_important_fact` tool;
- report writing;
- comparison with the reference text, only with a reference text.

Each stage builds its prompt from the previous stage's output. Everything
the run produces is kept in the per-browser session state.

The repository carries this controller twice, with different failure
handling:

- In `src/agent.py`, every stage sits in its own `try`. A failure of gap
  analysis, planning, research or report writing returns at once, and
  `research_done` stays false. A comparison failure is only reported. Each
  successful stage after gap analysis sets its `step_completed` flag.
- In `src/research_agent.py` there are no per-stage handlers. The first
  failing stage, the comparison included, raises out of `run_research`, and
  the start-button driver catches it and sets `research_done`. No stage sets
  a flag, and the reference text is never stored in the session.

The model is organised as follows:

- `basics.dfy` holds `Option`, the stage `Outcome` and Python truthiness of
  an optional string.
- `text.dfy` holds `", ".join`, an inverse that splits the joined text, and
  substring containment.
- `records.dfy` holds the agents' output records. Each stage's output is
  either a structured record (with its `str()` rendering) or unstructured
  text, mirroring the code's `hasattr` checks. It also holds the fact
  record, the step keys and a value snapshot of the session.
- `session.dfy` holds the session state as a class: the `save_important_fact`
  tool, the reset at the start of a run, and the replay of the research
  agent's tool calls.
- `loader.dfy` holds the PDF page loop and the media-type dispatch of the
  driver.
- `prompts.dfy` holds the five prompt templates. The two copies use the same
  templates and differ only in the paragraph break (`"\n"` against
  `"\n\n"`).
- `pipeline.dfy` holds the stage walk both copies share. Each `Runner.run`
  call is an oracle outcome given as input, and the walk records which stage
  agents are called, in which order, from which inputs, and with which
  outcome.
- `agent.dfy` holds `src/agent.py`'s `run_research` and its driver as
  methods on the session object, proved against specification functions of
  the walk.
- `research_agent.dfy` does the same for `src/research_agent.py`.
- `copies.dfy` compares the two copies.

Each run method returns a ghost trace of the calls it made. That trace is
the walk's call list. The agent of a call `c` receives the prompt
`Prompt(Break, c.input)`.

Several functions model source code directly and serve as the reference
definitions the rows below are stated against:

- `Pipeline.PipelineWalk` is the stage sequence of `run_research` in both
  copies (src/agent.py:260-383, src/research_agent.py:269-395). It fixes
  which stages run, what each prompt is built from, and that the first
  failing stage ends the walk.
- `Loader.UploadContent` is the driver's reading of the upload
  (src/agent.py:391-411).
- `Loader.PagesText` and `Loader.PdfText` are the PDF page loop
  (src/agent.py:67-77).
- `Text.Join` is `", ".join` (src/agent.py:324 and 326).

## Model

| member | source | states |
|---|---|---|
| Records.RecordFact | src/agent.py:91-102 | the entry keeps the fact and timestamp; its source is the given source when that is truthy and "Not specified" otherwise, so it is never empty |
| Records.RecordedAt | src/agent.py:91-102 | the fact log of a sequence of tool calls has one entry per call, and entry i records call i |
| Records.RecordedAppend | src/agent.py:91-102 | logging two batches of calls one after the other gives the log of the concatenated calls: the log is append-only |
| Session.InitialState | src/agent.py:168-189 | the first-run session has a `step_completed` map over exactly the five steps, all of them false |
| Session.SessionState.constructor | src/research_agent.py:187-208 | the session as first initialised equals `InitialState` for the given correlation token |
| Session.SessionState.SaveImportantFact | src/agent.py:91-102 | appends exactly one entry, `RecordFact` of the call, at the end of the log; every other field is unchanged; the acknowledgement is "Fact saved: " followed by the fact; the tool at src/research_agent.py:95-109 is identical |
| Session.SessionState.BeginRun | src/agent.py:249-254 | a run starts with an empty log, `research_done` false, and no report or comparison; `step_completed`, `original_content` and the token are left as they were |
| Session.SessionState.ReplayFactCalls | src/agent.py:329-330 | the research agent's tool calls append their records to the log in call order; nothing else changes |
| Loader.PagesTextSome | src/agent.py:67-77 | the document yields text iff every page does |
| Loader.PagesTextPrefix | src/research_agent.py:76-82 | pages contribute in page order: the text of the first k pages is a prefix of the whole |
| Loader.ExtractPdfText | src/agent.py:67-77 | the `+=` page loop returns `PdfText` of the document, which is `None` iff the document is unreadable or some page fails |
| Loader.ReadUpload | src/agent.py:391-411 | no upload gives `None`; a declared "application/pdf" goes to the PDF extractor and any other type to the UTF-8 reader; a reader failure gives `None`, whether the reader catches it itself or, as in src/research_agent.py:477-495, the driver does |
| Text.SplitJoin | src/agent.py:323-327 | a non-empty list whose items contain no ", " is recovered from its ", " join, so the joined lists in the research prompt keep their items and list order |
| Prompts.GapPrompt | src/agent.py:263-266 | the gap-analysis prompt contains the reference text and the query |
| Prompts.PlanPrompt | src/agent.py:292-297 | the planning prompt contains the query; without a gap output it is exactly "Create a comprehensive research plan for: " + query; with a gap record it contains that record's rendering; with unstructured gap output it contains "General research needed" |
| Prompts.ResearchPrompt | src/agent.py:323-327 | the research prompt contains the ", " join of the plan's search queries and of its focus areas |
| Prompts.ReportPrompt | src/agent.py:348-352 | the report prompt contains the query and the research agent's text |
| Prompts.ComparisonPrompt | src/agent.py:370-374 | the comparison prompt contains the reference text, plus the `.report` of a report record or the text of an unstructured output |
| Pipeline.WalkInOrder | src/agent.py:260-383 | stages are called in the order gap, plan, research, report, comparison, each at most once; planning is called unless gap analysis ran and failed |
| Pipeline.WalkGapIffContent | src/agent.py:260-269 | gap analysis runs iff the reference text is truthy, and then it is the first call |
| Pipeline.WalkComparisonIff | src/agent.py:366-379 | comparison runs iff the reference text is truthy and the report stage succeeded |
| Pipeline.WalkStopsAtFailure | src/research_agent.py:280-393 | every call but the last succeeded: nothing is called after a failing stage, and `failed` names the stage of the last call exactly when it failed |
| Pipeline.WalkResults | src/agent.py:329-380 | the editor output is kept iff the report stage succeeded, the comparison output iff comparison succeeded, and the research agent's tool calls iff research ran |
| Pipeline.WalkInputs | src/agent.py:263-374 | each call's prompt is built from the previous stage's output: the plan from the gap output, research from the plan record, the report from the research text, comparison from the editor output |
| AgentApp.MarkAllKeys | src/agent.py:182-189 | marking flags never adds or removes a key of the five-step map |
| AgentApp.MarkAllFlags | src/agent.py:312-381 | after a sequence of calls, a flag holds iff it held before or a successful call of its stage sets it: flags only go from false to true |
| AgentApp.StepsFlags | src/agent.py:312-381 | the flags the stage-by-stage run sets are exactly those of the walk's successful planning, research, report and comparison calls |
| AgentApp.StepsFollowWalk | src/agent.py:249-385 | the stage-by-stage effect of a run equals `AfterRun`: the log is the research agent's tool calls if research ran (else empty), `research_done` holds iff no fatal stage failed, the report and comparison are the walk's, and the flags are those of its successful calls |
| AgentApp.RunResearch | src/agent.py:249-385 | the ghost trace is the walk's call list, and the new session is `AfterRun` of the old one: the research agent's facts, `research_done` iff no fatal stage failed, the walk's report and comparison, and the flags of its successful calls |
| AgentApp.ComparisonFailureNotFatal | src/agent.py:376-385 | when only the comparison fails, the run completes with the report kept, no comparison, and only the planning, research and report flags set |
| AgentApp.DoneIffReport | src/agent.py:283-385 | `research_done` holds after a run iff a report was stored, iff the report stage succeeded: the gap, plan, research and report failures all return before line 385 |
| AgentApp.FlagsAfterRun | src/agent.py:312-381 | over a run, each flag holds afterwards iff it held before or its stage succeeded; the map keeps its five keys |
| AgentApp.TopicOnlyRun | src/agent.py:260-297 | without a truthy reference text there is no gap and no comparison call, the first call is planning with the bare one-line prompt, and no comparison is stored |
| AgentApp.StartResearch | src/agent.py:391-420 | the start-button script run sets the upload flag for an upload, stores what the reader returned in `original_content` and runs the pipeline on it, giving `AfterStart` |
| AgentApp.StartFacts | src/agent.py:204-205 | after starting, `original_content` is the reader's result, the upload flag holds iff it held or a file was uploaded, and when the reader gives no truthy text (no upload, a reader failure or an empty file) there is neither gap analysis nor comparison and no comparison is stored |
| ResearchAgentApp.RunResearch | src/research_agent.py:249-470 | the ghost trace is the walk's call list; the method raises iff some stage failed; the new session has the research agent's facts, `research_done` iff no stage failed, and the walk's report and comparison, with `step_completed` unchanged |
| ResearchAgentApp.RaisedRuns | src/research_agent.py:369-395 | a run that returns normally stored the editor output; a stored report after a raise means the comparison failed, and then there is no comparison |
| ResearchAgentApp.StartResearch | src/research_agent.py:477-502 | the start-button script run sets the upload flag, reads the file without storing it, runs the pipeline, and sets `research_done` when the run raised, giving `AfterStart` |
| ResearchAgentApp.StartFacts | src/research_agent.py:225-226 | after starting, `research_done` always holds; only the upload flag can change, and it holds iff it held or a file was uploaded; `original_content` is untouched; a report exists iff the report stage succeeded |
| Copies.RunsAgree | src/research_agent.py:249-470 | on the same stage outcomes both copies log the same facts and keep the same report and comparison; `research_done` differs exactly when only the comparison failed |
| Copies.StartsAgree | src/research_agent.py:477-502 | after the start-button run the copies agree on facts, report, comparison and upload flag; only src/agent.py stores the reference text; src/research_agent.py always ends done, src/agent.py iff a report exists |

## Left out

- Streamlit rendering is not modelled: tabs, columns, expanders, messages, the download button, the quick-example buttons, `st.rerun` and display truncation. None of it changes the session fields modelled here.
- The agents SDK is not modelled: agent definitions, instructions, `WebSearchTool`, `trace` and handoffs. Each `Runner.run` is an oracle outcome given as input, so the model does not capture what a prompt makes an agent answer.
- The `str()` rendering of a pydantic record is supplied with each structured output (`Structured.rendered`) instead of being computed.
- PyPDF2 and `bytes.decode("utf-8")` are foreign. An upload carries what each would return; any exception they raise is `None`.
- `datetime.now()` timestamps and the `uuid` correlation token are parameters.
- `asyncio.run` and `await` are left out: the calls run strictly one after another.
- The `load_dotenv`/`OPENAI_API_KEY` check and `st.stop` are left out.
- `current_step` is carried as a field. The core only initialises it to 0 and never changes it.
- The session-init guards (`if key not in st.session_state`) are modelled only as the first initialisation, the constructor. Later reruns leave those fields as they are.
- The fact tool's own "collected_facts missing" guard is left out. After initialisation the key always exists.
- The upload flag is set on every script run with a file in the widget. The model sets it only in the start-button script run.
- The report prompt's 'Research completed' fallback never applies. `research_result` is a run-result object and is always truthy, so the model always quotes the research text.
- Empty `search_queries` are not treated as a failure. The code joins an empty list to "" and carries on, and so does the model.
- Empty facts are logged like any other. The code has no check.
- The outer exception handler around `run_research` in src/agent.py (lines 416-420) is not modelled. No stage failure escapes that copy's per-stage handlers.
- Prompts.GapPrompt, Prompts.PlanPrompt, Prompts.ResearchPrompt, Prompts.ReportPrompt, Prompts.ComparisonPrompt: their contracts state which inputs the prompt contains, not the full layout. The layout is fixed by the function bodies.
