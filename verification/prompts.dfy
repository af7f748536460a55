/** The prompt strings the controller builds for each stage. Both copies of
    the controller use the same templates; they differ only in the paragraph
    break `brk` between parts ("\n" in src/agent.py, "\n\n" in
    src/research_agent.py). */
module Prompts {
  import opened Basics
  import opened Records
  import opened Text

  /** Stand-in for the gap output when it is not a `ResearchGaps` record. */
  const GeneralResearchNeeded: string := "General research needed"

  /** Prefix of the planning prompt when there is no reference document. */
  const BarePlanHeader: string := "Create a comprehensive research plan for: "

  /** Fixed parts of the prompt templates. */
  const GapHeader: string := "Original Research Content:\n"
  const QueryLabel: string := "Research Query: "
  const GapInstruction: string := "Analyze this research for gaps and improvements needed."
  const GapsLabel: string := "Gaps to fill: "
  const PlanInstruction: string := "Create a research plan with targeted search queries and focus areas."
  const QueriesHeader: string := "Research queries to investigate:\n"
  const FocusHeader: string := "Focus areas:\n"
  const ResearchInstruction: string := "Research these thoroughly and compile findings."
  const FindingsHeader: string := "Research Findings:\n"
  const ReportInstruction: string :=
    "Write a comprehensive, detailed research report (5-10 pages, 1500+ words).\n"
    + "Use clear sections, headings, and professional formatting."
  const OriginalHeader: string := "Original Research:\n"
  const NewResearchHeader: string := "New Research Generated:\n"
  const ComparisonInstruction: string := "Provide a detailed comparison of both research pieces."

  /** Gap-analysis prompt: the reference text, then the query. */
  function GapPrompt(brk: string, content: string, query: string): (r: string)
    ensures Contains(r, content) && Contains(r, query)
  {
    var head := GapHeader;
    var mid := brk + QueryLabel;
    var tail := brk + GapInstruction;
    ContainsSlots(head, content, mid, query, tail);
    head + content + mid + query + tail
  }

  /** What the planning prompt says about gaps: `str()` of the gap record
      when the gap stage returned one (`hasattr(..., "gaps")`), else the
      stand-in. */
  function GapText(gap: AgentOutput<ResearchGaps>): string
  {
    match gap
    case Structured(_, rendered) => rendered
    case Unstructured(_) => GeneralResearchNeeded
  }

  /** Planning prompt. `gap` is the gap stage's output, present exactly when a
      reference document was given (the gap stage having then succeeded). */
  function PlanPrompt(brk: string, query: string, gap: Option<AgentOutput<ResearchGaps>>): (r: string)
    ensures Contains(r, query)
    ensures gap.None? ==> r == BarePlanHeader + query
    ensures gap.Some? && gap.value.Structured? ==> Contains(r, gap.value.rendered)
    ensures gap.Some? && gap.value.Unstructured? ==> Contains(r, GeneralResearchNeeded)
  {
    match gap
    case None =>
      ContainsSlots(BarePlanHeader, query, "", "", "");
      assert BarePlanHeader + query + "" + "" + "" == BarePlanHeader + query;
      BarePlanHeader + query
    case Some(g) =>
      var head := QueryLabel;
      var mid := brk + GapsLabel;
      var tail := brk + PlanInstruction;
      ContainsSlots(head, query, mid, GapText(g), tail);
      head + query + mid + GapText(g) + tail
  }

  /** Research prompt: the plan's search queries, then its focus areas, each
      list joined with ", " in list order. */
  function ResearchPrompt(brk: string, plan: ResearchPlan): (r: string)
    ensures Contains(r, Join(plan.searchQueries)) && Contains(r, Join(plan.focusAreas))
  {
    var head := QueriesHeader;
    var mid := brk + FocusHeader;
    var tail := brk + ResearchInstruction;
    ContainsSlots(head, Join(plan.searchQueries), mid, Join(plan.focusAreas), tail);
    head + Join(plan.searchQueries) + mid + Join(plan.focusAreas) + tail
  }

  /** Report prompt: the query, then the research stage's text. */
  function ReportPrompt(brk: string, query: string, findings: string): (r: string)
    ensures Contains(r, query) && Contains(r, findings)
  {
    var head := QueryLabel;
    var mid := brk + FindingsHeader;
    var tail := brk + ReportInstruction;
    ContainsSlots(head, query, mid, findings, tail);
    head + query + mid + findings + tail
  }

  /** The report text the comparison prompt quotes: `.report` of a report
      record (`hasattr(..., 'report')`), else `str()` of the output. */
  function ReportBody(report: AgentOutput<ResearchReport>): string
  {
    match report
    case Structured(r, _) => r.report
    case Unstructured(t) => t
  }

  /** Comparison prompt: the reference text, then the new report's text. */
  function ComparisonPrompt(brk: string, content: string, report: AgentOutput<ResearchReport>): (r: string)
    ensures Contains(r, content)
    ensures report.Structured? ==> Contains(r, report.value.report)
    ensures report.Unstructured? ==> Contains(r, report.Str())
  {
    var head := OriginalHeader;
    var mid := brk + NewResearchHeader;
    var tail := brk + ComparisonInstruction;
    ContainsSlots(head, content, mid, ReportBody(report), tail);
    head + content + mid + ReportBody(report) + tail
  }

  /** What a stage's prompt is built from: the previous stage's output (and
      the query or reference text). */
  datatype StageInput =
    | GapIn(content: string, query: string)
    | PlanIn(query: string, gap: Option<AgentOutput<ResearchGaps>>)
    | ResearchIn(plan: ResearchPlan)
    | DraftIn(query: string, findings: string)
    | CompareIn(content: string, report: AgentOutput<ResearchReport>)

  /** The prompt text a stage agent receives. */
  function Prompt(brk: string, input: StageInput): string
  {
    match input
    case GapIn(c, q) => GapPrompt(brk, c, q)
    case PlanIn(q, g) => PlanPrompt(brk, q, g)
    case ResearchIn(p) => ResearchPrompt(brk, p)
    case DraftIn(q, f) => ReportPrompt(brk, q, f)
    case CompareIn(c, r) => ComparisonPrompt(brk, c, r)
  }
}
