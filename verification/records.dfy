/** The structured records the stage agents return, the collected-fact
    record, the step-completion keys and a value view of the whole session
    state. */
module Records {
  import opened Basics

  /** Output shape of the gap-analysis agent. */
  datatype ResearchGaps = ResearchGaps(gaps: seq<string>, improvements: seq<string>, areasToExpand: seq<string>)

  /** Output shape of the planning agent. */
  datatype ResearchPlan = ResearchPlan(topic: string, searchQueries: seq<string>, focusAreas: seq<string>)

  /** Output shape of the editor agent. */
  datatype ResearchReport = ResearchReport(title: string, outline: seq<string>, report: string, sources: seq<string>, wordCount: int)

  /** Output shape of the comparison agent. */
  datatype Comparison = Comparison(
    originalSummary: string, improvementsMade: seq<string>, qualityAssessment: string,
    depthIncrease: string, newInsights: seq<string>)

  /** The `final_output` of a stage call. The controller tells the two apart with
      `hasattr`: either it is the declared record (`rendered` is its `str()`
      form, produced by the record library), or it is some other value whose
      string form is `text`. */
  datatype AgentOutput<T> = Structured(value: T, rendered: string) | Unstructured(text: string) {
    /** `str(final_output)`. */
    function Str(): string {
      match this
      case Structured(_, r) => r
      case Unstructured(t) => t
    }
  }

  /** Default recorded when the agent gives no (or an empty) source. */
  const NotSpecified: string := "Not specified"

  /** One entry of `collected_facts`. */
  datatype Fact = Fact(fact: string, source: string, timestamp: string)

  /** One call of the fact tool as the research agent makes it; the timestamp
      is the clock reading taken during the call. */
  datatype FactCall = FactCall(fact: string, source: Option<string>, timestamp: string)

  /** The entry that one tool call appends. */
  function RecordFact(c: FactCall): (f: Fact)
    ensures f.fact == c.fact && f.timestamp == c.timestamp
    ensures f.source != ""
    ensures Truthy(c.source) ==> f.source == c.source.value
    ensures !Truthy(c.source) ==> f.source == NotSpecified
  {
    Fact(c.fact, if Truthy(c.source) then c.source.value else NotSpecified, c.timestamp)
  }

  /** The entries a sequence of tool calls appends, in call order. */
  function Recorded(calls: seq<FactCall>): seq<Fact>
  {
    if |calls| == 0 then [] else Recorded(calls[..|calls| - 1]) + [RecordFact(calls[|calls| - 1])]
  }

  /** Entry `i` of the log is the record of call `i`: one entry per call, in
      call order, none dropped or merged. */
  lemma {:induction false} RecordedAt(calls: seq<FactCall>, i: int)
    requires 0 <= i < |calls|
    ensures |Recorded(calls)| == |calls|
    ensures Recorded(calls)[i] == RecordFact(calls[i])
    decreases |calls|
  {
    var front := calls[..|calls| - 1];
    if i < |calls| - 1 {
      RecordedAt(front, i);
      assert front[i] == calls[i];
    } else if |calls| > 1 {
      RecordedAt(front, 0);
    }
  }

  /** Recording in two batches is recording once: the log is append-only. */
  lemma {:induction false} RecordedAppend(a: seq<FactCall>, b: seq<FactCall>)
    ensures Recorded(a + b) == Recorded(a) + Recorded(b)
    decreases |b|
  {
    if |b| > 0 {
      var front := b[..|b| - 1];
      assert (a + b)[..|a + b| - 1] == a + front;
      RecordedAppend(a, front);
    } else {
      assert a + b == a;
    }
  }

  /** Keys of `step_completed`: "upload", "planning", "research", "report", "comparison". */
  datatype StepName = StepUpload | StepPlanning | StepResearch | StepReport | StepComparison

  const AllSteps: set<StepName> := {StepUpload, StepPlanning, StepResearch, StepReport, StepComparison}

  /** `step_completed` as first created: every step pending. */
  const NoStepsCompleted: map<StepName, bool> :=
    map[StepUpload := false, StepPlanning := false, StepResearch := false, StepReport := false,
        StepComparison := false]

  /** The session-state fields the controller reads and writes, as one value. */
  datatype Snapshot = Snapshot(
    conversationId: string,
    collectedFacts: seq<Fact>,
    researchDone: bool,
    reportResult: Option<AgentOutput<ResearchReport>>,
    originalContent: Option<string>,
    comparisonResult: Option<AgentOutput<Comparison>>,
    currentStep: int,
    stepCompleted: map<StepName, bool>)
  {
    predicate WellFormed() {
      stepCompleted.Keys == AllSteps
    }
  }
}
