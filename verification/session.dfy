/** The Streamlit session state the research controller works on: one
    mutable record per browser session, created on the first script run and
    kept across reruns. */
module Session {
  import opened Basics
  import opened Records

  /** The session state as first initialised: a fresh correlation token, an
      empty fact log, nothing done, every step pending. */
  function InitialState(conversationId: string): (s: Snapshot)
    ensures s.WellFormed()
    ensures forall k :: k in s.stepCompleted ==> !s.stepCompleted[k]
  {
    Snapshot(conversationId, [], false, None, None, None, 0, NoStepsCompleted)
  }

  class SessionState {
    var conversationId: string
    var collectedFacts: seq<Fact>
    var researchDone: bool
    var reportResult: Option<AgentOutput<ResearchReport>>
    var originalContent: Option<string>
    var comparisonResult: Option<AgentOutput<Comparison>>
    var currentStep: int
    var stepCompleted: map<StepName, bool>

    /** All fields, as one value. */
    function View(): Snapshot
      reads this
    {
      Snapshot(conversationId, collectedFacts, researchDone, reportResult, originalContent,
               comparisonResult, currentStep, stepCompleted)
    }

    /** The `if key not in st.session_state` block of a first script run. The
        correlation token (16 random hex digits in the app) is a parameter. */
    constructor (conversationId: string)
      ensures View() == InitialState(conversationId)
    {
      this.conversationId := conversationId;
      collectedFacts := [];
      researchDone := false;
      reportResult := None;
      originalContent := None;
      comparisonResult := None;
      currentStep := 0;
      stepCompleted := NoStepsCompleted;
    }

    /** The `save_important_fact` tool: appends one entry to the fact log and
        acknowledges it; no other field changes. The clock reading is a
        parameter. */
    method SaveImportantFact(fact: string, source: Option<string>, timestamp: string) returns (ack: string)
      modifies this
      ensures collectedFacts == old(collectedFacts) + [RecordFact(FactCall(fact, source, timestamp))]
      ensures View() == old(View()).(collectedFacts := collectedFacts)
      ensures ack == "Fact saved: " + fact
    {
      collectedFacts := collectedFacts + [Fact(fact, if Truthy(source) then source.value else NotSpecified, timestamp)];
      ack := "Fact saved: " + fact;
    }

    /** The four assignments that open `run_research`: empty fact log, run not
        done, no report and no comparison. `step_completed` is left as it is. */
    method BeginRun()
      modifies this
      ensures View() == old(View()).(collectedFacts := [], researchDone := false,
                                     reportResult := None, comparisonResult := None)
    {
      collectedFacts := [];
      researchDone := false;
      reportResult := None;
      comparisonResult := None;
    }

    /** The agent runtime calling the fact tool once per element of `calls`,
        in order, while the research stage runs. */
    method ReplayFactCalls(calls: seq<FactCall>)
      modifies this
      ensures View() == old(View()).(collectedFacts := old(collectedFacts) + Recorded(calls))
    {
      var i := 0;
      while i < |calls|
        invariant 0 <= i <= |calls|
        invariant collectedFacts == old(collectedFacts) + Recorded(calls[..i])
        invariant View() == old(View()).(collectedFacts := collectedFacts)
      {
        var c := calls[i];
        var _ := SaveImportantFact(c.fact, c.source, c.timestamp);
        assert calls[..i + 1][..i] == calls[..i];
        i := i + 1;
      }
      assert calls[..i] == calls;
    }
  }
}
