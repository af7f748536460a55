/** The repository carries the controller twice, src/agent.py and
    src/research_agent.py. Given the same stage outcomes both walk the same
    stages and keep the same results; they differ in what a failure does to
    `research_done`, in the step flags and in `original_content`. */
module Copies {
  import opened Basics
  import opened Records
  import opened Loader
  import opened Pipeline
  import AgentApp
  import ResearchAgentApp

  /** After `run_research`, both copies hold the same fact log, report and
      comparison; `research_done` differs exactly when the comparison alone
      failed, which src/agent.py tolerates and src/research_agent.py does not. */
  lemma RunsAgree(s0: Snapshot, query: string, content: Option<string>, o: Oracle)
    ensures var a := AgentApp.AfterRun(s0, query, content, o);
      var b := ResearchAgentApp.AfterRun(s0, query, content, o);
      a.collectedFacts == b.collectedFacts
      && a.reportResult == b.reportResult
      && a.comparisonResult == b.comparisonResult
      && (b.researchDone ==> a.researchDone)
      && (a.researchDone && !b.researchDone <==> PipelineWalk(query, content, o).failed == Some(Comparing))
  {
  }

  /** After the start-button script run: src/research_agent.py always ends
      with `research_done` set, src/agent.py only when a report exists; only
      src/agent.py stores the reference text; the results agree. */
  lemma StartsAgree(s0: Snapshot, upload: Option<Upload>, query: string, o: Oracle)
    requires s0.WellFormed()
    ensures var a := AgentApp.AfterStart(s0, upload, query, o);
      var b := ResearchAgentApp.AfterStart(s0, upload, query, o);
      a.WellFormed() && b.WellFormed()
      && b.researchDone
      && (a.researchDone <==> a.reportResult.Some?)
      && a.originalContent == UploadContent(upload)
      && b.originalContent == s0.originalContent
      && a.collectedFacts == b.collectedFacts
      && a.reportResult == b.reportResult
      && a.comparisonResult == b.comparisonResult
      && a.stepCompleted[StepUpload] == b.stepCompleted[StepUpload]
  {
    var content := UploadContent(upload);
    var flags := if upload.Some? then s0.stepCompleted[StepUpload := true] else s0.stepCompleted;
    var s1 := s0.(stepCompleted := flags, originalContent := content);
    AgentApp.DoneIffReport(s1, query, content, o);
    AgentApp.StartFacts(s0, upload, query, o);
    ResearchAgentApp.StartFacts(s0, upload, query, o);
  }
}
