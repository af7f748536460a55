/** The controller as src/research_agent.py writes it: no stage call has a
    handler of its own, so the first failing stage, the comparison included,
    raises out of `run_research` before `research_done` is set; the driver
    catches that and sets `research_done` itself. No stage sets a
    `step_completed` flag and the reference text is never stored in
    `original_content`. */
module ResearchAgentApp {
  import opened Basics
  import opened Records
  import opened Session
  import opened Loader
  import opened Prompts
  import opened Pipeline

  /** Paragraph break inside this copy's prompts. */
  const Break: string := "\n\n"

  /** The session fields a run leaves behind, given the walk it took:
      `research_done` only when no stage failed; `step_completed` untouched. */
  function AfterWalk(s0: Snapshot, w: Walk): Snapshot
  {
    s0.(collectedFacts := Recorded(w.factCalls),
        researchDone := w.failed.None?,
        reportResult := w.report,
        comparisonResult := w.comparison)
  }

  /** The session after `run_research(query, original_content)`. */
  function AfterRun(s0: Snapshot, query: string, content: Option<string>, o: Oracle): Snapshot
  {
    AfterWalk(s0, PipelineWalk(query, content, o))
  }

  /** `run_research`: resets the run's fields, then walks the stages; `raised`
      tells whether an exception left it, which happens exactly when some
      stage failed. The agent of each call `c` of the walk receives the prompt
      `Prompt(Break, c.input)`. */
  method RunResearch(s: SessionState, query: string, content: Option<string>, o: Oracle)
    returns (raised: bool, ghost calls: seq<Call>)
    modifies s
    ensures calls == PipelineWalk(query, content, o).calls
    ensures raised <==> PipelineWalk(query, content, o).failed.Some?
    ensures s.View() == AfterRun(old(s.View()), query, content, o)
  {
    s.BeginRun();
    calls := [];
    var gap: Option<AgentOutput<ResearchGaps>> := None;
    if Truthy(content) {
      calls := [Call(GapAnalysis, GapIn(content.value, query), o.gap.Ok?)];
      if o.gap.Fail? {
        raised := true;
        return;
      }
      gap := Some(o.gap.value);
    }

    calls := calls + [Call(Planning, PlanIn(query, gap), PlanUsable(o.plan))];
    if !PlanUsable(o.plan) {
      raised := true;
      return;
    }

    calls := calls + [Call(Researching, ResearchIn(o.plan.value.value), o.research.result.Ok?)];
    s.ReplayFactCalls(o.research.factCalls);
    if o.research.result.Fail? {
      raised := true;
      return;
    }

    calls := calls + [Call(Drafting, DraftIn(query, o.research.result.value), o.editor.Ok?)];
    if o.editor.Fail? {
      raised := true;
      return;
    }
    s.reportResult := Some(o.editor.value);

    if Truthy(content) {
      calls := calls + [Call(Comparing, CompareIn(content.value, o.editor.value), o.comparison.Ok?)];
      if o.comparison.Fail? {
        raised := true;
        return;
      }
      s.comparisonResult := Some(o.comparison.value);
    }
    s.researchDone := true;
    raised := false;
  }

  /** A run that returns normally has a report; one that raised has a report
      only if the comparison was what failed, and then no comparison. */
  lemma RaisedRuns(s0: Snapshot, query: string, content: Option<string>, o: Oracle)
    ensures var w := PipelineWalk(query, content, o);
      var s := AfterRun(s0, query, content, o);
      (s.researchDone <==> w.failed.None?)
      && (w.failed.None? ==> s.reportResult == Some(o.editor.value))
      && (s.reportResult.Some? <==> w.failed.None? || w.failed == Some(Comparing))
      && (w.failed == Some(Comparing) ==> s.comparisonResult.None? && Truthy(content))
  {
    var w := PipelineWalk(query, content, o);
    WalkResults(query, content, o);
    WalkStopsAtFailure(query, content, o);
    if w.failed == Some(Comparing) {
      WalkComparisonIff(query, content, o);
    }
  }

  /** The session after the script run in which "Start Research" is pressed
      with `upload` in the file widget. */
  function AfterStart(s0: Snapshot, upload: Option<Upload>, query: string, o: Oracle): Snapshot
  {
    var flags := if upload.Some? then s0.stepCompleted[StepUpload := true] else s0.stepCompleted;
    AfterRun(s0.(stepCompleted := flags), query, UploadContent(upload), o).(researchDone := true)
  }

  /** That script run: the upload flag is set for any upload, the reference
      text is read (a reader that raises leaves it `None`) but not stored,
      and an exception out of the run is caught and ends with
      `research_done` set. */
  method StartResearch(s: SessionState, upload: Option<Upload>, query: string, o: Oracle)
    modifies s
    ensures s.View() == AfterStart(old(s.View()), upload, query, o)
  {
    if upload.Some? {
      s.stepCompleted := s.stepCompleted[StepUpload := true];
    }
    var content := ReadUpload(upload);
    var raised, _ := RunResearch(s, query, content, o);
    if raised {
      s.researchDone := true;
    }
  }

  /** After starting, `research_done` holds whatever happened, the only flag
      that can change is the upload flag (set iff a file was uploaded or it
      was already set), `original_content` is not touched, and the report is
      present exactly when the report stage succeeded. */
  lemma StartFacts(s0: Snapshot, upload: Option<Upload>, query: string, o: Oracle)
    requires s0.WellFormed()
    ensures var s := AfterStart(s0, upload, query, o);
      var w := PipelineWalk(query, UploadContent(upload), o);
      s.researchDone
      && s.WellFormed()
      && s.originalContent == s0.originalContent
      && (forall k :: k in AllSteps && k != StepUpload ==> s.stepCompleted[k] == s0.stepCompleted[k])
      && s.stepCompleted[StepUpload] == (s0.stepCompleted[StepUpload] || upload.Some?)
      && (s.reportResult.Some? <==> Succeeded(w.calls, Drafting))
  {
    var w := PipelineWalk(query, UploadContent(upload), o);
    WalkResults(query, UploadContent(upload), o);
  }
}
