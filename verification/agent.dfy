/** The controller as src/agent.py writes it: every stage call sits in its own
    try block; a failure of gap analysis, planning, research or report
    writing ends `run_research` with a plain `return` (so `research_done`
    stays false), a failure of the comparison is reported and the run still
    completes. Each successful stage after gap analysis sets its
    `step_completed` flag. */
module AgentApp {
  import opened Basics
  import opened Records
  import opened Session
  import opened Loader
  import opened Prompts
  import opened Pipeline

  /** Paragraph break inside this copy's prompts. */
  const Break: string := "\n"

  /** The `step_completed` key a stage sets on success (gap analysis has none). */
  function StepOf(st: Stage): Option<StepName>
  {
    match st
    case GapAnalysis => None
    case Planning => Some(StepPlanning)
    case Researching => Some(StepResearch)
    case Drafting => Some(StepReport)
    case Comparing => Some(StepComparison)
  }

  /** `step_completed` after one call: its stage's flag set if it succeeded. */
  function Mark(flags: map<StepName, bool>, c: Call): map<StepName, bool>
  {
    if c.ok && StepOf(c.stage).Some? then flags[StepOf(c.stage).value := true] else flags
  }

  /** `step_completed` after a sequence of calls. */
  function MarkAll(flags: map<StepName, bool>, calls: seq<Call>): map<StepName, bool>
  {
    if |calls| == 0 then flags else Mark(MarkAll(flags, calls[..|calls| - 1]), calls[|calls| - 1])
  }

  lemma MarkAllSnoc(flags: map<StepName, bool>, calls: seq<Call>, c: Call)
    ensures MarkAll(flags, calls + [c]) == Mark(MarkAll(flags, calls), c)
  {
    assert (calls + [c])[..|calls|] == calls;
  }

  /** Some successful call sets key `k`. */
  predicate Marks(calls: seq<Call>, k: StepName) {
    exists i :: 0 <= i < |calls| && calls[i].ok && StepOf(calls[i].stage) == Some(k)
  }

  /** Marking never adds or drops a key of a well-formed flag map. */
  lemma {:induction false} MarkAllKeys(flags: map<StepName, bool>, calls: seq<Call>)
    requires flags.Keys == AllSteps
    ensures MarkAll(flags, calls).Keys == AllSteps
    decreases |calls|
  {
    if |calls| > 0 {
      MarkAllKeys(flags, calls[..|calls| - 1]);
    }
  }

  /** Flags are only ever assigned true: afterwards a flag is set iff it was
      set before or a successful call sets it. */
  lemma {:induction false} MarkAllFlags(flags: map<StepName, bool>, calls: seq<Call>, k: StepName)
    requires flags.Keys == AllSteps
    ensures MarkAll(flags, calls).Keys == AllSteps
    ensures MarkAll(flags, calls)[k] == (flags[k] || Marks(calls, k))
    decreases |calls|
  {
    MarkAllKeys(flags, calls);
    if |calls| > 0 {
      var front := calls[..|calls| - 1];
      MarkAllFlags(flags, front, k);
      assert forall i :: 0 <= i < |front| ==> front[i] == calls[i];
      var last := calls[|calls| - 1];
      if Marks(calls, k) && !Marks(front, k) {
        assert last.ok && StepOf(last.stage) == Some(k);
      }
    }
  }

  /** The session fields a run leaves behind, given the walk it took. */
  function AfterWalk(s0: Snapshot, w: Walk): Snapshot
  {
    s0.(collectedFacts := Recorded(w.factCalls),
        researchDone := !Fatal(w),
        reportResult := w.report,
        comparisonResult := w.comparison,
        stepCompleted := MarkAll(s0.stepCompleted, w.calls))
  }

  /** The session after `run_research(query, content)`. */
  function AfterRun(s0: Snapshot, query: string, content: Option<string>, o: Oracle): Snapshot
  {
    AfterWalk(s0, PipelineWalk(query, content, o))
  }

  /** `run_research` stage by stage: the reset, then each stage's field
      assignments up to the first fatal failure. */
  function Steps(s0: Snapshot, query: string, content: Option<string>, o: Oracle): Snapshot
  {
    var s1 := s0.(collectedFacts := [], researchDone := false, reportResult := None, comparisonResult := None);
    if Truthy(content) && o.gap.Fail? then s1
    else if !PlanUsable(o.plan) then s1
    else
      var s2 := s1.(collectedFacts := Recorded(o.research.factCalls),
                    stepCompleted := s1.stepCompleted[StepPlanning := true]);
      if o.research.result.Fail? then s2
      else
        var s3 := s2.(stepCompleted := s2.stepCompleted[StepResearch := true]);
        if o.editor.Fail? then s3
        else
          var s4 := s3.(reportResult := Some(o.editor.value), stepCompleted := s3.stepCompleted[StepReport := true]);
          var s5 := if Truthy(content) && o.comparison.Ok? then
                      s4.(comparisonResult := Some(o.comparison.value),
                          stepCompleted := s4.stepCompleted[StepComparison := true])
                    else s4;
          s5.(researchDone := true)
  }

  /** The flags the stages set are the flags the walk's successful calls
      mark. */
  lemma StepsFlags(s0: Snapshot, query: string, content: Option<string>, o: Oracle)
    ensures Steps(s0, query, content, o).stepCompleted
         == MarkAll(s0.stepCompleted, PipelineWalk(query, content, o).calls)
  {
    var f := s0.stepCompleted;
    if Truthy(content) {
      var gapCall := Call(GapAnalysis, GapIn(content.value, query), o.gap.Ok?);
      MarkAllSnoc(f, [], gapCall);
      assert [] + [gapCall] == [gapCall];
      if o.gap.Ok? {
        StepsFlagsFromPlanning(s0, [gapCall], query, content, o);
      }
    } else {
      StepsFlagsFromPlanning(s0, [], query, content, o);
    }
  }

  /** `StepsFlags` from the planning stage on, after the optional gap call
      `pre`, which sets no flag. */
  lemma StepsFlagsFromPlanning(s0: Snapshot, pre: seq<Call>, query: string, content: Option<string>, o: Oracle)
    requires !(Truthy(content) && o.gap.Fail?)
    requires pre == if Truthy(content) then [Call(GapAnalysis, GapIn(content.value, query), o.gap.Ok?)] else []
    requires MarkAll(s0.stepCompleted, pre) == s0.stepCompleted
    ensures Steps(s0, query, content, o).stepCompleted
         == MarkAll(s0.stepCompleted, PipelineWalk(query, content, o).calls)
  {
    var f := s0.stepCompleted;
    var w := PipelineWalk(query, content, o);
    var planCall := Call(Planning, PlanIn(query, GapInput(content, o)), PlanUsable(o.plan));
    MarkAllSnoc(f, pre, planCall);
    if !PlanUsable(o.plan) {
      assert w.calls == pre + [planCall];
      return;
    }
    var researchCall := Call(Researching, ResearchIn(o.plan.value.value), o.research.result.Ok?);
    MarkAllSnoc(f, pre + [planCall], researchCall);
    if o.research.result.Fail? {
      assert w.calls == pre + [planCall] + [researchCall];
      return;
    }
    var draftCall := Call(Drafting, DraftIn(query, o.research.result.value), o.editor.Ok?);
    MarkAllSnoc(f, pre + [planCall] + [researchCall], draftCall);
    if o.editor.Fail? {
      assert w.calls == pre + [planCall] + [researchCall] + [draftCall];
      return;
    }
    if !Truthy(content) {
      assert w.calls == pre + [planCall] + [researchCall] + [draftCall];
      return;
    }
    var compareCall := Call(Comparing, CompareIn(content.value, o.editor.value), o.comparison.Ok?);
    MarkAllSnoc(f, pre + [planCall] + [researchCall] + [draftCall], compareCall);
    assert w.calls == pre + [planCall] + [researchCall] + [draftCall] + [compareCall];
  }

  /** The stage-by-stage effect is the effect the walk determines: facts of
      the research agent when it ran, `research_done` unless a fatal stage
      failed, the report and comparison obtained, and the flags of the
      successful calls. */
  lemma StepsFollowWalk(s0: Snapshot, query: string, content: Option<string>, o: Oracle)
    ensures Steps(s0, query, content, o) == AfterRun(s0, query, content, o)
  {
    StepsFlags(s0, query, content, o);
  }

  /** `run_research`: resets the run's fields, then walks the stages, returning
      at once from a fatal failure. The agent of each call `c` of the walk
      receives the prompt `Prompt(Break, c.input)`. */
  method RunResearch(s: SessionState, query: string, content: Option<string>, o: Oracle)
    returns (ghost calls: seq<Call>)
    modifies s
    ensures calls == PipelineWalk(query, content, o).calls
    ensures s.View() == AfterRun(old(s.View()), query, content, o)
  {
    StepsFollowWalk(s.View(), query, content, o);
    s.BeginRun();
    calls := [];
    var gap: Option<AgentOutput<ResearchGaps>> := None;
    if Truthy(content) {
      calls := [Call(GapAnalysis, GapIn(content.value, query), o.gap.Ok?)];
      if o.gap.Fail? {
        return;
      }
      gap := Some(o.gap.value);
    }

    calls := calls + [Call(Planning, PlanIn(query, gap), PlanUsable(o.plan))];
    if !PlanUsable(o.plan) {
      return;
    }
    s.stepCompleted := s.stepCompleted[StepPlanning := true];

    calls := calls + [Call(Researching, ResearchIn(o.plan.value.value), o.research.result.Ok?)];
    s.ReplayFactCalls(o.research.factCalls);
    if o.research.result.Fail? {
      return;
    }
    s.stepCompleted := s.stepCompleted[StepResearch := true];

    calls := calls + [Call(Drafting, DraftIn(query, o.research.result.value), o.editor.Ok?)];
    if o.editor.Fail? {
      return;
    }
    s.reportResult := Some(o.editor.value);
    s.stepCompleted := s.stepCompleted[StepReport := true];

    if Truthy(content) {
      calls := calls + [Call(Comparing, CompareIn(content.value, o.editor.value), o.comparison.Ok?)];
      if o.comparison.Ok? {
        s.comparisonResult := Some(o.comparison.value);
        s.stepCompleted := s.stepCompleted[StepComparison := true];
      }
    }
    s.researchDone := true;
  }

  /** A failure of the comparison stage is not fatal: the run still
      completes, keeps the report, has no comparison, and of the flags sets
      only those of planning, research and report. */
  lemma ComparisonFailureNotFatal(s0: Snapshot, query: string, content: Option<string>, o: Oracle)
    requires Truthy(content) && o.gap.Ok? && PlanUsable(o.plan) && o.research.result.Ok? && o.editor.Ok?
    requires o.comparison.Fail?
    ensures var s := AfterRun(s0, query, content, o);
      s.researchDone && s.reportResult == Some(o.editor.value) && s.comparisonResult.None?
      && s.stepCompleted == s0.stepCompleted[StepPlanning := true][StepResearch := true][StepReport := true]
  {
    StepsFollowWalk(s0, query, content, o);
  }

  /** A run completes (`research_done`) exactly when it produced a report,
      which is exactly when the report stage was invoked and succeeded. */
  lemma DoneIffReport(s0: Snapshot, query: string, content: Option<string>, o: Oracle)
    ensures var s := AfterRun(s0, query, content, o);
      (s.researchDone <==> s.reportResult.Some?)
      && (s.researchDone <==> Succeeded(PipelineWalk(query, content, o).calls, Drafting))
  {
    var w := PipelineWalk(query, content, o);
    WalkResults(query, content, o);
    StepsFollowWalk(s0, query, content, o);
  }

  /** Flags only go from false to true: afterwards `step_completed[k]` holds
      iff it held before or a successful stage call sets `k`; the set of keys
      stays the five steps. */
  lemma FlagsAfterRun(s0: Snapshot, query: string, content: Option<string>, o: Oracle, k: StepName)
    requires s0.WellFormed()
    ensures var s := AfterRun(s0, query, content, o);
      s.WellFormed()
      && s.stepCompleted[k] == (s0.stepCompleted[k] || Marks(PipelineWalk(query, content, o).calls, k))
  {
    MarkAllFlags(s0.stepCompleted, PipelineWalk(query, content, o).calls, k);
  }

  /** Without a truthy reference text neither gap analysis nor comparison is
      invoked, no comparison is stored, and the planning agent gets the bare
      one-line prompt. */
  lemma TopicOnlyRun(s0: Snapshot, query: string, content: Option<string>, o: Oracle)
    requires !Truthy(content)
    ensures var w := PipelineWalk(query, content, o);
      !Invoked(w.calls, GapAnalysis) && !Invoked(w.calls, Comparing)
      && w.calls[0].stage == Planning && Prompt(Break, w.calls[0].input) == BarePlanHeader + query
      && AfterRun(s0, query, content, o).comparisonResult.None?
  {
    var w := PipelineWalk(query, content, o);
    WalkGapIffContent(query, content, o);
    WalkComparisonIff(query, content, o);
    WalkInputs(query, content, o, 0);
  }

  /** The session after the script run in which "Start Research" is pressed
      with `upload` in the file widget: upload flag, stored reference text,
      then the run. */
  function AfterStart(s0: Snapshot, upload: Option<Upload>, query: string, o: Oracle): Snapshot
  {
    var content := UploadContent(upload);
    var flags := if upload.Some? then s0.stepCompleted[StepUpload := true] else s0.stepCompleted;
    AfterRun(s0.(stepCompleted := flags, originalContent := content), query, content, o)
  }

  /** That script run: the upload flag is set for any upload; the reference
      text is read, stored in `original_content` and handed to the run. The
      driver's own handler around the run never fires here, because every
      stage failure is caught inside `run_research`. */
  method StartResearch(s: SessionState, upload: Option<Upload>, query: string, o: Oracle)
    modifies s
    ensures s.View() == AfterStart(old(s.View()), upload, query, o)
  {
    if upload.Some? {
      s.stepCompleted := s.stepCompleted[StepUpload := true];
    }
    var content := ReadUpload(upload);
    s.originalContent := content;
    var _ := RunResearch(s, query, content, o);
  }

  /** After starting, `original_content` is what the reader made of the
      upload, the upload flag is set iff it was already set or a file was
      uploaded, and a missing or empty reference text means a topic-only run. */
  lemma StartFacts(s0: Snapshot, upload: Option<Upload>, query: string, o: Oracle)
    requires s0.WellFormed()
    ensures var s := AfterStart(s0, upload, query, o);
      s.WellFormed()
      && s.originalContent == UploadContent(upload)
      && s.stepCompleted[StepUpload] == (s0.stepCompleted[StepUpload] || upload.Some?)
      && (!Truthy(UploadContent(upload)) ==>
            var w := PipelineWalk(query, UploadContent(upload), o);
            !Invoked(w.calls, GapAnalysis) && !Invoked(w.calls, Comparing) && s.comparisonResult.None?)
  {
    var content := UploadContent(upload);
    var flags := if upload.Some? then s0.stepCompleted[StepUpload := true] else s0.stepCompleted;
    var s1 := s0.(stepCompleted := flags, originalContent := content);
    FlagsAfterRun(s1, query, content, o, StepUpload);
    if !Truthy(content) {
      TopicOnlyRun(s1, query, content, o);
    }
  }
}
