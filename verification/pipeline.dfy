/** The stage sequence of `run_research`, shared by both copies of the
    controller: which stage agents are invoked, in which order, from which
    inputs their prompts are built, and what each returned. Every
    `Runner.run` call is an oracle outcome given as input; the copies differ
    only in what they do with a failure, which their own modules specify on
    top of this walk. */
module Pipeline {
  import opened Basics
  import opened Records
  import opened Prompts

  /** The five stage agents, in pipeline order. */
  datatype Stage = GapAnalysis | Planning | Researching | Drafting | Comparing

  function Rank(st: Stage): nat
  {
    match st
    case GapAnalysis => 0
    case Planning => 1
    case Researching => 2
    case Drafting => 3
    case Comparing => 4
  }

  /** One `Runner.run` call: the stage, what its prompt was built from (the
      text is `Prompt(brk, input)`), and whether the stage succeeded. */
  datatype Call = Call(stage: Stage, input: StageInput, ok: bool)

  /** The research agent's run: the fact-tool calls it makes, then what it
      returns (its output is plain text: that agent declares no output type). */
  datatype ResearchCall = ResearchCall(factCalls: seq<FactCall>, result: Outcome<string>)

  /** What each stage agent does when invoked. */
  datatype Oracle = Oracle(
    gap: Outcome<AgentOutput<ResearchGaps>>,
    plan: Outcome<AgentOutput<ResearchPlan>>,
    research: ResearchCall,
    editor: Outcome<AgentOutput<ResearchReport>>,
    comparison: Outcome<AgentOutput<Comparison>>)

  /** The planning stage succeeds only with a `ResearchPlan` record: any other
      output raises at its first `.search_queries` access. */
  predicate PlanUsable(plan: Outcome<AgentOutput<ResearchPlan>>) {
    plan.Ok? && plan.value.Structured?
  }

  /** What one run did: the calls in order, the fact-tool calls made, the
      editor and comparison outputs obtained, and the stage whose failure
      ended the walk, if any. */
  datatype Walk = Walk(
    calls: seq<Call>,
    factCalls: seq<FactCall>,
    report: Option<AgentOutput<ResearchReport>>,
    comparison: Option<AgentOutput<Comparison>>,
    failed: Option<Stage>)

  /** The gap output the planning prompt sees: present exactly when gap
      analysis ran (and, planning being reached, succeeded). */
  function GapInput(content: Option<string>, o: Oracle): Option<AgentOutput<ResearchGaps>>
    requires !(Truthy(content) && o.gap.Fail?)
  {
    if Truthy(content) then Some(o.gap.value) else None
  }

  /** Gap analysis (only with a truthy reference text), planning, research,
      report writing, and comparison (only with a truthy reference text and a
      report); the walk stops at the first failing stage. */
  function PipelineWalk(query: string, content: Option<string>, o: Oracle): Walk
  {
    var hasDoc := Truthy(content);
    if hasDoc && o.gap.Fail? then
      Walk([Call(GapAnalysis, GapIn(content.value, query), false)], [], None, None, Some(GapAnalysis))
    else
      var pre := if hasDoc then [Call(GapAnalysis, GapIn(content.value, query), true)] else [];
      var planCall := Call(Planning, PlanIn(query, GapInput(content, o)), PlanUsable(o.plan));
      if !PlanUsable(o.plan) then
        Walk(pre + [planCall], [], None, None, Some(Planning))
      else
        var researchCall := Call(Researching, ResearchIn(o.plan.value.value), o.research.result.Ok?);
        var facts := o.research.factCalls;
        if o.research.result.Fail? then
          Walk(pre + [planCall] + [researchCall], facts, None, None, Some(Researching))
        else
          var draftCall := Call(Drafting, DraftIn(query, o.research.result.value), o.editor.Ok?);
          if o.editor.Fail? then
            Walk(pre + [planCall] + [researchCall] + [draftCall], facts, None, None, Some(Drafting))
          else if !hasDoc then
            Walk(pre + [planCall] + [researchCall] + [draftCall], facts, Some(o.editor.value), None, None)
          else
            var compareCall := Call(Comparing, CompareIn(content.value, o.editor.value), o.comparison.Ok?);
            Walk(pre + [planCall] + [researchCall] + [draftCall] + [compareCall], facts, Some(o.editor.value),
                 o.comparison.ToOption(), if o.comparison.Ok? then None else Some(Comparing))
  }

  /** Stage `st` was invoked. */
  predicate Invoked(calls: seq<Call>, st: Stage) {
    exists i :: 0 <= i < |calls| && calls[i].stage == st
  }

  /** Stage `st` was invoked and succeeded. */
  predicate Succeeded(calls: seq<Call>, st: Stage) {
    exists i :: 0 <= i < |calls| && calls[i].stage == st && calls[i].ok
  }

  /** The failure that ends the run early in src/agent.py: any stage but the
      comparison. */
  predicate Fatal(w: Walk) {
    w.failed.Some? && w.failed.value != Comparing
  }

  /** Stages are invoked in pipeline order, so each at most once; planning is
      invoked unless gap analysis ran and failed. */
  lemma WalkInOrder(query: string, content: Option<string>, o: Oracle)
    ensures var w := PipelineWalk(query, content, o);
      (forall i, j :: 0 <= i < j < |w.calls| ==> Rank(w.calls[i].stage) < Rank(w.calls[j].stage))
      && (Invoked(w.calls, Planning) <==> !(Truthy(content) && o.gap.Fail?))
  {
    var w := PipelineWalk(query, content, o);
    var p := if Truthy(content) then 1 else 0;
    if Truthy(content) && o.gap.Fail? {
      assert |w.calls| == 1;
    } else {
      assert w.calls[p].stage == Planning;
    }
  }

  /** Gap analysis runs iff the reference text is truthy, and then first. */
  lemma WalkGapIffContent(query: string, content: Option<string>, o: Oracle)
    ensures var w := PipelineWalk(query, content, o);
      (Invoked(w.calls, GapAnalysis) <==> Truthy(content))
      && (Truthy(content) ==> w.calls[0] == Call(GapAnalysis, GapIn(content.value, query), o.gap.Ok?))
  {
    var w := PipelineWalk(query, content, o);
    assert w.calls[0].stage == if Truthy(content) then GapAnalysis else Planning;
  }

  /** Comparison runs iff the reference text is truthy and the report stage
      succeeded. */
  lemma WalkComparisonIff(query: string, content: Option<string>, o: Oracle)
    ensures var w := PipelineWalk(query, content, o);
      Invoked(w.calls, Comparing) <==> Truthy(content) && Succeeded(w.calls, Drafting)
  {
    var w := PipelineWalk(query, content, o);
    var p := if Truthy(content) then 1 else 0;
    if Truthy(content) && o.gap.Fail? {
      assert |w.calls| == 1;
    } else if !PlanUsable(o.plan) {
      assert |w.calls| == p + 1;
    } else if o.research.result.Fail? {
      assert |w.calls| == p + 2;
    } else if o.editor.Fail? {
      assert |w.calls| == p + 3 && !w.calls[p + 2].ok;
    } else if !Truthy(content) {
      assert |w.calls| == 3 && w.calls[2].stage == Drafting && w.calls[2].ok;
    } else {
      assert |w.calls| == 5 && w.calls[3].stage == Drafting && w.calls[3].ok;
      assert w.calls[4].stage == Comparing;
    }
  }

  /** Every call but the last succeeded: the walk stops at its first failure,
      and `failed` names the stage of the failing (last) call. */
  lemma WalkStopsAtFailure(query: string, content: Option<string>, o: Oracle)
    ensures var w := PipelineWalk(query, content, o);
      |w.calls| > 0
      && (forall i :: 0 <= i < |w.calls| - 1 ==> w.calls[i].ok)
      && (w.failed.None? <==> w.calls[|w.calls| - 1].ok)
      && (w.failed.Some? ==> w.failed.value == w.calls[|w.calls| - 1].stage)
  {
  }

  /** What the walk produced: the editor output exactly when the report stage
      succeeded, the comparison output exactly when comparison succeeded, and
      the research agent's fact-tool calls exactly when research was invoked. */
  lemma WalkResults(query: string, content: Option<string>, o: Oracle)
    ensures var w := PipelineWalk(query, content, o);
      (w.report.Some? <==> Succeeded(w.calls, Drafting))
      && (w.report.Some? ==> w.report == Some(o.editor.value))
      && (w.comparison.Some? <==> Succeeded(w.calls, Comparing))
      && (w.comparison.Some? ==> w.comparison == Some(o.comparison.value))
      && w.factCalls == (if Invoked(w.calls, Researching) then o.research.factCalls else [])
  {
    var w := PipelineWalk(query, content, o);
    var p := if Truthy(content) then 1 else 0;
    if |w.calls| > p + 1 {
      assert w.calls[p + 1].stage == Researching;
    }
    if |w.calls| > p + 2 {
      assert w.calls[p + 2].stage == Drafting;
    }
    if |w.calls| > p + 3 {
      assert w.calls[p + 3].stage == Comparing;
    }
  }

  /** Each stage's prompt is built from the previous stage's output. */
  lemma WalkInputs(query: string, content: Option<string>, o: Oracle, i: int)
    requires 0 <= i < |PipelineWalk(query, content, o).calls|
    ensures var c := PipelineWalk(query, content, o).calls[i];
      (c.stage == GapAnalysis ==> Truthy(content) && c.input == GapIn(content.value, query))
      && (c.stage == Planning ==>
            !(Truthy(content) && o.gap.Fail?) && c.input == PlanIn(query, GapInput(content, o)))
      && (c.stage == Researching ==> PlanUsable(o.plan) && c.input == ResearchIn(o.plan.value.value))
      && (c.stage == Drafting ==> o.research.result.Ok? && c.input == DraftIn(query, o.research.result.value))
      && (c.stage == Comparing ==>
            Truthy(content) && o.editor.Ok? && c.input == CompareIn(content.value, o.editor.value))
  {
  }
}
