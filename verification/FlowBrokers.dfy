/**
 The dry run does not pause at a Broker. It goes on as if the Broker were an authenticator: its report is
 that of the flow with every Broker replaced by one, which a step walks to the end.
 */
module FlowBrokers {
  import opened Prelude
  import opened FlowDsl
  import opened FlowGraph
  import opened FlowCompile
  import opened FlowExecutor
  import opened FlowRuns
  import opened FlowDryRun

  function Replaced(node: FlowNode): FlowNode {
    if node.kind.Broker? then node.(kind := Authenticator(node.kind.idpAlias)) else node
  }

  /** The flow with every Broker turned into an authenticator; ids, positions and edges stay. */
  function WithoutBrokers(flow: CompiledFlow): (r: CompiledFlow)
    ensures |r.definition.nodes| == |flow.definition.nodes|
    ensures forall i :: 0 <= i < |flow.definition.nodes| ==> r.definition.nodes[i] == Replaced(flow.definition.nodes[i])
    ensures r.byId == flow.byId && r.outbound == flow.outbound && r.definition.edges == flow.definition.edges
    ensures r.definition.start == flow.definition.start
  {
    var nodes := flow.definition.nodes;
    flow.(definition := flow.definition.(nodes := seq(|nodes|, i requires 0 <= i < |nodes| => Replaced(nodes[i]))))
  }

  lemma SameSuccesses(flow: CompiledFlow, id: NodeId)
    requires IsSuccess(flow.definition, id)
    ensures IsSuccess(WithoutBrokers(flow).definition, id)
  {
    var r := WithoutBrokers(flow);
    var n :| n in flow.definition.nodes && n.id == id && n.kind.SuccessTerminal?;
    var i :| 0 <= i < |flow.definition.nodes| && flow.definition.nodes[i] == n;
    assert r.definition.nodes[i] in r.definition.nodes;
  }

  lemma ReplacedValid(flow: CompiledFlow)
    requires flow.Valid()
    ensures WithoutBrokers(flow).Valid()
    ensures forall id :: flow.Knows(id) <==> WithoutBrokers(flow).Knows(id)
    ensures forall id :: flow.Knows(id) ==> WithoutBrokers(flow).Node(id) == Replaced(flow.Node(id))
  {
    hide WithoutBrokers;
    var r := WithoutBrokers(flow);
    var id :| IsSuccess(flow.definition, id) && Reachable(flow.definition.edges, flow.definition.start, id);
    SameSuccesses(flow, id);
    assert SuccessReachable(r.definition);
    forall n | n in r.definition.nodes && n.kind.IsTerminal()
      ensures n.id !in r.outbound
    {
      var i :| 0 <= i < |r.definition.nodes| && r.definition.nodes[i] == n;
      assert flow.definition.nodes[i] in flow.definition.nodes;
    }
  }

  /** A round at a Broker is the round at the authenticator that replaces it. */
  lemma RoundSame(flow: CompiledFlow, current: NodeId, ctx: FlowContext, pins: Pins)
    requires flow.Valid() && flow.Knows(current) && WithoutBrokers(flow).Knows(current)
    ensures var a, b := WalkRound(flow, current, ctx, pins), WalkRound(WithoutBrokers(flow), current, ctx, pins);
            && (a.Go? <==> b.Go?) && a.step.node == b.step.node && a.step.decision == b.step.decision
            && (a.Go? ==> a.next == b.next)
            && (a.Stop? ==> a.terminal == b.terminal && a.reason == b.reason)
  {
    hide flow.Valid, WithoutBrokers, flow.NextWithGuard, KindLabel, OrElse, Preferred;
    var node := flow.Node(current);
    NodeSame(flow, current);
    PreferredSame(node, pins);
    LookupSame(flow, node.id, Preferred(node, pins), ctx);
    LookupSame(flow, node.id, Otherwise, ctx);
  }

  lemma NodeSame(flow: CompiledFlow, id: NodeId)
    requires flow.Valid() && flow.Knows(id) && WithoutBrokers(flow).Knows(id)
    ensures WithoutBrokers(flow).Node(id) == Replaced(flow.Node(id))
  {
    hide flow.Valid, WithoutBrokers;
    ReplacedValid(flow);
  }

  lemma PreferredSame(node: FlowNode, pins: Pins)
    ensures Preferred(Replaced(node), pins) == Preferred(node, pins)
  {
  }

  lemma LookupSame(flow: CompiledFlow, n: NodeId, on: EdgeCondition, ctx: FlowContext)
    ensures WithoutBrokers(flow).NextWithGuard(n, on, ctx) == flow.NextWithGuard(n, on, ctx)
  {
    hide FirstMatch;
  }

  /** Two reports that agree in everything but the kinds of the nodes. */
  ghost predicate Alike(a: DryRunReport, b: DryRunReport) {
    && StepNodes(a.steps) == StepNodes(b.steps) && a.terminal == b.terminal && a.reason == b.reason
    && (forall i :: 0 <= i < |a.steps| && i < |b.steps| ==> a.steps[i].decision == b.steps[i].decision)
  }

  lemma {:induction false} WalkSame(flow: CompiledFlow, current: NodeId, ctx: FlowContext, pins: Pins,
                                    xs: seq<DryRunStep>, ys: seq<DryRunStep>, n: nat)
    requires flow.Valid() && flow.Knows(current) && WithoutBrokers(flow).Valid() && WithoutBrokers(flow).Knows(current)
    requires |xs| == |ys| && forall i :: 0 <= i < |xs| ==> xs[i].node == ys[i].node && xs[i].decision == ys[i].decision
    ensures Alike(WalkWithin(flow, current, ctx, pins, xs, n),
                  WalkWithin(WithoutBrokers(flow), current, ctx, pins, ys, n))
    decreases n
  {
    var r := WithoutBrokers(flow);
    hide flow.Valid, r.Valid, WithoutBrokers, WalkRound, WalkWithin;
    WalkUnfold(flow, current, ctx, pins, xs, n);
    WalkUnfold(r, current, ctx, pins, ys, n);
    if n == 0 {
      assert StepNodes(xs) == StepNodes(ys);
    } else {
      var a, b := WalkRound(flow, current, ctx, pins), WalkRound(r, current, ctx, pins);
      RoundSame(flow, current, ctx, pins);
      if a.Go? {
        WalkSame(flow, a.next, ctx, pins, xs + [a.step], ys + [b.step], n - 1);
      } else {
        assert StepNodes(xs + [a.step]) == StepNodes(ys + [b.step]);
      }
    }
  }

  /**
   The simulation past Brokers. Against a dispatcher that answers by the pins, one unexpired submitted step
   of the flow with its Brokers replaced visits the dry run's nodes and ends the dry run's way, whether or
   not the walk met a Broker.
   */
  lemma DryRunSimulatesPastBrokers(flow: CompiledFlow, st: State, form: map<string, string>, pins: Pins,
                                   d: Dispatcher, now: int)
    requires flow.Valid() && st.currentNode == flow.definition.start && now <= st.expiresAt && AnswersByPins(d, pins)
    ensures WithoutBrokers(flow).Valid() && WithoutBrokers(flow).Knows(st.currentNode)
    ensures var r := WalkWithin(flow, flow.definition.start, st.context, pins, [], MAX_STEPS);
            var p := StepWithin(WithoutBrokers(flow), st, [], Submit(form), d, now, MAX_STEPS);
            && NodesOf(p.log) == StepNodes(r.steps)
            && StepEnding(WithoutBrokers(flow), p.state.currentNode, p.result) == ReportEnding(r.terminal, r.reason)
  {
    StartKnown(flow);
    ReplacedValid(flow);
    var b := WithoutBrokers(flow);
    hide flow.Valid, b.Valid, WalkWithin, StepWithin, AnswersByPins;
    WalkSame(flow, flow.definition.start, st.context, pins, [], [], MAX_STEPS);
    DryRunSimulatesStep(b, st, form, pins, d, now);
    NoBrokers(flow, StepNodes(WalkWithin(b, flow.definition.start, st.context, pins, [], MAX_STEPS).steps));
  }

  lemma NoBrokers(flow: CompiledFlow, nodes: seq<NodeId>)
    ensures BrokerFree(WithoutBrokers(flow), nodes)
  {
  }

  // ---- What the report says of each step ----

  /** Kinds are told apart by their labels, and only by what they are. */
  lemma KindLabelsDistinct(a: NodeKind, b: NodeKind)
    ensures KindLabel(a) == KindLabel(b) <==>
              || (a.Start? && b.Start?) || (a.Render? && b.Render?) || (a.Authenticator? && b.Authenticator?)
              || (a.Broker? && b.Broker?) || (a.Switch? && b.Switch?) || (a.SubFlow? && b.SubFlow?)
              || (a.Action? && b.Action?) || (a.SuccessTerminal? && b.SuccessTerminal?)
              || (a.FailureTerminal? && b.FailureTerminal?)
  {
  }

  /** Each step carries the kind of its node; only the last step of a stuck walk is skipped. */
  ghost predicate StepsTell(flow: CompiledFlow, r: DryRunReport) {
    && (forall i :: 0 <= i < |r.steps| ==>
          && flow.Knows(r.steps[i].node) && r.steps[i].kind == KindLabel(flow.Node(r.steps[i].node).kind)
          && (r.steps[i].decision == Skipped <==>
                i == |r.steps| - 1 && ReportEnding(r.terminal, r.reason) == Stuck))
    && (r.reason.Some? <==> r.terminal == EndIncomplete)
    && (ReportEnding(r.terminal, r.reason) == Stuck ==>
          r.steps != [] && r.reason.value.NoEdge? && r.reason.value.node == r.steps[|r.steps| - 1].node)
  }

  lemma {:induction false} WalkTells(flow: CompiledFlow, current: NodeId, ctx: FlowContext, pins: Pins,
                                     steps: seq<DryRunStep>, n: nat)
    requires flow.Valid() && flow.Knows(current)
    requires forall i :: 0 <= i < |steps| ==>
               && flow.Knows(steps[i].node) && steps[i].kind == KindLabel(flow.Node(steps[i].node).kind)
               && steps[i].decision == Taken
    ensures StepsTell(flow, WalkWithin(flow, current, ctx, pins, steps, n))
    decreases n
  {
    hide WalkWithin, WalkRound, KindLabel, flow.Valid;
    WalkUnfold(flow, current, ctx, pins, steps, n);
    if n == 0 {
    } else {
      RoundTells(flow, current, ctx, pins);
      var round := WalkRound(flow, current, ctx, pins);
      if round.Go? {
        WalkTells(flow, round.next, ctx, pins, steps + [round.step], n - 1);
      }
    }
  }

  lemma RoundTells(flow: CompiledFlow, current: NodeId, ctx: FlowContext, pins: Pins)
    requires flow.Valid() && flow.Knows(current)
    ensures var round := WalkRound(flow, current, ctx, pins);
            && round.step.node == current && round.step.kind == KindLabel(flow.Node(current).kind)
            && (round.step.decision == Skipped <==> round.Stop? && round.terminal == EndIncomplete)
            && (round.Stop? ==> (round.reason.Some? <==> round.terminal == EndIncomplete))
            && (round.Stop? && round.reason.Some? ==> round.reason.value.NoEdge? && round.reason.value.node == current)
  {
    hide flow.NextWithGuard, KindLabel;
    assert flow.Node(current).id == current;
    hide flow.Valid;
  }

  lemma ReportTells(flow: CompiledFlow, ctx: FlowContext, pins: Pins)
    requires flow.Valid()
    ensures flow.Knows(flow.definition.start)
    ensures StepsTell(flow, WalkWithin(flow, flow.definition.start, ctx, pins, [], MAX_STEPS))
  {
    StartKnown(flow);
    hide flow.Valid, WalkWithin, StepsTell;
    WalkTells(flow, flow.definition.start, ctx, pins, [], MAX_STEPS);
  }
}
