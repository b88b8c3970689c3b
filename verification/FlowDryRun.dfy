/** The administrator's dry run: a bounded, pure walk that assumes an outcome for every authenticator. */
module FlowDryRun {
  import opened Prelude
  import opened FlowDsl
  import opened FlowGraph
  import opened FlowCompile
  import opened FlowExecutor
  import opened FlowRuns

  const MAX_STEPS: nat := 256

  datatype ExpectedOutcome = ExpectSuccess | ExpectFailure | ExpectSkip

  type Pins = map<NodeId, ExpectedOutcome>

  function AsEdgeCondition(o: ExpectedOutcome): EdgeCondition {
    match o
    case ExpectSuccess => OnSuccess
    case ExpectFailure => OnFailure
    case ExpectSkip => Otherwise
  }

  datatype Decision = Taken | Skipped

  datatype DryRunStep = DryRunStep(node: NodeId, kind: string, decision: Decision)

  datatype TerminalState = EndSuccess | EndFailure | EndIncomplete

  /** Why a walk is incomplete; the prose of the messages is not modelled. */
  datatype Reason = NoEdge(node: NodeId, preferred: EdgeCondition) | OverBudget

  datatype DryRunReport = DryRunReport(steps: seq<DryRunStep>, terminal: TerminalState, reason: Option<Reason>)

  function KindLabel(kind: NodeKind): string {
    match kind
    case Start(_) => "start"
    case Render(_) => "render"
    case Authenticator(_) => "authenticator"
    case Broker(_) => "broker"
    case Switch(_) => "switch"
    case SubFlow(_) => "sub-flow"
    case Action(_) => "action"
    case SuccessTerminal(_, _) => "success"
    case FailureTerminal(_) => "failure"
  }

  /** The label a node is assumed to emit. */
  function Preferred(node: FlowNode, pins: Pins): EdgeCondition {
    match node.kind
    case Switch(condition) => OnStatus(condition)
    case Authenticator(_) => if node.id in pins then AsEdgeCondition(pins[node.id]) else OnSuccess
    case Broker(_) => if node.id in pins then AsEdgeCondition(pins[node.id]) else OnSuccess
    case Render(_) => OnSuccess
    case _ => Otherwise
  }

  function ChosenNext(flow: CompiledFlow, node: FlowNode, ctx: FlowContext, pins: Pins): Option<NodeId> {
    OrElse(flow.NextWithGuard(node.id, Preferred(node, pins), ctx), flow.NextWithGuard(node.id, Otherwise, ctx))
  }

  /** One round of the walk: it ends with a report or goes on to another node. */
  datatype Round =
    | Stop(step: DryRunStep, terminal: TerminalState, reason: Option<Reason>)
    | Go(step: DryRunStep, next: NodeId)

  function WalkRound(flow: CompiledFlow, current: NodeId, ctx: FlowContext, pins: Pins): Round
    requires flow.Knows(current)
  {
    var node := flow.Node(current);
    var taken := DryRunStep(node.id, KindLabel(node.kind), Taken);
    if node.kind.SuccessTerminal? then Stop(taken, EndSuccess, None)
    else if node.kind.FailureTerminal? then Stop(taken, EndFailure, None)
    else
      match ChosenNext(flow, node, ctx, pins)
      case Some(next) => Go(taken, next)
      case None => Stop(taken.(decision := Skipped), EndIncomplete, Some(NoEdge(node.id, Preferred(node, pins))))
  }

  lemma RoundGoesToKnown(flow: CompiledFlow, current: NodeId, ctx: FlowContext, pins: Pins)
    requires flow.Valid() && flow.Knows(current)
    ensures var r := WalkRound(flow, current, ctx, pins);
            && r.step.node == current
            && (r.Stop? ==> r.reason != Some(OverBudget))
            && (r.Go? ==> flow.Knows(r.next) && HasEdge(flow.definition.edges, current, r.next))
  {
    var r := WalkRound(flow, current, ctx, pins);
    if r.Go? {
      var on := Preferred(flow.Node(current), pins);
      FallbackAbsorbed(flow, current, on, ctx);
      NextIsEdge(flow, current, on, ctx);
    }
  }

  /** The walk with a budget of `n` rounds. */
  function WalkWithin(flow: CompiledFlow, current: NodeId, ctx: FlowContext, pins: Pins, steps: seq<DryRunStep>, n: nat)
    : DryRunReport
    requires flow.Valid() && flow.Knows(current)
    decreases n
  {
    if n == 0 then DryRunReport(steps, EndIncomplete, Some(OverBudget))
    else
      RoundGoesToKnown(flow, current, ctx, pins);
      match WalkRound(flow, current, ctx, pins)
      case Stop(step, terminal, reason) => DryRunReport(steps + [step], terminal, reason)
      case Go(step, next) => WalkWithin(flow, next, ctx, pins, steps + [step], n - 1)
  }

  lemma WalkUnfold(flow: CompiledFlow, current: NodeId, ctx: FlowContext, pins: Pins, steps: seq<DryRunStep>, n: nat)
    requires flow.Valid() && flow.Knows(current)
    ensures n == 0 ==>
              WalkWithin(flow, current, ctx, pins, steps, n) == DryRunReport(steps, EndIncomplete, Some(OverBudget))
    ensures n > 0 ==>
              var round := WalkRound(flow, current, ctx, pins);
              && (round.Go? ==> flow.Knows(round.next))
              && WalkWithin(flow, current, ctx, pins, steps, n)
                 == if round.Stop? then DryRunReport(steps + [round.step], round.terminal, round.reason)
                    else WalkWithin(flow, round.next, ctx, pins, steps + [round.step], n - 1)
  {
    hide WalkRound;
    RoundGoesToKnown(flow, current, ctx, pins);
  }

  method DryRunCompiled(flow: CompiledFlow, ctx: FlowContext, pins: Pins) returns (report: DryRunReport)
    requires flow.Valid()
    ensures report == WalkWithin(flow, flow.definition.start, ctx, pins, [], MAX_STEPS)
  {
    report := Walk(flow, ctx, pins, MAX_STEPS);
  }

  /** The bounded loop of the source. */
  method Walk(flow: CompiledFlow, ctx: FlowContext, pins: Pins, budget: nat) returns (report: DryRunReport)
    requires flow.Valid()
    ensures report == WalkWithin(flow, flow.definition.start, ctx, pins, [], budget)
  {
    hide flow.Valid, WalkWithin, WalkRound;
    StartKnown(flow);
    var steps: seq<DryRunStep> := [];
    var current := flow.definition.start;
    ghost var target := WalkWithin(flow, current, ctx, pins, steps, budget);
    for i := 0 to budget
      invariant flow.Knows(current)
      invariant WalkWithin(flow, current, ctx, pins, steps, budget - i) == target
    {
      WalkUnfold(flow, current, ctx, pins, steps, budget - i);
      match WalkRound(flow, current, ctx, pins) {
        case Stop(step, terminal, reason) =>
          return DryRunReport(steps + [step], terminal, reason);
        case Go(step, next) =>
          steps := steps + [step];
          current := next;
      }
    }
    WalkUnfold(flow, current, ctx, pins, steps, 0);
    report := DryRunReport(steps, EndIncomplete, Some(OverBudget));
  }

  // ---- The dry run simulates the executor ----

  /** A dispatcher that answers by the pins and adds nothing to the context. */
  function PinnedAnswer(pins: Pins, node: NodeId): Dispatched {
    if node !in pins || pins[node].ExpectSuccess? then Ok(AnswerSuccess([], 0, None, map[]))
    else if pins[node].ExpectFailure? then Ok(AnswerFailure(InvalidCredential))
    else Ok(AnswerSkip)
  }

  ghost predicate AnswersByPins(d: Dispatcher, pins: Pins) {
    forall k: nat, urn: string, st: State, input: StepInput ::
      d(k, urn, st, input) == PinnedAnswer(pins, st.currentNode)
  }

  /** How a walk ends, in words common to both walkers. `Paused` is the executor waiting for input. */
  datatype Ending = Succeeds | Fails | Stuck | Unfinished | Paused

  function ReportEnding(terminal: TerminalState, reason: Option<Reason>): Ending {
    match terminal
    case EndSuccess => Succeeds
    case EndFailure => Fails
    case EndIncomplete => if reason == Some(OverBudget) then Unfinished else Stuck
  }

  /** `Stuck` is a dead end, or a failed authenticator with no usable edge. */
  function StepEnding(flow: CompiledFlow, at: NodeId, result: Option<StepResult>): Ending
    requires flow.Knows(at)
  {
    match result
    case None => Unfinished
    case Some(Ok(Done(_))) => Succeeds
    case Some(Ok(Failed(_))) => if flow.Node(at).kind.FailureTerminal? then Fails else Stuck
    case Some(Err(DeadEnd(_))) => Stuck
    case _ => Paused
  }

  function StepNodes(steps: seq<DryRunStep>): (nodes: seq<NodeId>)
    ensures |nodes| == |steps| && forall i :: 0 <= i < |steps| ==> nodes[i] == steps[i].node
  {
    seq(|steps|, i requires 0 <= i < |steps| => steps[i].node)
  }

  /** Outside Broker nodes, one executor iteration and one dry-run round make the same decision. */
  lemma RoundMatchesIteration(flow: CompiledFlow, st: State, form: map<string, string>, pins: Pins,
                              d: Dispatcher, k: nat, now: int)
    requires flow.Valid() && flow.Knows(st.currentNode) && AnswersByPins(d, pins)
    ensures var it := Iterate(flow, st, Submit(form), d, k, now);
            && it.visit.node == st.currentNode && it.state.context == st.context
            && if flow.Node(st.currentNode).kind.Broker? then
                 it.state.currentNode == st.currentNode && it.result.Some?
                 && StepEnding(flow, st.currentNode, it.result) == Paused
               else
                 match WalkRound(flow, st.currentNode, st.context, pins)
                 case Go(_, next) => it.result.None? && it.state.currentNode == next
                 case Stop(_, terminal, reason) =>
                   && it.state.currentNode == st.currentNode && it.result.Some?
                   && reason != Some(OverBudget)
                   && ReportEnding(terminal, reason) == StepEnding(flow, st.currentNode, it.result)
  {
    var node := flow.Node(st.currentNode);
    assert node.id == st.currentNode;
    hide flow.Valid, flow.NextWithGuard, KindLabel, OrElse, AfterAnswer, BrokerTemplate;
    FallbackAbsorbed(flow, node.id, Preferred(node, pins), st.context);
    if node.kind.Authenticator? {
      PinnedTurn(flow, st, pins, now);
      assert d(k, node.kind.providerUrn, st, Submit(form)) == PinnedAnswer(pins, st.currentNode);
    } else if Routes(node.kind) {
      hide Iterate;
      RoutingTurn(flow, st, form, d, k, now);
    }
  }

  /** Nodes that only route, once a form has been submitted. */
  predicate Routes(kind: NodeKind) {
    kind.Start? || kind.Render? || kind.Switch? || kind.Action? || kind.SubFlow?
  }

  lemma RoutingTurn(flow: CompiledFlow, st: State, form: map<string, string>, d: Dispatcher, k: nat, now: int)
    requires flow.Knows(st.currentNode) && Routes(flow.Node(st.currentNode).kind)
    ensures var on := AskedLabel(flow.Node(st.currentNode).kind, None);
            var next := flow.NextWithGuard(st.currentNode, on, st.context);
            var it := Iterate(flow, st, Submit(form), d, k, now);
            && it.visit.node == st.currentNode && it.state.context == st.context
            && if next.Some? then it.result.None? && it.state.currentNode == next.value
               else it.state.currentNode == st.currentNode && it.result == Some(Err(DeadEnd(st.currentNode)))
  {
    hide flow.NextWithGuard, OrElse;
    FallbackAbsorbed(flow, st.currentNode, AskedLabel(flow.Node(st.currentNode).kind, None), st.context);
  }

  /** What a pinned answer makes the executor do. */
  lemma PinnedTurn(flow: CompiledFlow, st: State, pins: Pins, now: int)
    ensures var on := if st.currentNode in pins then AsEdgeCondition(pins[st.currentNode]) else OnSuccess;
            var next := flow.NextWithGuard(st.currentNode, on, st.context);
            var it := AfterAnswer(flow, st, PinnedAnswer(pins, st.currentNode), now);
            && it.visit.node == st.currentNode && it.state.context == st.context
            && if next.Some? then it.result.None? && it.state.currentNode == next.value
               else
                 && it.state.currentNode == st.currentNode && it.result.Some?
                 && ( || it.result.value == Err(DeadEnd(st.currentNode))
                      || (it.result.value.Ok? && it.result.value.value.Failed?))
  {
    hide flow.NextWithGuard, OrElse, Merge;
    NothingMerged(st.context);
    FallbackAbsorbed(flow, st.currentNode, OnSuccess, st.context);
  }

  /** Positions of Broker nodes among the nodes walked. */
  ghost predicate BrokerFree(flow: CompiledFlow, nodes: seq<NodeId>) {
    forall i :: 0 <= i < |nodes| && flow.Knows(nodes[i]) ==> !flow.Node(nodes[i]).kind.Broker?
  }

  /**
   The dry run and the step tell the same story: the same nodes and the same ending, unless
   the walk meets a Broker, where the step pauses and the dry run goes on.
   */
  ghost predicate SameStory(flow: CompiledFlow, walked: seq<NodeId>, ending: Ending,
                            visited: seq<NodeId>, outcome: Ending) {
    if BrokerFree(flow, walked) then visited == walked && outcome == ending
    else
      && visited <= walked && |visited| > 0 && outcome == Paused
      && BrokerFree(flow, visited[..|visited| - 1])
      && flow.Knows(visited[|visited| - 1]) && flow.Node(visited[|visited| - 1]).kind.Broker?
  }

  lemma {:induction false} WalkSimulatesLoop(flow: CompiledFlow, st: State, log: seq<Visit>, steps: seq<DryRunStep>,
                                             form: map<string, string>, pins: Pins, d: Dispatcher, now: int, n: nat)
    requires flow.Valid() && flow.Knows(st.currentNode) && AnswersByPins(d, pins)
    ensures var p := Loop(flow, st, log, Submit(form), d, now, n);
            var r := WalkWithin(flow, st.currentNode, st.context, pins, steps, n);
            && steps <= r.steps
            && SameStory(flow, StepNodes(r.steps[|steps|..]), ReportEnding(r.terminal, r.reason),
                         NodesOf(p.log[|log|..]), StepEnding(flow, p.state.currentNode, p.result))
    decreases n
  {
    hide Iterate, WalkRound, flow.Valid, Loop, WalkWithin, AnswersByPins, SameStory, NodesOf, StepNodes;
    LoopUnfold(flow, st, log, Submit(form), d, now, n);
    WalkUnfold(flow, st.currentNode, st.context, pins, steps, n);
    ShortStories(flow, st.currentNode, ReportEnding(EndIncomplete, Some(OverBudget)));
    if n == 0 {
    } else {
      var p := Loop(flow, st, log, Submit(form), d, now, n);
      var r := WalkWithin(flow, st.currentNode, st.context, pins, steps, n);
      var it := Iterate(flow, st, Submit(form), d, |log|, now);
      var round := WalkRound(flow, st.currentNode, st.context, pins);
      RoundMatchesIteration(flow, st, form, pins, d, |log|, now);
      RoundGoesToKnown(flow, st.currentNode, st.context, pins);
      WalkGrows(flow, st.currentNode, st.context, pins, steps, n);
      var longer, more := log + [it.visit], steps + [round.step];
      LogSplits(p.log, longer);
      StepsSplit(r.steps, more);
      var walked, visited := StepNodes(r.steps[|more|..]), NodesOf(p.log[|longer|..]);
      var ending, outcome := ReportEnding(r.terminal, r.reason), StepEnding(flow, p.state.currentNode, p.result);
      if flow.Node(st.currentNode).kind.Broker? {
        BrokerStory(flow, st.currentNode, walked, ending);
        assert [st.currentNode] + visited == [st.currentNode];
      } else if round.Go? {
        WalkSimulatesLoop(flow, it.state, longer, more, form, pins, d, now, n - 1);
        StoryExtends(flow, st.currentNode, walked, ending, visited, outcome);
      } else {
        ShortStories(flow, st.currentNode, ending);
        assert [st.currentNode] + visited == [st.currentNode] && [st.currentNode] + walked == [st.currentNode];
      }
    }
  }

  lemma ShortStories(flow: CompiledFlow, node: NodeId, ending: Ending)
    requires flow.Knows(node)
    ensures SameStory(flow, [], ending, [], ending)
    ensures !flow.Node(node).kind.Broker? ==> SameStory(flow, [node], ending, [node], ending)
  {
  }

  lemma BrokerStory(flow: CompiledFlow, node: NodeId, rest: seq<NodeId>, ending: Ending)
    requires flow.Knows(node) && flow.Node(node).kind.Broker?
    ensures SameStory(flow, [node] + rest, ending, [node], Paused)
  {
    assert ([node] + rest)[0] == node;
  }

  lemma {:induction false} WalkGrows(flow: CompiledFlow, current: NodeId, ctx: FlowContext, pins: Pins,
                                     steps: seq<DryRunStep>, n: nat)
    requires flow.Valid() && flow.Knows(current) && n > 0
    ensures steps + [WalkRound(flow, current, ctx, pins).step] <= WalkWithin(flow, current, ctx, pins, steps, n).steps
    decreases n
  {
    hide WalkRound, flow.Valid;
    RoundGoesToKnown(flow, current, ctx, pins);
    var round := WalkRound(flow, current, ctx, pins);
    if n > 1 && round.Go? {
      WalkGrows(flow, round.next, ctx, pins, steps + [round.step], n - 1);
    }
  }

  lemma LogSplits(log: seq<Visit>, prefix: seq<Visit>)
    requires |prefix| > 0 && prefix <= log
    ensures NodesOf(log[|prefix| - 1..]) == [prefix[|prefix| - 1].node] + NodesOf(log[|prefix|..])
  {
    assert log[|prefix| - 1..] == [log[|prefix| - 1]] + log[|prefix|..];
  }

  lemma StepsSplit(steps: seq<DryRunStep>, prefix: seq<DryRunStep>)
    requires |prefix| > 0 && prefix <= steps
    ensures StepNodes(steps[|prefix| - 1..]) == [prefix[|prefix| - 1].node] + StepNodes(steps[|prefix|..])
  {
    assert steps[|prefix| - 1..] == [steps[|prefix| - 1]] + steps[|prefix|..];
  }

  lemma StoryExtends(flow: CompiledFlow, node: NodeId, walked: seq<NodeId>, ending: Ending,
                     visited: seq<NodeId>, outcome: Ending)
    requires flow.Knows(node) && !flow.Node(node).kind.Broker?
    requires SameStory(flow, walked, ending, visited, outcome)
    ensures SameStory(flow, [node] + walked, ending, [node] + visited, outcome)
  {
    var longWalk, longVisit := [node] + walked, [node] + visited;
    assert longWalk[1..] == walked;
    assert BrokerFree(flow, walked) <==> BrokerFree(flow, longWalk) by {
      assert forall i :: 0 <= i < |walked| ==> walked[i] == longWalk[i + 1];
    }
    if !BrokerFree(flow, walked) {
      assert longVisit[..|longVisit| - 1] == [node] + visited[..|visited| - 1];
    }
  }

  /**
   Simulation. Against a dispatcher that answers by the pins, one unexpired `step` with a submitted
   form visits the dry run's nodes and ends the dry run's way exactly when the walk meets no Broker;
   if it meets one, the step pauses at the first Broker, having visited the same nodes up to there.
   */
  lemma DryRunSimulatesStep(flow: CompiledFlow, st: State, form: map<string, string>, pins: Pins,
                            d: Dispatcher, now: int)
    requires flow.Valid() && st.currentNode == flow.definition.start && now <= st.expiresAt && AnswersByPins(d, pins)
    ensures var r := WalkWithin(flow, flow.definition.start, st.context, pins, [], MAX_STEPS);
            var p := StepWithin(flow, st, [], Submit(form), d, now, MAX_STEPS);
            var ending, outcome := ReportEnding(r.terminal, r.reason), StepEnding(flow, p.state.currentNode, p.result);
            && SameStory(flow, StepNodes(r.steps), ending, NodesOf(p.log), outcome)
            && (outcome == ending <==> BrokerFree(flow, StepNodes(r.steps)))
  {
    var begun := st.(lastActivityAt := now);
    WalkSimulatesLoop(flow, begun, [], [], form, pins, d, now, MAX_STEPS);
    var r := WalkWithin(flow, flow.definition.start, st.context, pins, [], MAX_STEPS);
    var p := Loop(flow, begun, [], Submit(form), d, now, MAX_STEPS);
    assert r.steps[0..] == r.steps && p.log[0..] == p.log;
  }

  // ---- The budget report is exact ----

  /** The node reached after `i` moves of the walk from `current`, if it makes that many. */
  function WalkFrom(flow: CompiledFlow, ctx: FlowContext, pins: Pins, current: NodeId, i: nat): (r: Option<NodeId>)
    requires flow.Valid() && flow.Knows(current)
    ensures r.Some? ==> flow.Knows(r.value)
    decreases i
  {
    if i == 0 then Some(current)
    else
      RoundGoesToKnown(flow, current, ctx, pins);
      match WalkRound(flow, current, ctx, pins)
      case Go(_, next) => WalkFrom(flow, ctx, pins, next, i - 1)
      case Stop(_, _, _) => None
  }

  ghost predicate Revisits(flow: CompiledFlow, ctx: FlowContext, pins: Pins)
    requires flow.Valid()
  {
    exists i: nat, j: nat :: i < j && RevisitsAt(flow, ctx, pins, i, j)
  }

  ghost predicate RevisitsAt(flow: CompiledFlow, ctx: FlowContext, pins: Pins, i: nat, j: nat)
    requires flow.Valid()
  {
    var at := WalkFrom(flow, ctx, pins, flow.definition.start, j);
    at.Some? && WalkFrom(flow, ctx, pins, flow.definition.start, i) == at
  }

  lemma {:induction false} OverBudgetMeansMoves(flow: CompiledFlow, ctx: FlowContext, pins: Pins, current: NodeId,
                                                steps: seq<DryRunStep>, n: nat)
    requires flow.Valid() && flow.Knows(current)
    ensures WalkWithin(flow, current, ctx, pins, steps, n).reason == Some(OverBudget)
            <==> WalkFrom(flow, ctx, pins, current, n).Some?
    decreases n
  {
    hide WalkRound, WalkWithin, flow.Valid;
    WalkUnfold(flow, current, ctx, pins, steps, n);
    if n == 0 {
    } else {
      RoundGoesToKnown(flow, current, ctx, pins);
      var round := WalkRound(flow, current, ctx, pins);
      if round.Go? {
        OverBudgetMeansMoves(flow, ctx, pins, round.next, steps + [round.step], n - 1);
      }
    }
  }

  /** The walk is deterministic: walking on from where `i` moves lead is walking `i` moves further. */
  lemma {:induction false} WalkComposes(flow: CompiledFlow, ctx: FlowContext, pins: Pins, current: NodeId,
                                        i: nat, m: nat)
    requires flow.Valid() && flow.Knows(current)
    ensures var mid := WalkFrom(flow, ctx, pins, current, i);
            WalkFrom(flow, ctx, pins, current, i + m)
            == if mid.Some? then WalkFrom(flow, ctx, pins, mid.value, m) else None
    decreases i
  {
    hide WalkRound, flow.Valid;
    if i == 0 {
    } else {
      RoundGoesToKnown(flow, current, ctx, pins);
      var round := WalkRound(flow, current, ctx, pins);
      assert i + m - 1 == (i - 1) + m;
      if round.Go? {
        WalkComposes(flow, ctx, pins, round.next, i - 1, m);
      }
    }
  }

  /** A walk that comes back to where it was goes on for ever. */
  lemma {:induction false} LoopGoesOn(flow: CompiledFlow, ctx: FlowContext, pins: Pins, current: NodeId, p: nat, n: nat)
    requires flow.Valid() && flow.Knows(current) && p > 0
    requires WalkFrom(flow, ctx, pins, current, p) == Some(current)
    ensures WalkFrom(flow, ctx, pins, current, n).Some?
    decreases n
  {
    hide WalkFrom;
    if n < p {
      WalkComposes(flow, ctx, pins, current, n, p - n);
    } else {
      WalkComposes(flow, ctx, pins, current, p, n - p);
      LoopGoesOn(flow, ctx, pins, current, p, n - p);
    }
  }

  /**
   Budget. A dry run of a flow with at most 256 nodes reports the exhausted budget exactly when the
   walk comes back to a node it has already left.
   */
  lemma OverBudgetExact(flow: CompiledFlow, ctx: FlowContext, pins: Pins)
    requires flow.Valid() && |flow.definition.nodes| <= 256
    ensures WalkWithin(flow, flow.definition.start, ctx, pins, [], MAX_STEPS).reason == Some(OverBudget)
            <==> Revisits(flow, ctx, pins)
  {
    hide WalkFrom, WalkWithin;
    var start := flow.definition.start;
    OverBudgetMeansMoves(flow, ctx, pins, start, [], MAX_STEPS);
    if WalkFrom(flow, ctx, pins, start, MAX_STEPS).Some? {
      LongWalkRevisits(flow, ctx, pins);
    } else if Revisits(flow, ctx, pins) {
      var i: nat, j: nat :| i < j && RevisitsAt(flow, ctx, pins, i, j);
      var node := WalkFrom(flow, ctx, pins, start, i).value;
      WalkComposes(flow, ctx, pins, start, i, j - i);
      if MAX_STEPS < i {
        WalkComposes(flow, ctx, pins, start, MAX_STEPS, i - MAX_STEPS);
      } else {
        WalkComposes(flow, ctx, pins, start, i, MAX_STEPS - i);
        LoopGoesOn(flow, ctx, pins, node, j - i, MAX_STEPS - i);
      }
    }
  }

  lemma LongWalkRevisits(flow: CompiledFlow, ctx: FlowContext, pins: Pins)
    requires flow.Valid() && |flow.definition.nodes| <= MAX_STEPS
    requires WalkFrom(flow, ctx, pins, flow.definition.start, MAX_STEPS).Some?
    ensures Revisits(flow, ctx, pins)
  {
    hide WalkFrom;
    var start := flow.definition.start;
    forall i: nat | i <= MAX_STEPS
      ensures WalkFrom(flow, ctx, pins, start, i).Some?
    {
      WalkComposes(flow, ctx, pins, start, i, MAX_STEPS - i);
    }
    var trail := seq(MAX_STEPS + 1, i requires 0 <= i <= MAX_STEPS => WalkFrom(flow, ctx, pins, start, i).value);
    IndexSize(flow.definition.nodes, flow.byId);
    Pigeonhole(trail, flow.byId.Keys);
    var i, j :| 0 <= i < j < |trail| && trail[i] == trail[j];
    assert RevisitsAt(flow, ctx, pins, i, j);
  }
}
