/**
 The compiler's header promises exactly one Success terminal, a reachable Failure terminal and no cycles;
 the compiler checks none of these. This module gives flows that it accepts all the same, one of them
 a flow on which one `step` never returns, and says exactly which steps never return.
 */
module FlowCycles {
  import opened Prelude
  import opened FlowDsl
  import opened FlowGuard
  import opened FlowGraph
  import opened FlowCompile
  import opened FlowExecutor
  import opened FlowRuns
  import opened FlowBuiltin
  import opened FlowTraces
  import opened FlowCutExact

  /** Start, an action that leads back to itself, and a Success terminal behind it. */
  const SPIN := Sketch("spin",
    [START, Template("spin", Action("spin"), Required), SUCCESS],
    [Wire(0, 1, Otherwise), Wire(1, 1, Otherwise), Wire(1, 2, OnSuccess)])

  lemma SpinPassable()
    ensures Passable(SPIN, [0, 2])
  {
  }

  /** If the only unguarded way on from `n` is to `to`, that is where `Otherwise` leads. */
  lemma OnlyWayOn(flow: CompiledFlow, n: NodeId, to: NodeId, ctx: FlowContext)
    requires flow.Valid() && Edge(n, to, Otherwise, map[]) in flow.definition.edges
    requires forall e :: e in flow.definition.edges && e.from == n && e.on.Otherwise? ==> e.to == to
    ensures flow.NextWithGuard(n, Otherwise, ctx) == Some(to)
  {
    var e := Edge(n, to, Otherwise, map[]);
    hide flow.NextWithGuard;
    NextWithGuardExact(flow, n, Otherwise, ctx);
    EdgesFromMembers(flow.definition.edges, n, e);
    assert EvalGuard(e.guard, ctx);
    if flow.NextWithGuard(n, Otherwise, ctx).Some? {
      NextIsEdge(flow, n, Otherwise, ctx);
    }
  }

  /** An action whose way on is back to itself is never left. */
  lemma {:induction false} SelfLoopSpins(flow: CompiledFlow, st: State, log: seq<Visit>, input: StepInput,
                                         d: Dispatcher, now: int, n: nat)
    requires flow.Valid() && flow.Knows(st.currentNode) && flow.Node(st.currentNode).kind.Action?
    requires flow.NextWithGuard(st.currentNode, Otherwise, st.context) == Some(st.currentNode)
    ensures Loop(flow, st, log, input, d, now, n).result.None?
    decreases n
  {
    hide Loop, flow.Valid, flow.NextWithGuard;
    LoopUnfold(flow, st, log, input, d, now, n);
    if n == 0 {
    } else {
      var it := Iterate(flow, st, input, d, |log|, now);
      assert it.state == st && it.result.None?;
      SelfLoopSpins(flow, it.state, log + [it.visit], input, d, now, n - 1);
    }
  }

  lemma SpinEdges(flowId: nat, ids: seq<NodeId>)
    requires FreshIds(ids, SPIN)
    ensures var edges := SPIN.Draw(flowId, ids).edges;
            && Edge(ids[0], ids[1], Otherwise, map[]) in edges && Edge(ids[1], ids[1], Otherwise, map[]) in edges
            && (forall e :: e in edges && e.on.Otherwise? ==> e.to == ids[1])
            && !Acyclic(edges)
    ensures forall n :: n in SPIN.Draw(flowId, ids).nodes ==> !n.kind.FailureTerminal?
  {
    var edges := SPIN.Draw(flowId, ids).edges;
    assert edges[0] == Edge(ids[0], ids[1], Otherwise, map[]) && edges[1] == Edge(ids[1], ids[1], Otherwise, map[]);
    assert edges[0] in edges && edges[1] in edges;
    assert HasEdge(edges, ids[1], ids[1]);
    assert IsPath(edges, [ids[1], ids[1]]);
  }

  lemma SpinKinds(flow: CompiledFlow, flowId: nat, ids: seq<NodeId>)
    requires FreshIds(ids, SPIN) && flow.Valid() && flow.definition == SPIN.Draw(flowId, ids)
    ensures flow.Knows(ids[0]) && flow.Knows(ids[1])
    ensures flow.Node(ids[0]).kind.Start? && flow.Node(ids[1]).kind.Action?
  {
    assert flow.definition.nodes[0].id == ids[0] && flow.definition.nodes[1].id == ids[1];
  }

  /** A start that leads into such an action makes a step that does not return. */
  lemma StartIntoSelfLoop(flow: CompiledFlow, st: State, to: NodeId, input: StepInput, d: Dispatcher, now: int, n: nat)
    requires flow.Valid() && flow.Knows(st.currentNode) && flow.Node(st.currentNode).kind.Start?
    requires flow.Knows(to) && flow.Node(to).kind.Action?
    requires flow.NextWithGuard(st.currentNode, Otherwise, st.context) == Some(to)
    requires flow.NextWithGuard(to, Otherwise, st.context) == Some(to)
    ensures Loop(flow, st, [], input, d, now, n).result.None?
  {
    hide Loop, flow.Valid, flow.NextWithGuard;
    LoopUnfold(flow, st, [], input, d, now, n);
    if n == 0 {
    } else {
      var it := Iterate(flow, st, input, d, 0, now);
      SelfLoopSpins(flow, it.state, [] + [it.visit], input, d, now, n - 1);
    }
  }

  /**
   The compiler accepts the cyclic flow, and for every input and every dispatcher no number of
   iterations brings an unexpired step from its start to a result.
   */
  lemma CyclesAreAccepted(flowId: nat, ids: seq<NodeId>, r: Result<CompiledFlow, CompileError>,
                          st: State, input: StepInput, d: Dispatcher, now: int, n: nat)
    requires FreshIds(ids, SPIN) && Explains(SPIN.Draw(flowId, ids), r)
    requires st.currentNode == ids[0] && now <= st.expiresAt
    ensures r.Ok? && r.value.Valid() && r.value.Knows(ids[0]) && !Acyclic(r.value.definition.edges)
    ensures forall n :: n in r.value.definition.nodes ==> !n.kind.FailureTerminal?
    ensures StepWithin(r.value, st, [], input, d, now, n).result.None?
  {
    SpinPassable();
    PassableCompiles(SPIN, [0, 2], flowId, ids, r);
    var flow := r.value;
    SpinEdges(flowId, ids);
    SpinKinds(flow, flowId, ids);
    hide Loop, flow.Valid, flow.NextWithGuard, Passable, Explains, Acyclic, FreshIds;
    OnlyWayOn(flow, ids[0], ids[1], st.context);
    OnlyWayOn(flow, ids[1], ids[1], st.context);
    StartIntoSelfLoop(flow, st.(lastActivityAt := now), ids[1], input, d, now, n);
  }

  // ---- Terminals are not counted ----

  /** One authenticator between two Success terminals; nothing fails. */
  const FORK := Sketch("fork",
    [START, Asks("password", PASSWORD, Required), SUCCESS, SUCCESS],
    [Wire(0, 1, Otherwise), Wire(1, 2, OnSuccess), Wire(1, 3, OnFailure)])

  lemma ForkPassable()
    ensures Passable(FORK, [0, 1])
  {
  }

  /** The compiler accepts a flow with two Success terminals, both reachable, and no Failure terminal. */
  lemma TerminalsAreNotCounted(flowId: nat, ids: seq<NodeId>, r: Result<CompiledFlow, CompileError>)
    requires FreshIds(ids, FORK) && Explains(FORK.Draw(flowId, ids), r)
    ensures r.Ok? && r.value.definition == FORK.Draw(flowId, ids) && ids[2] != ids[3]
    ensures var def := r.value.definition;
            && IsSuccess(def, ids[2]) && IsSuccess(def, ids[3])
            && Reachable(def.edges, def.start, ids[2]) && Reachable(def.edges, def.start, ids[3])
            && forall n :: n in def.nodes ==> !n.kind.FailureTerminal?
  {
    ForkPassable();
    PassableCompiles(FORK, [0, 1], flowId, ids, r);
    var def := r.value.definition;
    TrailReaches(FORK, [0, 1], flowId, ids);
    TrailReaches(FORK, [0, 2], flowId, ids);
    hide Passable, Explains;
    assert def.nodes[2] in def.nodes && def.nodes[3] in def.nodes;
  }

  // ---- Exactly which steps never return ----

  /** No number of iterations brings the step to a result. */
  ghost predicate NeverReturns(flow: CompiledFlow, st: State, input: StepInput, d: Dispatcher, now: int)
    requires flow.Valid() && flow.Knows(st.currentNode)
  {
    forall n: nat :: StepWithin(flow, st, [], input, d, now, n).result.None?
  }

  function Prefix(answers: nat -> Answer, n: nat): seq<Answer> {
    seq(n, i requires 0 <= i < n => answers(i))
  }

  /** Answers that move the executor on for ever. */
  ghost predicate Endless(flow: CompiledFlow, a: Config, answers: nat -> Answer) {
    forall n: nat :: Moves(flow, a, Prefix(answers, n))
  }

  lemma MovesSnoc(flow: CompiledFlow, a: Config, answers: seq<Answer>, answer: Answer)
    requires Moves(flow, a, answers) && Target(flow, Trace(flow, a, answers), answer).Some?
    ensures Moves(flow, a, answers + [answer])
  {
    hide Target;
    var longer := answers + [answer];
    assert forall i :: 0 <= i < |longer| ==> longer[..i] == answers[..i];
  }

  /** A loop that has not returned after one more iteration was that iteration away from it. */
  lemma {:induction false} LoopSnoc(flow: CompiledFlow, st: State, log: seq<Visit>, input: StepInput, d: Dispatcher,
                                    now: int, n: nat)
    requires flow.Valid() && flow.Knows(st.currentNode) && Loop(flow, st, log, input, d, now, n + 1).result.None?
    ensures var p := Loop(flow, st, log, input, d, now, n);
            var it := Iterate(flow, p.state, input, d, |p.log|, now);
            && p.result.None? && it.result.None?
            && Loop(flow, st, log, input, d, now, n + 1) == Progress(it.state, p.log + [it.visit], None)
    decreases n
  {
    hide Iterate, Loop, flow.Valid;
    LoopUnfold(flow, st, log, input, d, now, n);
    LoopUnfold(flow, st, log, input, d, now, n + 1);
    var it := Iterate(flow, st, input, d, |log|, now);
    if n == 0 {
      LoopUnfold(flow, it.state, log + [it.visit], input, d, now, 0);
    } else {
      LoopSnoc(flow, it.state, log + [it.visit], input, d, now, n - 1);
    }
  }

  function AnswersOf(log: seq<Visit>): seq<Answer> {
    seq(|log|, i requires 0 <= i < |log| => AnswerOf(log[i]))
  }

  lemma IterationIsFollowed(flow: CompiledFlow, st: State, input: StepInput, d: Dispatcher, k: nat, now: int)
    requires flow.Valid() && flow.Knows(st.currentNode) && Iterate(flow, st, input, d, k, now).result.None?
    ensures var it := Iterate(flow, st, input, d, k, now);
            && Target(flow, ConfigOf(st), AnswerOf(it.visit)).Some?
            && Follow(flow, ConfigOf(st), AnswerOf(it.visit)) == ConfigOf(it.state)
  {
    hide Iterate, flow.Valid, Leavable, LegalVisit, Target, After;
    IterationShape(flow, st, input, d, k, now);
    IterationLegal(flow, st, input, d, k, now);
    IterationLeavable(flow, st, input, d, k, now);
    VisitFollows(flow, st.context, Iterate(flow, st, input, d, k, now).visit);
  }

  /** A step cut off after `n` iterations has been moved on `n` times. */
  lemma {:induction false} CutOffMoves(flow: CompiledFlow, st: State, input: StepInput, d: Dispatcher, now: int, n: nat)
    requires flow.Valid() && flow.Knows(st.currentNode) && Loop(flow, st, [], input, d, now, n).result.None?
    ensures var p := Loop(flow, st, [], input, d, now, n);
            && Moves(flow, ConfigOf(st), AnswersOf(p.log))
            && Trace(flow, ConfigOf(st), AnswersOf(p.log)) == ConfigOf(p.state)
    decreases n
  {
    hide Iterate, Loop, flow.Valid, Target, Follow, AnswerOf, Moves;
    LoopUnfold(flow, st, [], input, d, now, n);
    if n == 0 {
      assert AnswersOf([]) == [];
      NoMoves(flow, ConfigOf(st));
    } else {
      LoopSnoc(flow, st, [], input, d, now, n - 1);
      CutOffMoves(flow, st, input, d, now, n - 1);
      var p := Loop(flow, st, [], input, d, now, n - 1);
      var it := Iterate(flow, p.state, input, d, |p.log|, now);
      var before := AnswersOf(p.log);
      IterationIsFollowed(flow, p.state, input, d, |p.log|, now);
      MovesSnoc(flow, ConfigOf(st), before, AnswerOf(it.visit));
      TraceSnoc(flow, ConfigOf(st), before, AnswerOf(it.visit), {});
      assert AnswersOf(p.log + [it.visit]) == before + [AnswerOf(it.visit)];
    }
  }

  lemma NoMoves(flow: CompiledFlow, a: Config)
    ensures Moves(flow, a, [])
  {
  }

  lemma {:induction false} LogsAgree(flow: CompiledFlow, st: State, input: StepInput, d: Dispatcher, now: int,
                                     m: nat, n: nat)
    requires flow.Valid() && flow.Knows(st.currentNode) && m <= n && Loop(flow, st, [], input, d, now, n).result.None?
    ensures Loop(flow, st, [], input, d, now, m).result.None?
    ensures Loop(flow, st, [], input, d, now, m).log <= Loop(flow, st, [], input, d, now, n).log
    decreases n
  {
    hide Iterate, Loop, flow.Valid;
    if m < n {
      LoopSnoc(flow, st, [], input, d, now, n - 1);
      LogsAgree(flow, st, input, d, now, m, n - 1);
    }
  }

  /** The answer given in the `i`-th iteration, as long as there is one. */
  ghost function AnswerAt(flow: CompiledFlow, st: State, input: StepInput, d: Dispatcher, now: int, i: nat): Answer
    requires flow.Valid() && flow.Knows(st.currentNode)
  {
    var log := Loop(flow, st, [], input, d, now, i + 1).log;
    if i < |log| then AnswerOf(log[i]) else AnswerSkip
  }

  lemma SpinningStepIsEndless(flow: CompiledFlow, st: State, input: StepInput, d: Dispatcher, now: int)
    returns (answers: nat -> Answer)
    requires flow.Valid() && flow.Knows(st.currentNode) && NeverReturns(flow, st, input, d, now)
    ensures Endless(flow, ConfigOf(st), answers)
  {
    hide Loop, flow.Valid, Moves, AnswerOf;
    var begun := st.(lastActivityAt := now);
    answers := (i: nat) => if flow.Valid() && flow.Knows(begun.currentNode) then AnswerAt(flow, begun, input, d, now, i)
                           else AnswerSkip;
    forall n: nat
      ensures Moves(flow, ConfigOf(st), Prefix(answers, n))
    {
      var p := Loop(flow, begun, [], input, d, now, n);
      assert p == StepWithin(flow, st, [], input, d, now, n);
      CutOffMoves(flow, begun, input, d, now, n);
      forall i | 0 <= i < n
        ensures answers(i) == AnswersOf(p.log)[i]
      {
        LogsAgree(flow, begun, input, d, now, i + 1, n);
      }
      assert Prefix(answers, n) == AnswersOf(p.log);
    }
  }

  /** The dispatcher that gives one answer after the other. */
  function Giving(answers: nat -> Answer): Dispatcher {
    (k: nat, urn: string, st: State, input: StepInput) => Ok(answers(k))
  }

  lemma {:induction false} EndlessSpins(flow: CompiledFlow, a: Config, answers: nat -> Answer,
                                        st: State, log: seq<Visit>, now: int, n: nat)
    requires flow.Valid() && flow.Knows(st.currentNode) && Endless(flow, a, answers)
    requires ConfigOf(st) == Trace(flow, a, Prefix(answers, |log|))
    ensures Loop(flow, st, log, Submit(map[]), Giving(answers), now, n).result.None?
    decreases n
  {
    hide Iterate, Loop, flow.Valid, Target, Follow, Trace;
    var d, k := Giving(answers), |log|;
    LoopUnfold(flow, st, log, Submit(map[]), d, now, n);
    if n == 0 {
    } else {
      var it := Iterate(flow, st, Submit(map[]), d, k, now);
      IterationFollows(flow, st, answers(k), d, k, now);
      var longer := Prefix(answers, k + 1);
      assert longer == Prefix(answers, k) + [answers(k)] && longer[..k] == Prefix(answers, k);
      assert Moves(flow, a, longer);
      assert Target(flow, Trace(flow, a, longer[..k]), longer[k]).Some?;
      TraceSnoc(flow, a, Prefix(answers, k), answers(k), {});
      EndlessSpins(flow, a, answers, it.state, log + [it.visit], now, n - 1);
    }
  }

  lemma EndlessNeverReturns(flow: CompiledFlow, st: State, answers: nat -> Answer)
    requires flow.Valid() && flow.Knows(st.currentNode) && Endless(flow, ConfigOf(st), answers)
    ensures NeverReturns(flow, st, Submit(map[]), Giving(answers), st.expiresAt)
  {
    var now := st.expiresAt;
    forall n: nat
      ensures StepWithin(flow, st, [], Submit(map[]), Giving(answers), now, n).result.None?
    {
      hide Loop, flow.Valid, Endless;
      EndlessSpins(flow, ConfigOf(st), answers, st.(lastActivityAt := now), [], now, n);
    }
  }

  /**
   From any state at one of the flow's nodes, some input, dispatcher and clock make a step that never
   returns exactly when some answers move the executor on from there for ever, guards included.
   */
  lemma NeverReturnsIffEndless(flow: CompiledFlow, st: State)
    requires flow.Valid() && flow.Knows(st.currentNode)
    ensures (exists input: StepInput, d: Dispatcher, now: int :: NeverReturns(flow, st, input, d, now))
            <==> exists answers: nat -> Answer :: Endless(flow, ConfigOf(st), answers)
  {
    hide flow.Valid, NeverReturns, Endless;
    if input: StepInput, d: Dispatcher, now: int :| NeverReturns(flow, st, input, d, now) {
      var answers := SpinningStepIsEndless(flow, st, input, d, now);
    }
    if answers: nat -> Answer :| Endless(flow, ConfigOf(st), answers) {
      EndlessNeverReturns(flow, st, answers);
    }
  }

  // ---- Without guards: a circle in the graph ----

  /** A route from `a` whose last node is one it has already been at, as its `i`-th. */
  ghost predicate Lasso(flow: CompiledFlow, a: NodeId, p: seq<NodeId>, labels: seq<EdgeCondition>, i: nat) {
    Route(flow, {}, p, labels) && p[0] == a && i < |labels| && p[i] == Last(p)
  }

  /** A route with as many moves as there are nodes runs into itself. */
  lemma LongRouteHasLasso(flow: CompiledFlow, p: seq<NodeId>, labels: seq<EdgeCondition>)
    returns (q: seq<NodeId>, on: seq<EdgeCondition>, i: nat)
    requires flow.Valid() && Route(flow, {}, p, labels) && |labels| >= |flow.definition.nodes|
    ensures Lasso(flow, p[0], q, on, i)
  {
    hide Selectable;
    IndexSize(flow.definition.nodes, flow.byId);
    Pigeonhole(p, flow.byId.Keys);
    var i', j :| 0 <= i' < j < |p| && p[i'] == p[j];
    q, on, i := p[..j + 1], labels[..j], i';
  }

  /** Answers that move the executor on as often as there are nodes have run into a circle. */
  lemma LongMovesHaveLasso(flow: CompiledFlow, a: Config, answers: seq<Answer>)
    returns (p: seq<NodeId>, labels: seq<EdgeCondition>, i: nat)
    requires flow.Valid() && Unguarded(flow) && flow.Knows(a.node)
    requires Moves(flow, a, answers) && |answers| >= |flow.definition.nodes|
    ensures Lasso(flow, a.node, p, labels, i)
  {
    hide flow.Valid, Unguarded, Moves, Route, Trace;
    p, labels := TraceIsRoute(flow, {}, a, answers);
    p, labels, i := LongRouteHasLasso(flow, p, labels);
  }

  /** A step from `st` that outlasts the number of nodes has run into a circle. */
  lemma LongStepHasLasso(flow: CompiledFlow, st: State, input: StepInput, d: Dispatcher, now: int)
    returns (p: seq<NodeId>, labels: seq<EdgeCondition>, i: nat)
    requires flow.Valid() && Unguarded(flow) && flow.Knows(st.currentNode)
    requires StepWithin(flow, st, [], input, d, now, |flow.definition.nodes|).result.None?
    ensures Lasso(flow, st.currentNode, p, labels, i)
  {
    hide Loop, flow.Valid, Moves, Lasso, Unguarded;
    var n, begun := |flow.definition.nodes|, st.(lastActivityAt := now);
    CutOffMoves(flow, begun, input, d, now, n);
    p, labels, i := LongMovesHaveLasso(flow, ConfigOf(st), AnswersOf(Loop(flow, begun, [], input, d, now, n).log));
  }

  /** Where on a lasso of `m` moves its `k`-th move is: after the last comes the `i`-th again. */
  function Turn(k: nat, i: nat, m: nat): (t: nat)
    requires i < m
    ensures t < m
  {
    if k == 0 then 0
    else
      var t := Turn(k - 1, i, m);
      if t + 1 == m then i else t + 1
  }

  /** The answers of a lasso, round and round. */
  function Repeating(labels: seq<EdgeCondition>, i: nat): nat -> Answer
    requires i < |labels|
  {
    (k: nat) => AnswerFor(labels[Turn(k, i, |labels|)])
  }

  lemma LassoMove(flow: CompiledFlow, a: NodeId, p: seq<NodeId>, labels: seq<EdgeCondition>, i: nat,
                  ctx: FlowContext, k: nat)
    requires flow.Valid() && Unguarded(flow) && Lasso(flow, a, p, labels, i)
    ensures var at := Config(p[Turn(k, i, |labels|)], ctx);
            && Target(flow, at, Repeating(labels, i)(k)).Some?
            && Follow(flow, at, Repeating(labels, i)(k)) == Config(p[Turn(k + 1, i, |labels|)], ctx)
  {
    hide flow.Valid, Unguarded, Selectable, Target, Follow, AnswerFor;
    var t := Turn(k, i, |labels|);
    SelectableFollows(flow, {}, p[t], labels[t], p[t + 1], ctx);
  }

  lemma {:induction false} LassoMoves(flow: CompiledFlow, a: NodeId, p: seq<NodeId>, labels: seq<EdgeCondition>, i: nat,
                                      ctx: FlowContext, n: nat)
    requires flow.Valid() && Unguarded(flow) && Lasso(flow, a, p, labels, i)
    ensures var answers := Prefix(Repeating(labels, i), n);
            && Moves(flow, Config(a, ctx), answers)
            && Trace(flow, Config(a, ctx), answers) == Config(p[Turn(n, i, |labels|)], ctx)
    decreases n
  {
    hide flow.Valid, Unguarded, Selectable, Target, Follow, Moves, Repeating;
    var answers := Repeating(labels, i);
    if n == 0 {
      assert Prefix(answers, 0) == [];
      NoMoves(flow, Config(a, ctx));
    } else {
      hide Turn, Trace;
      var before := Prefix(answers, n - 1);
      LassoMoves(flow, a, p, labels, i, ctx, n - 1);
      LassoMove(flow, a, p, labels, i, ctx, n - 1);
      MovesSnoc(flow, Config(a, ctx), before, answers(n - 1));
      TraceSnoc(flow, Config(a, ctx), before, answers(n - 1), {});
      assert Prefix(answers, n) == before + [answers(n - 1)];
    }
  }

  /** Without guards, answers move the executor on for ever exactly if the graph leads into a circle. */
  lemma EndlessIffLasso(flow: CompiledFlow, a: Config)
    requires flow.Valid() && Unguarded(flow) && flow.Knows(a.node)
    ensures (exists answers: nat -> Answer :: Endless(flow, a, answers))
            <==> exists p: seq<NodeId>, labels: seq<EdgeCondition>, i: nat :: Lasso(flow, a.node, p, labels, i)
  {
    hide flow.Valid, Unguarded, Moves, Route;
    if answers: nat -> Answer :| Endless(flow, a, answers) {
      var n := |flow.definition.nodes|;
      assert Moves(flow, a, Prefix(answers, n));
      var p, labels, i := LongMovesHaveLasso(flow, a, Prefix(answers, n));
    }
    if p: seq<NodeId>, labels: seq<EdgeCondition>, i: nat :| Lasso(flow, a.node, p, labels, i) {
      forall n: nat { LassoMoves(flow, a.node, p, labels, i, a.context, n); }
      assert Endless(flow, a, Repeating(labels, i));
    }
  }

  /** Without guards, a step from `st` can fail to return exactly if the graph leads from there into a circle. */
  lemma NeverReturnsIffLasso(flow: CompiledFlow, st: State)
    requires flow.Valid() && Unguarded(flow) && flow.Knows(st.currentNode)
    ensures (exists input: StepInput, d: Dispatcher, now: int :: NeverReturns(flow, st, input, d, now))
            <==> exists p: seq<NodeId>, labels: seq<EdgeCondition>, i: nat :: Lasso(flow, st.currentNode, p, labels, i)
  {
    hide flow.Valid, Lasso, NeverReturns, Unguarded, Endless;
    NeverReturnsIffEndless(flow, st);
    EndlessIffLasso(flow, ConfigOf(st));
  }
}
