/**
 The cut theorem made exact. Some run ends in `Done` without any authenticator of `s` succeeding if and
 only if some sequence of answers leads from the start to a Success terminal without a success at `s`. On
 flows without guards this is a question about the graph alone.
 */
module FlowCutExact {
  import opened Prelude
  import opened FlowDsl
  import opened FlowCompile
  import opened FlowExecutor
  import opened FlowRuns
  import opened FlowTraces

  /** Answers that lead from the start around `s` to a Success terminal. */
  ghost predicate Bypass(flow: CompiledFlow, s: set<NodeId>, ctx: FlowContext, answers: seq<Answer>) {
    var origin := Config(flow.definition.start, ctx);
    var end := Trace(flow, origin, answers).node;
    Avoids(flow, origin, answers, s) && flow.Knows(end) && flow.Node(end).kind.SuccessTerminal?
  }

  // ---- From a run to answers ----

  lemma {:induction false} LogIsTrace(flow: CompiledFlow, s: set<NodeId>, origin: State, log: seq<Visit>)
    returns (answers: seq<Answer>)
    requires !PassedThrough(log, s)
    requires forall i :: 0 <= i < |log| ==> SoundAt(flow, origin, log, i) && Leavable(flow, log[i])
    ensures Trace(flow, ConfigOf(origin), answers)
            == Config(Last(Walked(origin.currentNode, log)), Gathered(origin.context, log))
    ensures Avoids(flow, ConfigOf(origin), answers, s)
    decreases |log|
  {
    hide LegalVisit, Leavable, Follow, Avoids, Merge;
    if log == [] {
      assert Avoids(flow, ConfigOf(origin), [], s) by { NothingToAvoid(flow, ConfigOf(origin), s); }
      return [];
    }
    var n := |log| - 1;
    var shorter, v := log[..n], log[n];
    ShorterLog(flow, origin, log);
    var before := LogIsTrace(flow, s, origin, shorter);
    assert SoundAt(flow, origin, log, n) && log[..n + 1] == log;
    if v.next.None? && !Succeeded(v) {
      return before;
    }
    VisitFollows(flow, Gathered(origin.context, shorter), v);
    FollowIs(flow, Trace(flow, ConfigOf(origin), before), AnswerOf(v));
    TraceSnoc(flow, ConfigOf(origin), before, AnswerOf(v), s);
    answers := before + [AnswerOf(v)];
  }

  lemma NothingToAvoid(flow: CompiledFlow, a: Config, s: set<NodeId>)
    ensures Avoids(flow, a, [], s)
  {
  }

  lemma FollowIs(flow: CompiledFlow, a: Config, answer: Answer)
    ensures var target := Target(flow, a, answer);
            Follow(flow, a, answer) == Config(if target.Some? then target.value else a.node, After(flow, a, answer))
  {
  }

  lemma ShorterLog(flow: CompiledFlow, origin: State, log: seq<Visit>)
    requires log != [] && forall i :: 0 <= i < |log| ==> SoundAt(flow, origin, log, i) && Leavable(flow, log[i])
    ensures var shorter := log[..|log| - 1];
            forall i :: 0 <= i < |shorter| ==> SoundAt(flow, origin, shorter, i) && Leavable(flow, shorter[i])
  {
    hide LegalVisit, Leavable, Walked, Gathered;
    var shorter := log[..|log| - 1];
    forall i | 0 <= i < |shorter|
      ensures SoundAt(flow, origin, shorter, i) && Leavable(flow, shorter[i])
    {
      assert SoundAt(flow, origin, log, i);
      assert shorter[..i] == log[..i] && shorter[..i + 1] == log[..i + 1];
    }
  }

  /** If a run ends in `Done` and nothing in `s` succeeded, there are answers that lead around `s`. */
  lemma DoneGivesBypass(flow: CompiledFlow, s: set<NodeId>, origin: State, calls: seq<Call>, last: Call, d: Dispatcher)
    returns (answers: seq<Answer>)
    requires flow.Valid() && origin.currentNode == flow.definition.start
    requires EndsDone(Finish(flow, origin, calls, last, d))
    requires !PassedThrough(Finish(flow, origin, calls, last, d).log, s)
    ensures Bypass(flow, s, origin.context, answers)
  {
    hide Loop, Walked, Leavable, SoundAt, flow.Valid, Gathered, Trace, Avoids;
    StartKnown(flow);
    var before := RunCalls(flow, origin, calls, d);
    var end := Finish(flow, origin, calls, last, d);
    var begun := before.state.(lastActivityAt := last.now);
    DoneAtSuccess(flow, begun, before.log, last.input, d, last.now, last.iterations);
    var all := calls + [last];
    assert all[..|all| - 1] == calls;
    assert RunCalls(flow, origin, all, d) == Run(end.state, end.log);
    RunLeavable(flow, origin, all, d);
    RunSound(flow, origin, all, d);
    answers := LogIsTrace(flow, s, origin, end.log);
    SuccessNode(flow, end.state.currentNode);
  }

  lemma SuccessNode(flow: CompiledFlow, id: NodeId)
    requires flow.Valid() && flow.Knows(id) && IsSuccess(flow.definition, id)
    ensures flow.Node(id).kind.SuccessTerminal?
  {
  }

  // ---- From answers to a run ----

  /** The dispatcher that reads its answers off a script. */
  function Scripted(answers: seq<Answer>): Dispatcher {
    (k: nat, urn: string, st: State, input: StepInput) => Ok(if k < |answers| then answers[k] else AnswerSkip)
  }

  /** A step that has come as far as its log on the script gets further, or to `Done`. */
  lemma {:induction false} LoopFollows(flow: CompiledFlow, s: set<NodeId>, ctx: FlowContext, answers: seq<Answer>,
                                       st: State, log: seq<Visit>, now: int)
    requires flow.Valid() && flow.Knows(st.currentNode) && Bypass(flow, s, ctx, answers) && !PassedThrough(log, s)
    requires |log| <= |answers|
    requires ConfigOf(st) == Trace(flow, Config(flow.definition.start, ctx), answers[..|log|])
    ensures var p := Loop(flow, st, log, Submit(map[]), Scripted(answers), now, |answers| - |log| + 1);
            && p.result.Some? && !PassedThrough(p.log, s) && p.state.expiresAt == st.expiresAt
            && (EndsDone(p) || (|log| < |p.log| <= |answers|
                                && ConfigOf(p.state)
                                   == Trace(flow, Config(flow.definition.start, ctx), answers[..|p.log|])))
    decreases |answers| - |log|
  {
    hide Loop, Iterate, flow.Valid, Trace, Follow, Target;
    var d, a := Scripted(answers), Config(flow.definition.start, ctx);
    var it := Iterate(flow, st, Submit(map[]), d, |log|, now);
    LoopUnfold(flow, st, log, Submit(map[]), d, now, |answers| - |log| + 1);
    IterationShape(flow, st, Submit(map[]), d, |log|, now);
    if |log| == |answers| {
      assert answers[..|log|] == answers;
      IterationFollows(flow, st, AnswerSkip, d, |log|, now);
    } else {
      IterationFollows(flow, st, answers[|log|], d, |log|, now);
      TraceStep(flow, a, answers, |log|);
      if it.result.None? {
        LoopFollows(flow, s, ctx, answers, it.state, log + [it.visit], now);
      }
    }
  }

  /** Every call of the run has returned. */
  ghost predicate AllReturn(flow: CompiledFlow, origin: State, calls: seq<Call>, d: Dispatcher)
    requires flow.Valid() && flow.Knows(origin.currentNode)
  {
    forall i :: 0 <= i < |calls| ==> Finish(flow, origin, calls[..i], calls[i], d).result.Some?
  }

  /** The run is carried on, call after call, until it is `Done`. */
  lemma {:induction false} ScriptedCalls(flow: CompiledFlow, s: set<NodeId>, origin: State, answers: seq<Answer>,
                                         calls: seq<Call>)
    returns (all: seq<Call>, last: Call)
    requires flow.Valid() && flow.Knows(origin.currentNode) && origin.currentNode == flow.definition.start
    requires Bypass(flow, s, origin.context, answers) && AllReturn(flow, origin, calls, Scripted(answers))
    requires var r := RunCalls(flow, origin, calls, Scripted(answers));
             && !PassedThrough(r.log, s) && |r.log| <= |answers| && r.state.expiresAt == origin.expiresAt
             && ConfigOf(r.state) == Trace(flow, ConfigOf(origin), answers[..|r.log|])
    ensures Evades(flow, s, origin, all, last, Scripted(answers))
    decreases |answers| - |RunCalls(flow, origin, calls, Scripted(answers)).log|
  {
    hide Loop, flow.Valid, Trace, Bypass, Scripted, PassedThrough;
    var d := Scripted(answers);
    var r := RunCalls(flow, origin, calls, d);
    var c := Call(Submit(map[]), origin.expiresAt, |answers| - |r.log| + 1);
    LoopFollows(flow, s, origin.context, answers, r.state.(lastActivityAt := c.now), r.log, c.now);
    if EndsDone(Finish(flow, origin, calls, c, d)) {
      return calls, c;
    }
    var longer := calls + [c];
    assert longer[..|calls|] == calls;
    assert forall i :: 0 <= i < |calls| ==> longer[..i] == calls[..i];
    all, last := ScriptedCalls(flow, s, origin, answers, longer);
  }

  /** A run of calls that all return ends in `Done`, and nothing in `s` succeeded. */
  ghost predicate Evades(flow: CompiledFlow, s: set<NodeId>, origin: State, calls: seq<Call>, last: Call, d: Dispatcher)
    requires flow.Valid() && flow.Knows(origin.currentNode)
  {
    var p := Finish(flow, origin, calls, last, d);
    AllReturn(flow, origin, calls, d) && EndsDone(p) && !PassedThrough(p.log, s)
  }

  lemma BypassEvades(flow: CompiledFlow, s: set<NodeId>, origin: State, answers: seq<Answer>)
    returns (calls: seq<Call>, last: Call)
    requires flow.Valid() && flow.Knows(origin.currentNode) && origin.currentNode == flow.definition.start
    requires Bypass(flow, s, origin.context, answers)
    ensures Evades(flow, s, origin, calls, last, Scripted(answers))
  {
    hide flow.Valid, Bypass;
    assert answers[..0] == [];
    calls, last := ScriptedCalls(flow, s, origin, answers, []);
  }

  /**
   The exact cut, guards included. Some run ends in `Done` with no success at `s` exactly when some
   sequence of answers leads around `s`.
   */
  lemma CutExact(flow: CompiledFlow, s: set<NodeId>, origin: State)
    requires flow.Valid() && origin.currentNode == flow.definition.start
    ensures flow.Knows(origin.currentNode)
    ensures (exists calls: seq<Call>, last: Call, d: Dispatcher :: Evades(flow, s, origin, calls, last, d))
            <==> exists answers: seq<Answer> :: Bypass(flow, s, origin.context, answers)
  {
    StartKnown(flow);
    hide Bypass, Finish, AllReturn, flow.Valid, PassedThrough;
    if calls: seq<Call>, last: Call, d: Dispatcher :| Evades(flow, s, origin, calls, last, d) {
      var answers := DoneGivesBypass(flow, s, origin, calls, last, d);
    }
    if answers: seq<Answer> :| Bypass(flow, s, origin.context, answers) {
      var calls, last := BypassEvades(flow, s, origin, answers);
    }
  }

  // ---- Without guards: a question about the graph ----

  ghost predicate Unguarded(flow: CompiledFlow) {
    forall e :: e in flow.definition.edges ==> e.guard == map[]
  }

  /** The labels a node can ask for, over all answers its dispatch may give. */
  predicate CanAsk(kind: NodeKind, on: EdgeCondition) {
    match kind
    case Authenticator(_) => on.OnSuccess? || on.OnFailure? || on.Otherwise?
    case Render(_) => on.OnSuccess?
    case Switch(condition) => on == OnStatus(condition)
    case Start(_) => on.Otherwise?
    case Action(_) => on.Otherwise?
    case SubFlow(_) => on.Otherwise?
    case Broker(_) => false
    case SuccessTerminal(_, _) => false
    case FailureTerminal(_) => false
  }

  /** `a` can lead to `b` by asking for `on`, without that being a success at `s`. */
  ghost predicate Selectable(flow: CompiledFlow, s: set<NodeId>, a: NodeId, on: EdgeCondition, b: NodeId) {
    && flow.Knows(a) && flow.Knows(b) && CanAsk(flow.Node(a).kind, on)
    && !(a in s && on.OnSuccess?)
    && flow.Next(a, on) == Some(b)
  }

  /** A sequence of nodes that the executor can follow under some answers, avoiding successes at `s`. */
  ghost predicate Route(flow: CompiledFlow, s: set<NodeId>, p: seq<NodeId>, labels: seq<EdgeCondition>) {
    && |p| == |labels| + 1
    && (forall i :: 0 <= i < |p| ==> flow.Knows(p[i]))
    && (forall i :: 0 <= i < |labels| ==> Selectable(flow, s, p[i], labels[i], p[i + 1]))
  }

  /** A route around `s` from the start to a Success terminal. */
  ghost predicate WayAround(flow: CompiledFlow, s: set<NodeId>, p: seq<NodeId>, labels: seq<EdgeCondition>) {
    Route(flow, s, p, labels) && p[0] == flow.definition.start && flow.Node(Last(p)).kind.SuccessTerminal?
  }

  lemma RouteExtends(flow: CompiledFlow, s: set<NodeId>, p: seq<NodeId>, labels: seq<EdgeCondition>,
                     on: EdgeCondition, b: NodeId)
    requires Route(flow, s, p, labels) && flow.Knows(b) && Selectable(flow, s, Last(p), on, b)
    ensures Route(flow, s, p + [b], labels + [on])
  {
    hide Selectable;
  }

  lemma TargetSelectable(flow: CompiledFlow, s: set<NodeId>, a: Config, answer: Answer)
    requires flow.Valid() && Unguarded(flow) && AreAuthenticators(flow, s)
    requires flow.Knows(a.node) && Target(flow, a, answer).Some? && !(a.node in s && answer.AnswerSuccess?)
    ensures var on := AskedLabel(flow.Node(a.node).kind, Some(Ok(answer)));
            Selectable(flow, s, a.node, on, Target(flow, a, answer).value)
  {
    var on := AskedLabel(flow.Node(a.node).kind, Some(Ok(answer)));
    UnguardedNext(flow, a.node, on, After(flow, a, answer));
    NextIsEdge(flow, a.node, on, After(flow, a, answer));
    hide flow.Valid, flow.NextWithGuard, flow.Next, Merge;
  }

  ghost predicate Moves(flow: CompiledFlow, a: Config, answers: seq<Answer>) {
    forall i :: 0 <= i < |answers| ==> Target(flow, Trace(flow, a, answers[..i]), answers[i]).Some?
  }

  /** The moves of a trace are a route; if every answer moves, it has as many moves as there are answers. */
  lemma {:induction false} TraceIsRoute(flow: CompiledFlow, s: set<NodeId>, a: Config, answers: seq<Answer>)
    returns (p: seq<NodeId>, labels: seq<EdgeCondition>)
    requires flow.Valid() && Unguarded(flow) && AreAuthenticators(flow, s)
    requires flow.Knows(a.node) && Avoids(flow, a, answers, s)
    ensures Route(flow, s, p, labels) && p[0] == a.node && Last(p) == Trace(flow, a, answers).node
    ensures Moves(flow, a, answers) ==> |labels| == |answers|
    decreases |answers|
  {
    hide flow.Valid, Selectable, Unguarded, AreAuthenticators, Target, AskedLabel;
    if answers == [] {
      return [a.node], [];
    }
    var n := |answers| - 1;
    var init, answer := answers[..n], answers[n];
    assert forall i :: 0 <= i < n ==> init[..i] == answers[..i];
    p, labels := TraceIsRoute(flow, s, a, init);
    var at := Trace(flow, a, init);
    if Target(flow, at, answer).Some? {
      var on := AskedLabel(flow.Node(at.node).kind, Some(Ok(answer)));
      TargetSelectable(flow, s, at, answer);
      SelectableKnown(flow, s, at.node, on, Target(flow, at, answer).value);
      RouteExtends(flow, s, p, labels, on, Target(flow, at, answer).value);
      p, labels := p + [Target(flow, at, answer).value], labels + [on];
    }
  }

  lemma SelectableKnown(flow: CompiledFlow, s: set<NodeId>, a: NodeId, on: EdgeCondition, b: NodeId)
    requires Selectable(flow, s, a, on, b)
    ensures flow.Knows(a) && flow.Knows(b)
  {
  }

  function AnswerFor(on: EdgeCondition): Answer {
    match on
    case OnSuccess => AnswerSuccess([], 0, None, map[])
    case OnFailure => AnswerFailure(InvalidCredential)
    case Otherwise => AnswerSkip
    case OnStatus(_) => AnswerSkip
  }

  /** A selectable move is what the matching answer does, and it leaves the context alone. */
  lemma SelectableFollows(flow: CompiledFlow, s: set<NodeId>, a: NodeId, on: EdgeCondition, b: NodeId, ctx: FlowContext)
    requires flow.Valid() && Unguarded(flow) && Selectable(flow, s, a, on, b)
    ensures Target(flow, Config(a, ctx), AnswerFor(on)) == Some(b)
    ensures Follow(flow, Config(a, ctx), AnswerFor(on)) == Config(b, ctx)
  {
    NothingMerged(ctx);
    UnguardedNext(flow, a, on, ctx);
    hide flow.Valid, flow.NextWithGuard, flow.Next, Merge;
  }

  lemma {:induction false} RouteIsTrace(flow: CompiledFlow, s: set<NodeId>, p: seq<NodeId>, labels: seq<EdgeCondition>,
                                        ctx: FlowContext)
    returns (answers: seq<Answer>)
    requires flow.Valid() && Unguarded(flow) && AreAuthenticators(flow, s) && Route(flow, s, p, labels)
    ensures Trace(flow, Config(p[0], ctx), answers) == Config(Last(p), ctx)
    ensures Avoids(flow, Config(p[0], ctx), answers, s)
    decreases |labels|
  {
    hide flow.Valid, Unguarded, Selectable, AreAuthenticators, Follow, Avoids;
    if labels == [] {
      NothingToAvoid(flow, Config(p[0], ctx), s);
      return [];
    }
    var n := |labels| - 1;
    answers := RouteIsTrace(flow, s, p[..n + 1], labels[..n], ctx);
    assert Selectable(flow, s, p[n], labels[n], p[n + 1]);
    SelectableFollows(flow, s, p[n], labels[n], p[n + 1], ctx);
    NoSuccessAt(flow, s, p[n], labels[n], p[n + 1]);
    TraceSnoc(flow, Config(p[0], ctx), answers, AnswerFor(labels[n]), s);
    answers := answers + [AnswerFor(labels[n])];
  }

  lemma NoSuccessAt(flow: CompiledFlow, s: set<NodeId>, a: NodeId, on: EdgeCondition, b: NodeId)
    requires Selectable(flow, s, a, on, b)
    ensures !(a in s && AnswerFor(on).AnswerSuccess?)
  {
  }

  /** Without guards, answers lead around `s` exactly if a route does, whatever the context. */
  lemma BypassIffWayAround(flow: CompiledFlow, s: set<NodeId>, ctx: FlowContext)
    requires flow.Valid() && Unguarded(flow) && AreAuthenticators(flow, s)
    ensures (exists answers: seq<Answer> :: Bypass(flow, s, ctx, answers))
            <==> exists p: seq<NodeId>, labels: seq<EdgeCondition> :: WayAround(flow, s, p, labels)
  {
    StartKnown(flow);
    hide flow.Valid, Unguarded, AreAuthenticators, Route, Avoids, Trace;
    if answers: seq<Answer> :| Bypass(flow, s, ctx, answers) {
      var p, labels := TraceIsRoute(flow, s, Config(flow.definition.start, ctx), answers);
      RouteKnown(flow, s, p, labels);
      assert WayAround(flow, s, p, labels);
    }
    if p: seq<NodeId>, labels: seq<EdgeCondition> :| WayAround(flow, s, p, labels) {
      RouteKnown(flow, s, p, labels);
      var answers := RouteIsTrace(flow, s, p, labels, ctx);
      assert Bypass(flow, s, ctx, answers);
    }
  }

  lemma RouteKnown(flow: CompiledFlow, s: set<NodeId>, p: seq<NodeId>, labels: seq<EdgeCondition>)
    requires Route(flow, s, p, labels)
    ensures |p| == |labels| + 1 && flow.Knows(p[0]) && flow.Knows(Last(p))
  {
  }

  /** The exact cut on flows without guards: evading `s` is possible exactly if a route leads around it. */
  lemma UnguardedCutExact(flow: CompiledFlow, s: set<NodeId>, origin: State)
    requires flow.Valid() && Unguarded(flow) && AreAuthenticators(flow, s)
    requires origin.currentNode == flow.definition.start
    ensures flow.Knows(origin.currentNode)
    ensures (exists calls: seq<Call>, last: Call, d: Dispatcher :: Evades(flow, s, origin, calls, last, d))
            <==> exists p: seq<NodeId>, labels: seq<EdgeCondition> :: WayAround(flow, s, p, labels)
  {
    hide Bypass, Evades, WayAround, flow.Valid, Unguarded;
    CutExact(flow, s, origin);
    BypassIffWayAround(flow, s, origin.context);
  }
}
