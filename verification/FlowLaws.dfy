/**
 What single iterations and whole runs do, read off the definition's edges and the log of answers alone:
 neither the index nor the way contexts are merged appears in these statements.
 */
module FlowLaws {
  import opened Prelude
  import opened FlowDsl
  import opened FlowCompile
  import opened FlowExecutor
  import opened FlowRuns

  // ---- Who is logged in, and with which locals ----

  predicate BringsUser(v: Visit) {
    Succeeded(v) && v.answer.value.value.userId.Some?
  }

  predicate BringsLocal(v: Visit, key: string) {
    Succeeded(v) && key in v.answer.value.value.locals
  }

  function LocalBringer(key: string): Visit -> bool {
    v => BringsLocal(v, key)
  }

  /** The user id is the last one a logged success brought, else the initial one. */
  ghost predicate UserFrom(initial: Option<string>, log: seq<Visit>, user: Option<string>) {
    && (NoneHolds(log, BringsUser) ==> user == initial)
    && (forall i: nat :: LastAt(log, BringsUser, i) ==> user == log[i].answer.value.value.userId)
  }

  /** So is each local. */
  ghost predicate LocalFrom(initial: map<string, Json>, log: seq<Visit>, locals: map<string, Json>, key: string) {
    && (NoneHolds(log, LocalBringer(key)) ==>
          (key in locals <==> key in initial) && (key in locals ==> locals[key] == initial[key]))
    && (forall i: nat :: LastAt(log, LocalBringer(key), i) ==>
          key in locals && locals[key] == log[i].answer.value.value.locals[key])
  }

  lemma UserOneMore(initial: Option<string>, log: seq<Visit>, before: Option<string>, user: Option<string>)
    requires log != [] && UserFrom(initial, log[..|log| - 1], before)
    requires user == if BringsUser(log[|log| - 1]) then log[|log| - 1].answer.value.value.userId else before
    ensures UserFrom(initial, log, user)
  {
    hide NoneHolds, LastAt;
    OneMore(log, BringsUser, 0);
    forall i: nat | LastAt(log, BringsUser, i)
      ensures i < |log| && BringsUser(log[i]) && user == log[i].answer.value.value.userId
    {
      IsThere(log, BringsUser, i);
      OneMore(log, BringsUser, i);
    }
  }

  lemma {:induction false} GatheredUser(ctx: FlowContext, log: seq<Visit>)
    ensures UserFrom(ctx.userId, log, Gathered(ctx, log).userId)
    decreases |log|
  {
    if log == [] {
    } else {
      GatheredUser(ctx, log[..|log| - 1]);
      hide UserFrom, MergeAmr;
      UserOneMore(ctx.userId, log, Gathered(ctx, log[..|log| - 1]).userId, Gathered(ctx, log).userId);
    }
  }

  lemma LocalOneMore(initial: map<string, Json>, log: seq<Visit>, before: map<string, Json>, locals: map<string, Json>,
                     key: string)
    requires log != [] && LocalFrom(initial, log[..|log| - 1], before, key)
    requires if BringsLocal(log[|log| - 1], key)
             then key in locals && locals[key] == log[|log| - 1].answer.value.value.locals[key]
             else (key in locals <==> key in before) && (key in locals ==> locals[key] == before[key])
    ensures LocalFrom(initial, log, locals, key)
  {
    hide NoneHolds, LastAt;
    OneMore(log, LocalBringer(key), 0);
    forall i: nat | LastAt(log, LocalBringer(key), i)
      ensures i < |log| && BringsLocal(log[i], key) && key in locals
      ensures locals[key] == log[i].answer.value.value.locals[key]
    {
      IsThere(log, LocalBringer(key), i);
      OneMore(log, LocalBringer(key), i);
    }
  }

  lemma {:induction false} GatheredLocal(ctx: FlowContext, log: seq<Visit>, key: string)
    ensures LocalFrom(ctx.locals, log, Gathered(ctx, log).locals, key)
    decreases |log|
  {
    if log == [] {
    } else {
      GatheredLocal(ctx, log[..|log| - 1], key);
      hide LocalFrom, MergeAmr;
      LocalOneMore(ctx.locals, log, Gathered(ctx, log[..|log| - 1]).locals, Gathered(ctx, log).locals, key);
    }
  }

  lemma {:induction false} GatheredKeepsTheRest(ctx: FlowContext, log: seq<Visit>)
    ensures var r := Gathered(ctx, log);
            && r.username == ctx.username && r.clientId == ctx.clientId
            && r.requestedAcr == ctx.requestedAcr && r.sessionId == ctx.sessionId
    decreases |log|
  {
    if log == [] {
    } else {
      GatheredKeepsTheRest(ctx, log[..|log| - 1]);
    }
  }

  /**
   In every run the user id and each local are those of the last logged success that brought them, or the
   initial ones; the rest of the context never changes.
   */
  lemma RunContextExact(flow: CompiledFlow, origin: State, calls: seq<Call>, d: Dispatcher, key: string)
    requires flow.Valid() && flow.Knows(origin.currentNode)
    ensures var r := RunCalls(flow, origin, calls, d);
            && UserFrom(origin.context.userId, r.log, r.state.context.userId)
            && LocalFrom(origin.context.locals, r.log, r.state.context.locals, key)
            && r.state.context.username == origin.context.username
            && r.state.context.clientId == origin.context.clientId
            && r.state.context.requestedAcr == origin.context.requestedAcr
            && r.state.context.sessionId == origin.context.sessionId
  {
    hide UserFrom, LocalFrom, RunCalls, Gathered;
    var r := RunCalls(flow, origin, calls, d);
    RunSound(flow, origin, calls, d);
    GatheredUser(origin.context, r.log);
    GatheredLocal(origin.context, r.log, key);
    GatheredKeepsTheRest(origin.context, r.log);
  }

  /** `Done` names the user of the last success that brought one, over the whole run. */
  lemma DoneNamesLastUser(flow: CompiledFlow, origin: State, calls: seq<Call>, last: Call, d: Dispatcher)
    requires flow.Valid() && flow.Knows(origin.currentNode)
    requires EndsDone(Finish(flow, origin, calls, last, d))
    ensures var p := Finish(flow, origin, calls, last, d);
            UserFrom(origin.context.userId, p.log, p.result.value.value.userId)
  {
    hide Loop, UserFrom, LocalFrom, flow.Valid;
    var before := RunCalls(flow, origin, calls, d);
    var begun := before.state.(lastActivityAt := last.now);
    DoneAtSuccess(flow, begun, before.log, last.input, d, last.now, last.iterations);
    var all := calls + [last];
    assert all[..|all| - 1] == calls;
    var p := Finish(flow, origin, calls, last, d);
    assert RunCalls(flow, origin, all, d) == Run(p.state, p.log);
    RunContextExact(flow, origin, all, d, "");
  }

  // ---- What the history records ----

  predicate Pauses(input: StepInput) {
    input.StartInput? || input.Resume?
  }

  /** What a visit leaves in the history. */
  function Entry(flow: CompiledFlow, v: Visit, input: StepInput, now: int): seq<HistoryEntry>
    requires flow.Knows(v.node)
  {
    match flow.Node(v.node).kind
    case Start(_) => [HistoryEntry(v.node, now, Advanced)]
    case Render(_) => if Pauses(input) then [] else [HistoryEntry(v.node, now, Submitted)]
    case Authenticator(_) =>
      (match v.answer
       case Some(Ok(AnswerSuccess(_, _, _, _))) => [HistoryEntry(v.node, now, MarkedSuccess)]
       case Some(Ok(AnswerSkip)) => [HistoryEntry(v.node, now, WasSkipped)]
       case Some(Ok(AnswerFailure(_))) => [HistoryEntry(v.node, now, HasFailed)]
       case _ => [])
    case SuccessTerminal(_, _) => [HistoryEntry(v.node, now, MarkedSuccess)]
    case FailureTerminal(_) => [HistoryEntry(v.node, now, HasFailed)]
    case _ => []
  }

  /** The entries of the visits from position `from` on. */
  function Entries(flow: CompiledFlow, log: seq<Visit>, from: nat, input: StepInput, now: int): seq<HistoryEntry>
    requires forall i :: from <= i < |log| ==> flow.Knows(log[i].node)
  {
    if |log| <= from then []
    else Entries(flow, log[..|log| - 1], from, input, now) + Entry(flow, log[|log| - 1], input, now)
  }

  lemma IterationEntry(flow: CompiledFlow, st: State, input: StepInput, d: Dispatcher, k: nat, now: int)
    requires flow.Knows(st.currentNode)
    ensures var it := Iterate(flow, st, input, d, k, now);
            && it.visit.node == st.currentNode
            && it.state.history == st.history + Entry(flow, it.visit, input, now)
            && it.state.lastActivityAt == st.lastActivityAt
  {
    hide flow.NextWithGuard, Merge, OrElse;
  }

  /** One call adds to the history exactly the entries of its visits, in order, at the time of the call. */
  lemma {:induction false} LoopHistory(flow: CompiledFlow, st: State, log: seq<Visit>, from: nat,
                                       before: seq<HistoryEntry>, input: StepInput, d: Dispatcher, now: int, n: nat)
    requires flow.Valid() && flow.Knows(st.currentNode) && from <= |log|
    requires forall i :: from <= i < |log| ==> flow.Knows(log[i].node)
    requires st.history == before + Entries(flow, log, from, input, now)
    ensures var p := Loop(flow, st, log, input, d, now, n);
            && (forall i :: from <= i < |p.log| ==> flow.Knows(p.log[i].node))
            && p.state.history == before + Entries(flow, p.log, from, input, now)
            && p.state.lastActivityAt == st.lastActivityAt
    decreases n
  {
    hide Iterate, Loop, flow.Valid, Entry;
    LoopUnfold(flow, st, log, input, d, now, n);
    if n == 0 {
    } else {
      var it := Iterate(flow, st, input, d, |log|, now);
      IterationEntry(flow, st, input, d, |log|, now);
      var longer := log + [it.visit];
      assert longer[..|log|] == log;
      var entry := Entry(flow, it.visit, input, now);
      assert before + Entries(flow, log, from, input, now) + entry == before + Entries(flow, longer, from, input, now);
      if it.result.None? {
        LoopHistory(flow, it.state, longer, from, before, input, d, now, n - 1);
      }
    }
  }

  /** An unexpired call adds exactly the entries of its visits and marks the time of the call. */
  lemma StepHistoryExact(flow: CompiledFlow, st: State, log: seq<Visit>, input: StepInput, d: Dispatcher,
                         now: int, n: nat)
    requires flow.Valid() && flow.Knows(st.currentNode) && now <= st.expiresAt
    ensures var p := StepWithin(flow, st, log, input, d, now, n);
            && (forall i :: |log| <= i < |p.log| ==> flow.Knows(p.log[i].node))
            && p.state.history == st.history + Entries(flow, p.log, |log|, input, now)
            && p.state.lastActivityAt == now
  {
    var begun := st.(lastActivityAt := now);
    assert st.history == st.history + Entries(flow, log, |log|, input, now);
    LoopHistory(flow, begun, log, |log|, st.history, input, d, now, n);
  }

  /** A state created at `made` takes steps until its lifetime is over and from then on is only refused. */
  lemma FreshStateLives(flow: CompiledFlow, made: int, ttl: nat, input: StepInput, d: Dispatcher, now: int, n: nat)
    requires flow.Valid() && flow.Knows(flow.definition.start) && n > 0
    ensures var st := Fresh(flow.definition.start, made, ttl);
            var p := StepWithin(flow, st, [], input, d, now, n);
            if now > made + ttl then p == Progress(st, [], Some(Err(Expired)))
            else p.log != [] && p.log[0].node == flow.definition.start
  {
    hide Iterate, Loop, flow.Valid;
    if now <= made + ttl {
      var begun := Fresh(flow.definition.start, made, ttl).(lastActivityAt := now);
      LoopUnfold(flow, begun, [], input, d, now, n);
      IterationEntry(flow, begun, input, d, 0, now);
      var it := Iterate(flow, begun, input, d, 0, now);
      assert ([] + [it.visit])[0] == it.visit;
    }
  }

  // ---- Where an iteration goes and what it answers ----

  /** `next` is what the definition's edges out of `n` select for `on`, with `Otherwise` to fall back on. */
  ghost predicate Chosen(flow: CompiledFlow, n: NodeId, on: EdgeCondition, ctx: FlowContext, next: Option<NodeId>) {
    var edges := EdgesFrom(flow.definition.edges, n);
    match next
    case Some(to) =>
      || Selects(edges, on, ctx, to)
      || (NoneMatch(edges, on, ctx) && Selects(edges, Otherwise, ctx, to))
    case None => NoneMatch(edges, on, ctx) && NoneMatch(edges, Otherwise, ctx)
  }

  /** The iteration moves along the chosen edge and goes on, or stays and returns `stuck`. */
  ghost predicate MovesOr(flow: CompiledFlow, st: State, it: Iteration, on: EdgeCondition, stuck: StepResult) {
    && Chosen(flow, st.currentNode, on, it.state.context, it.visit.next)
    && match it.visit.next
       case Some(to) => it.result.None? && it.state.currentNode == to
       case None => it.result == Some(stuck) && it.state.currentNode == st.currentNode
  }

  ghost predicate Returns(st: State, it: Iteration, result: StepResult) {
    it.result == Some(result) && it.state.currentNode == st.currentNode && it.state.context == st.context
  }

  /** What an authenticator's answer leads to. */
  ghost predicate Answered(flow: CompiledFlow, st: State, it: Iteration, answer: Dispatched) {
    var dead: StepResult := Err(DeadEnd(st.currentNode));
    match answer
    case Err(e) => Returns(st, it, Err(e))
    case Ok(AnswerRender(template, locals)) => Returns(st, it, Ok(Rendered(template, locals)))
    case Ok(AnswerSuccess(_, _, _, _)) => MovesOr(flow, st, it, OnSuccess, dead)
    case Ok(AnswerSkip) => MovesOr(flow, st, it, Otherwise, dead) && it.state.context == st.context
    case Ok(AnswerFailure(f)) => MovesOr(flow, st, it, OnFailure, Ok(Failed(f))) && it.state.context == st.context
  }

  lemma ChosenIsNext(flow: CompiledFlow, n: NodeId, on: EdgeCondition, ctx: FlowContext)
    requires flow.Valid()
    ensures Chosen(flow, n, on, ctx, flow.NextWithGuard(n, on, ctx))
  {
    hide flow.Valid, flow.NextWithGuard, Selects, NoneMatch;
    NextWithGuardExact(flow, n, on, ctx);
  }

  /**
   Every node kind, every input and every answer: which definition edge is taken, and what is returned when
   none is or the node stops the walk.
   */
  lemma IterationExact(flow: CompiledFlow, st: State, input: StepInput, d: Dispatcher, k: nat, now: int)
    requires flow.Valid() && flow.Knows(st.currentNode)
    ensures var it := Iterate(flow, st, input, d, k, now);
            var dead: StepResult := Err(DeadEnd(st.currentNode));
            match flow.Node(st.currentNode).kind
            case Start(_) => MovesOr(flow, st, it, Otherwise, dead) && it.state.context == st.context
            case Render(template) =>
              if Pauses(input) then Returns(st, it, Ok(Rendered(template, st.context.locals)))
              else MovesOr(flow, st, it, OnSuccess, dead) && it.state.context == st.context
            case Authenticator(urn) => Answered(flow, st, it, d(k, urn, st, input))
            case Broker(alias) => Returns(st, it, Ok(Rendered("broker::" + alias, st.context.locals)))
            case Switch(condition) =>
              MovesOr(flow, st, it, OnStatus(condition), dead) && it.state.context == st.context
            case Action(_) => MovesOr(flow, st, it, Otherwise, dead) && it.state.context == st.context
            case SubFlow(_) => MovesOr(flow, st, it, Otherwise, dead) && it.state.context == st.context
            case SuccessTerminal(_, _) => Returns(st, it, Ok(Done(st.context.userId)))
            case FailureTerminal(reason) => Returns(st, it, Ok(Failed(Other(reason))))
  {
    var kind := flow.Node(st.currentNode).kind;
    var it := Iterate(flow, st, input, d, k, now);
    var on := AskedLabel(kind, it.visit.answer);
    ChosenIsNext(flow, st.currentNode, on, it.state.context);
    FallbackAbsorbed(flow, st.currentNode, on, it.state.context);
    hide flow.Valid, flow.NextWithGuard, Chosen, Merge;
  }
}
