/**
 The executor: one `step` call walks the compiled graph until it has something to return.

 The dispatcher that runs authenticators is untrusted. It is modelled as an arbitrary function of
 the position of the call in the whole run, the provider, the state and the input, so every
 sequence of answers any dispatcher can give is covered. The clock is read once per step.
 */
module FlowExecutor {
  import opened Prelude
  import opened FlowDsl
  import opened FlowCompile

  datatype StepInput =
    | StartInput
    | Submit(form: map<string, string>)
    | IdpCallback(query: map<string, string>, body: map<string, string>)
    | Resume

  datatype FlowFailure =
    | InvalidCredential | UserDisabled | UserNotFound | ConsentDenied
    | BrokerError(message: string) | SpiError(message: string) | Other(reason: string)

  /** `Done` carries the context's user id; parsing it into a subject is not modelled. */
  datatype StepOutput =
    | Rendered(template: string, locals: map<string, Json>)
    | Done(userId: Option<string>)
    | Failed(failure: FlowFailure)

  datatype FlowError = Invalid(message: string) | DeadEnd(node: NodeId) | Expired | Internal(message: string)

  datatype Answer =
    | AnswerRender(template: string, locals: map<string, Json>)
    | AnswerSuccess(amr: seq<string>, levelDelta: i32, userId: Option<string>, locals: map<string, Json>)
    | AnswerSkip
    | AnswerFailure(failure: FlowFailure)

  /** The outcome labels the executor writes into the history. */
  datatype OutcomeLabel = Advanced | Submitted | MarkedSuccess | WasSkipped | HasFailed

  datatype HistoryEntry = HistoryEntry(node: NodeId, at: int, outcome: OutcomeLabel)

  datatype State = State(
    currentNode: NodeId,
    history: seq<HistoryEntry>,
    context: FlowContext,
    lastActivityAt: int,
    expiresAt: int
  )

  type Dispatched = Result<Answer, FlowError>
  type Dispatcher = (nat, string, State, StepInput) -> Dispatched
  type StepResult = Result<StepOutput, FlowError>

  /** What one loop iteration did: where it was, the context edges were judged in, where it went. */
  datatype Visit = Visit(node: NodeId, context: FlowContext, answer: Option<Dispatched>, next: Option<NodeId>)

  /** The end of an iteration: `result` is None when the loop continues. */
  datatype Iteration = Iteration(state: State, visit: Visit, result: Option<StepResult>)

  datatype Progress = Progress(state: State, log: seq<Visit>, result: Option<StepResult>)

  function MergeAmr(have: seq<string>, extra: seq<string>): seq<string>
    decreases |extra|
  {
    if extra == [] then have
    else MergeAmr(if extra[0] in have then have else have + [extra[0]], extra[1..])
  }

  /** What a successful authenticator contributes to the context. */
  function Merge(ctx: FlowContext, a: Answer): FlowContext
    requires a.AnswerSuccess?
  {
    ctx.(amr := MergeAmr(ctx.amr, a.amr),
         authnLevel := WrapI32(ctx.authnLevel as int + a.levelDelta as int),
         userId := if a.userId.Some? then a.userId else ctx.userId,
         locals := ctx.locals + a.locals)
  }

  /** A success that brings nothing changes nothing. */
  lemma NothingMerged(ctx: FlowContext)
    ensures Merge(ctx, AnswerSuccess([], 0, None, map[])) == ctx
  {
    assert ctx.locals + map[] == ctx.locals;
    assert MergeAmr(ctx.amr, []) == ctx.amr;
  }

  function BrokerTemplate(alias: string): string {
    "broker::" + alias
  }

  function Record(st: State, now: int, outcome: OutcomeLabel): State {
    st.(history := st.history + [HistoryEntry(st.currentNode, now, outcome)])
  }

  /** Move along `next`, or report a dead end. */
  function Advance(st: State, answer: Option<Dispatched>, next: Option<NodeId>): Iteration {
    var visit := Visit(st.currentNode, st.context, answer, next);
    match next
    case Some(n) => Iteration(st.(currentNode := n), visit, None)
    case None => Iteration(st, visit, Some(Err(DeadEnd(st.currentNode))))
  }

  function Halt(st: State, answer: Option<Dispatched>, result: StepResult): Iteration {
    Iteration(st, Visit(st.currentNode, st.context, answer, None), Some(result))
  }

  function AfterAnswer(flow: CompiledFlow, st: State, d: Dispatched, now: int): Iteration {
    match d
    case Err(e) => Halt(st, Some(d), Err(e))
    case Ok(AnswerRender(template, locals)) => Halt(st, Some(d), Ok(Rendered(template, locals)))
    case Ok(AnswerSuccess(amr, delta, user, locals)) =>
      var merged := Record(st.(context := Merge(st.context, d.value)), now, MarkedSuccess);
      Advance(merged, Some(d), OrElse(flow.NextWithGuard(merged.currentNode, OnSuccess, merged.context),
                                      flow.NextWithGuard(merged.currentNode, Otherwise, merged.context)))
    case Ok(AnswerSkip) =>
      var skipped := Record(st, now, WasSkipped);
      Advance(skipped, Some(d), flow.NextWithGuard(skipped.currentNode, Otherwise, skipped.context))
    case Ok(AnswerFailure(failure)) =>
      var failed := Record(st, now, HasFailed);
      var next := flow.NextWithGuard(failed.currentNode, OnFailure, failed.context);
      if next.Some? then Advance(failed, Some(d), next) else Halt(failed, Some(d), Ok(Failed(failure)))
  }

  /** One turn of the loop in `step`. */
  function Iterate(flow: CompiledFlow, st: State, input: StepInput, d: Dispatcher, k: nat, now: int): (it: Iteration)
    requires flow.Knows(st.currentNode)
  {
    var id := st.currentNode;
    match flow.Node(id).kind
    case Start(_) =>
      Advance(Record(st, now, Advanced), None, flow.NextWithGuard(id, Otherwise, st.context))
    case Render(template) =>
      if input.StartInput? || input.Resume? then Halt(st, None, Ok(Rendered(template, st.context.locals)))
      else Advance(Record(st, now, Submitted), None,
                   OrElse(flow.NextWithGuard(id, OnSuccess, st.context), flow.NextWithGuard(id, Otherwise, st.context)))
    case Authenticator(urn) => AfterAnswer(flow, st, d(k, urn, st, input), now)
    case Broker(alias) => Halt(st, None, Ok(Rendered(BrokerTemplate(alias), st.context.locals)))
    case Switch(condition) =>
      Advance(st, None, OrElse(flow.NextWithGuard(id, OnStatus(condition), st.context),
                               flow.NextWithGuard(id, Otherwise, st.context)))
    case Action(_) => Advance(st, None, flow.NextWithGuard(id, Otherwise, st.context))
    case SubFlow(_) => Advance(st, None, flow.NextWithGuard(id, Otherwise, st.context))
    case SuccessTerminal(_, _) => Halt(Record(st, now, MarkedSuccess), None, Ok(Done(st.context.userId)))
    case FailureTerminal(reason) => Halt(Record(st, now, HasFailed), None, Ok(Failed(Other(reason))))
  }

  lemma IterateStaysKnown(flow: CompiledFlow, st: State, input: StepInput, d: Dispatcher, k: nat, now: int)
    requires flow.Valid() && flow.Knows(st.currentNode)
    ensures flow.Knows(Iterate(flow, st, input, d, k, now).state.currentNode)
  {
    var it := Iterate(flow, st, input, d, k, now);
    if it.visit.next.Some? {
      var on := AskedLabel(flow.Node(st.currentNode).kind, it.visit.answer);
      AdvanceAsked(flow, st, input, d, k, now);
      NextIsEdge(flow, st.currentNode, on, it.visit.context);
    }
  }

  /** The label a node asks for, given the answer of its dispatch if it had one. */
  function AskedLabel(kind: NodeKind, answer: Option<Dispatched>): EdgeCondition {
    match kind
    case Render(_) => OnSuccess
    case Switch(condition) => OnStatus(condition)
    case Authenticator(_) =>
      (match answer
       case Some(Ok(AnswerSuccess(_, _, _, _))) => OnSuccess
       case Some(Ok(AnswerFailure(_))) => OnFailure
       case _ => Otherwise)
    case _ => Otherwise
  }

  /** Whenever the loop moves on, it moves along the guarded lookup for the label its node asks for. */
  lemma AdvanceAsked(flow: CompiledFlow, st: State, input: StepInput, d: Dispatcher, k: nat, now: int)
    requires flow.Knows(st.currentNode)
    ensures var it := Iterate(flow, st, input, d, k, now);
            it.visit.next.Some? ==>
              it.visit.next == flow.NextWithGuard(st.currentNode,
                                 AskedLabel(flow.Node(st.currentNode).kind, it.visit.answer), it.visit.context)
  {
  }

  /** The loop, cut off after `n` iterations; `result` is None when it was cut off. */
  function Loop(flow: CompiledFlow, st: State, log: seq<Visit>, input: StepInput, d: Dispatcher, now: int, n: nat)
    : (p: Progress)
    requires flow.Valid() && flow.Knows(st.currentNode)
    ensures flow.Knows(p.state.currentNode)
    ensures log <= p.log && |p.log| <= |log| + n
    ensures p.result.None? ==> |p.log| == |log| + n
    decreases n
  {
    if n == 0 then Progress(st, log, None)
    else
      var it := Iterate(flow, st, input, d, |log|, now);
      IterateStaysKnown(flow, st, input, d, |log|, now);
      if it.result.Some? then Progress(it.state, log + [it.visit], it.result)
      else Loop(flow, it.state, log + [it.visit], input, d, now, n - 1)
  }

  /** One `step` call, cut off after `n` iterations. An expired state is returned as it came. */
  function StepWithin(flow: CompiledFlow, st: State, log: seq<Visit>, input: StepInput, d: Dispatcher, now: int, n: nat)
    : (p: Progress)
    requires flow.Valid() && flow.Knows(st.currentNode)
    ensures flow.Knows(p.state.currentNode) && log <= p.log
  {
    if st.expiresAt < now then Progress(st, log, Some(Err(Expired)))
    else Loop(flow, st.(lastActivityAt := now), log, input, d, now, n)
  }

  /** One round of the loop, stated without its inner workings. */
  lemma LoopUnfold(flow: CompiledFlow, st: State, log: seq<Visit>, input: StepInput, d: Dispatcher, now: int, n: nat)
    requires flow.Valid() && flow.Knows(st.currentNode)
    ensures n == 0 ==> Loop(flow, st, log, input, d, now, n) == Progress(st, log, None)
    ensures n > 0 ==>
              var it := Iterate(flow, st, input, d, |log|, now);
              && flow.Knows(it.state.currentNode)
              && Loop(flow, st, log, input, d, now, n)
                 == if it.result.Some? then Progress(it.state, log + [it.visit], it.result)
                    else Loop(flow, it.state, log + [it.visit], input, d, now, n - 1)
  {
    hide Iterate;
    IterateStaysKnown(flow, st, input, d, |log|, now);
  }

  /** Once the loop has returned, allowing more iterations changes nothing. */
  lemma {:induction false} LoopStable(flow: CompiledFlow, st: State, log: seq<Visit>, input: StepInput, d: Dispatcher,
                                      now: int, n: nat, m: nat)
    requires flow.Valid() && flow.Knows(st.currentNode) && n <= m
    requires Loop(flow, st, log, input, d, now, n).result.Some?
    ensures Loop(flow, st, log, input, d, now, m) == Loop(flow, st, log, input, d, now, n)
    decreases n
  {
    hide Iterate, Loop, flow.Valid;
    LoopUnfold(flow, st, log, input, d, now, n);
    LoopUnfold(flow, st, log, input, d, now, m);
    if n == 0 {
    } else {
      var it := Iterate(flow, st, input, d, |log|, now);
      if it.result.None? {
        LoopStable(flow, it.state, log + [it.visit], input, d, now, n - 1, m - 1);
      }
    }
  }

  /** The flow state the executor mutates in place. */
  class FlowState {
    var currentNode: NodeId
    var history: seq<HistoryEntry>
    var context: FlowContext
    var lastActivityAt: int
    const expiresAt: int

    constructor (start: NodeId, now: int, ttl: nat)
      ensures View() == Fresh(start, now, ttl)
    {
      currentNode := start;
      history := [];
      context := FlowContext(None, None, None, [], 0, None, None, map[]);
      lastActivityAt := now;
      expiresAt := now + ttl;
    }

    function View(): State
      reads this
    {
      State(currentNode, history, context, lastActivityAt, expiresAt)
    }

    /** `for a in amr { if !contains { push } }`. */
    method AddAmr(extra: seq<string>)
      modifies this`context
      ensures context == old(context).(amr := MergeAmr(old(context).amr, extra))
    {
      for i := 0 to |extra|
        invariant context == old(context).(amr := context.amr)
        invariant MergeAmr(context.amr, extra[i..]) == MergeAmr(old(context).amr, extra)
      {
        assert extra[i..][0] == extra[i] && extra[i..][1..] == extra[i + 1..];
        if extra[i] !in context.amr {
          context := context.(amr := context.amr + [extra[i]]);
        }
      }
    }

    method Push(now: int, outcome: OutcomeLabel)
      modifies this`history
      ensures View() == Record(old(View()), now, outcome)
    {
      history := history + [HistoryEntry(currentNode, now, outcome)];
    }

    /** The answer of an authenticator, applied in place. `None` means: go round the loop again. */
    method ApplyAnswer(flow: CompiledFlow, answered: Dispatched, now: int) returns (r: Option<StepResult>)
      modifies this`currentNode, this`history, this`context
      ensures View() == AfterAnswer(flow, old(View()), answered, now).state
      ensures r == AfterAnswer(flow, old(View()), answered, now).result
    {
      match answered {
        case Err(e) => return Some(Err(e));
        case Ok(answer) =>
          match answer {
            case AnswerRender(template, locals) => return Some(Ok(Rendered(template, locals)));
            case AnswerSuccess(amr, delta, user, locals) =>
              AddAmr(amr);
              context := context.(authnLevel := WrapI32(context.authnLevel as int + delta as int));
              if user.Some? {
                context := context.(userId := user);
              }
              context := context.(locals := context.locals + locals);
              Push(now, MarkedSuccess);
              var next := OrElse(flow.NextWithGuard(currentNode, OnSuccess, context),
                                 flow.NextWithGuard(currentNode, Otherwise, context));
              r := MoveTo(next);
            case AnswerSkip =>
              Push(now, WasSkipped);
              r := MoveTo(flow.NextWithGuard(currentNode, Otherwise, context));
            case AnswerFailure(failure) =>
              Push(now, HasFailed);
              var next := flow.NextWithGuard(currentNode, OnFailure, context);
              if next.Some? {
                currentNode := next.value;
                return None;
              }
              return Some(Ok(Failed(failure)));
          }
      }
    }

    method MoveTo(next: Option<NodeId>) returns (r: Option<StepResult>)
      modifies this`currentNode
      ensures View() == Advance(old(View()), None, next).state
      ensures r == Advance(old(View()), None, next).result
    {
      if next.None? {
        return Some(Err(DeadEnd(currentNode)));
      }
      currentNode := next.value;
      r := None;
    }

    /** One turn of the loop, in place. */
    method Turn(flow: CompiledFlow, input: StepInput, d: Dispatcher, k: nat, now: int) returns (r: Option<StepResult>)
      requires flow.Knows(currentNode)
      modifies this`currentNode, this`history, this`context
      ensures View() == Iterate(flow, old(View()), input, d, k, now).state
      ensures r == Iterate(flow, old(View()), input, d, k, now).result
    {
      match flow.Node(currentNode).kind {
        case Start(_) =>
          Push(now, Advanced);
          r := MoveTo(flow.NextWithGuard(currentNode, Otherwise, context));
        case Render(template) =>
          if input.StartInput? || input.Resume? {
            return Some(Ok(Rendered(template, context.locals)));
          }
          Push(now, Submitted);
          r := MoveTo(OrElse(flow.NextWithGuard(currentNode, OnSuccess, context),
                             flow.NextWithGuard(currentNode, Otherwise, context)));
        case Authenticator(urn) =>
          r := ApplyAnswer(flow, d(k, urn, View(), input), now);
        case Broker(alias) =>
          r := Some(Ok(Rendered(BrokerTemplate(alias), context.locals)));
        case Switch(condition) =>
          r := MoveTo(OrElse(flow.NextWithGuard(currentNode, OnStatus(condition), context),
                             flow.NextWithGuard(currentNode, Otherwise, context)));
        case Action(_) =>
          r := MoveTo(flow.NextWithGuard(currentNode, Otherwise, context));
        case SubFlow(_) =>
          r := MoveTo(flow.NextWithGuard(currentNode, Otherwise, context));
        case SuccessTerminal(_, _) =>
          Push(now, MarkedSuccess);
          r := Some(Ok(Done(context.userId)));
        case FailureTerminal(reason) =>
          Push(now, HasFailed);
          r := Some(Ok(Failed(Other(reason))));
      }
    }

    /**
     The executor's `step`. The source loop has no iteration budget, so it returns exactly on the
     inputs for which some number `n` of iterations is enough; `n` is known to the proof only.
     */
    method Step(flow: CompiledFlow, input: StepInput, d: Dispatcher, now: int,
                ghost log: seq<Visit>, calls: nat, ghost n: nat)
      returns (r: StepResult)
      requires flow.Valid() && flow.Knows(currentNode) && calls == |log|
      requires StepWithin(flow, View(), log, input, d, now, n).result.Some?
      modifies this
      ensures StepWithin(flow, old(View()), log, input, d, now, n).result == Some(r)
      ensures View() == StepWithin(flow, old(View()), log, input, d, now, n).state
    {
      hide Iterate, Loop, flow.Valid;
      ghost var before := View();
      ghost var target := StepWithin(flow, before, log, input, d, now, n);
      if expiresAt < now {
        return Err(Expired);
      }
      lastActivityAt := now;
      var k := calls;
      ghost var seen, left := log, n;
      while true
        invariant flow.Knows(currentNode) && k == |seen|
        invariant Loop(flow, View(), seen, input, d, now, left) == target
        decreases left
      {
        ghost var st := View();
        LoopUnfold(flow, st, seen, input, d, now, left);
        var out := Turn(flow, input, d, k, now);
        if out.Some? {
          return out.value;
        }
        seen := seen + [Iterate(flow, st, input, d, k, now).visit];
        k := k + 1;
        left := left - 1;
      }
    }
  }

  /** A state just created for a flow: at the start node, nothing gathered. */
  function Fresh(start: NodeId, now: int, ttl: nat): State {
    State(start, [], FlowContext(None, None, None, [], 0, None, None, map[]), now, now + ttl)
  }
}
