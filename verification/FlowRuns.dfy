/** What every run of the executor keeps, for every dispatcher and every sequence of inputs. */
module FlowRuns {
  import opened Prelude
  import opened FlowDsl
  import opened FlowGuard
  import opened FlowGraph
  import opened FlowCompile
  import opened FlowExecutor

  /** One `step` call: its input, its clock reading, and how many iterations it was given. */
  datatype Call = Call(input: StepInput, now: int, iterations: nat)

  /** A state together with everything visited since the run began. */
  datatype Run = Run(state: State, log: seq<Visit>)

  function RunCalls(flow: CompiledFlow, origin: State, calls: seq<Call>, d: Dispatcher): (r: Run)
    requires flow.Valid() && flow.Knows(origin.currentNode)
    ensures flow.Knows(r.state.currentNode)
  {
    if calls == [] then Run(origin, [])
    else
      var before := RunCalls(flow, origin, calls[..|calls| - 1], d);
      var c := calls[|calls| - 1];
      var p := StepWithin(flow, before.state, before.log, c.input, d, c.now, c.iterations);
      Run(p.state, p.log)
  }

  // ---- The specification of a run, read off its log ----

  /** The nodes walked: the start, then the target of every move. */
  function Walked(start: NodeId, log: seq<Visit>): (p: seq<NodeId>)
    ensures |p| > 0
  {
    if log == [] then [start]
    else
      var v := log[|log| - 1];
      Walked(start, log[..|log| - 1]) + if v.next.Some? then [v.next.value] else []
  }

  function Last(p: seq<NodeId>): NodeId
    requires |p| > 0
  {
    p[|p| - 1]
  }

  predicate Succeeded(v: Visit) {
    v.answer.Some? && v.answer.value.Ok? && v.answer.value.value.AnswerSuccess?
  }

  /** The context that successful answers alone account for. */
  function Gathered(ctx: FlowContext, log: seq<Visit>): FlowContext {
    if log == [] then ctx
    else
      var before := Gathered(ctx, log[..|log| - 1]);
      var v := log[|log| - 1];
      if Succeeded(v) then Merge(before, v.answer.value.value) else before
  }

  /** A visit is legal if only authenticators are dispatched and every move is a guarded lookup. */
  ghost predicate LegalVisit(flow: CompiledFlow, v: Visit) {
    && flow.Knows(v.node)
    && (v.answer.Some? ==> flow.Node(v.node).kind.Authenticator?)
    && (flow.Node(v.node).kind.Authenticator? ==> v.answer.Some?)
    && (v.next.Some? ==>
          v.next == flow.NextWithGuard(v.node, AskedLabel(flow.Node(v.node).kind, v.answer), v.context))
  }

  /** Everything a run keeps: where it is, what it has gathered and what it has recorded follow from its log. */
  ghost predicate Sound(flow: CompiledFlow, origin: State, st: State, log: seq<Visit>) {
    && flow.Knows(st.currentNode)
    && st.currentNode == Last(Walked(origin.currentNode, log))
    && st.context == Gathered(origin.context, log)
    && st.expiresAt == origin.expiresAt
    && origin.history <= st.history
    && (forall i :: 0 <= i < |log| ==> SoundAt(flow, origin, log, i))
  }

  ghost predicate SoundAt(flow: CompiledFlow, origin: State, log: seq<Visit>, i: nat)
    requires i < |log|
  {
    && LegalVisit(flow, log[i])
    && log[i].node == Last(Walked(origin.currentNode, log[..i]))
    && log[i].context == Gathered(origin.context, log[..i + 1])
  }

  // ---- Every iteration keeps it ----

  lemma IterationShape(flow: CompiledFlow, st: State, input: StepInput, d: Dispatcher, k: nat, now: int)
    requires flow.Knows(st.currentNode)
    ensures var it := Iterate(flow, st, input, d, k, now);
            && it.visit.node == st.currentNode && it.visit.context == it.state.context
            && (it.visit.answer.Some? <==> flow.Node(st.currentNode).kind.Authenticator?)
            && it.state.currentNode == (if it.visit.next.Some? then it.visit.next.value else st.currentNode)
            && it.state.context == (if Succeeded(it.visit) then Merge(st.context, it.visit.answer.value.value)
                                    else st.context)
            && it.state.expiresAt == st.expiresAt && st.history <= it.state.history
            && (it.result.None? <==> it.visit.next.Some?)
  {
    hide EvalGuard, FirstMatch, MergeAmr;
  }

  lemma IterationLegal(flow: CompiledFlow, st: State, input: StepInput, d: Dispatcher, k: nat, now: int)
    requires flow.Valid() && flow.Knows(st.currentNode)
    ensures LegalVisit(flow, Iterate(flow, st, input, d, k, now).visit)
    ensures flow.Knows(Iterate(flow, st, input, d, k, now).state.currentNode)
  {
    hide Iterate;
    IterationShape(flow, st, input, d, k, now);
    AdvanceAsked(flow, st, input, d, k, now);
    IterateStaysKnown(flow, st, input, d, k, now);
  }

  lemma SoundExtends(flow: CompiledFlow, origin: State, st: State, log: seq<Visit>,
                     input: StepInput, d: Dispatcher, now: int)
    requires flow.Valid() && Sound(flow, origin, st, log)
    ensures var it := Iterate(flow, st, input, d, |log|, now);
            Sound(flow, origin, it.state, log + [it.visit])
  {
    hide Iterate, Merge, EvalGuard, AskedLabel;
    var it := Iterate(flow, st, input, d, |log|, now);
    IterationShape(flow, st, input, d, |log|, now);
    IterationLegal(flow, st, input, d, |log|, now);
    var longer := log + [it.visit];
    assert longer[..|log|] == log;
    assert longer[..|log| + 1] == longer;
    forall i | 0 <= i < |longer|
      ensures SoundAt(flow, origin, longer, i)
    {
      if i < |log| {
        assert SoundAt(flow, origin, log, i);
        assert longer[..i] == log[..i] && longer[..i + 1] == log[..i + 1];
      }
    }
  }

  lemma {:induction false} LoopSound(flow: CompiledFlow, origin: State, st: State, log: seq<Visit>,
                                     input: StepInput, d: Dispatcher, now: int, n: nat)
    requires flow.Valid() && flow.Knows(st.currentNode) && Sound(flow, origin, st, log)
    ensures var p := Loop(flow, st, log, input, d, now, n);
            Sound(flow, origin, p.state, p.log) && st.history <= p.state.history
    decreases n
  {
    hide Iterate, Loop, Sound, Merge, flow.Valid;
    LoopUnfold(flow, st, log, input, d, now, n);
    if n == 0 {
    } else {
      var it := Iterate(flow, st, input, d, |log|, now);
      SoundExtends(flow, origin, st, log, input, d, now);
      IterationShape(flow, st, input, d, |log|, now);
      if it.result.None? {
        LoopSound(flow, origin, it.state, log + [it.visit], input, d, now, n - 1);
      }
    }
  }

  /** An expired state comes back as it was; any other call keeps the run sound and only adds history. */
  lemma StepSound(flow: CompiledFlow, origin: State, st: State, log: seq<Visit>,
                  input: StepInput, d: Dispatcher, now: int, n: nat)
    requires flow.Valid() && Sound(flow, origin, st, log)
    ensures var p := StepWithin(flow, st, log, input, d, now, n);
            && Sound(flow, origin, p.state, p.log)
            && st.history <= p.state.history
            && (st.expiresAt < now ==> p == Progress(st, log, Some(Err(Expired))))
  {
    if st.expiresAt >= now {
      LoopSound(flow, origin, st.(lastActivityAt := now), log, input, d, now, n);
    }
  }

  lemma {:induction false} RunSound(flow: CompiledFlow, origin: State, calls: seq<Call>, d: Dispatcher)
    requires flow.Valid() && flow.Knows(origin.currentNode)
    ensures var r := RunCalls(flow, origin, calls, d); Sound(flow, origin, r.state, r.log)
    decreases |calls|
  {
    if calls == [] {
    } else {
      var c := calls[|calls| - 1];
      RunSound(flow, origin, calls[..|calls| - 1], d);
      var before := RunCalls(flow, origin, calls[..|calls| - 1], d);
      StepSound(flow, origin, before.state, before.log, c.input, d, c.now, c.iterations);
    }
  }

  // ---- What soundness means for a reader of the graph ----

  /** A labelled edge out of a node may be taken only on the outcome its label names. */
  predicate Permits(kind: NodeKind, answer: Option<Dispatched>, on: EdgeCondition) {
    match kind
    case Authenticator(_) =>
      && answer.Some? && answer.value.Ok? && !answer.value.value.AnswerRender?
      && (on.OnSuccess? ==> answer.value.value.AnswerSuccess?)
      && (on.OnFailure? ==> answer.value.value.AnswerFailure?)
      && !on.OnStatus?
    case Render(_) => on.OnSuccess? || on.Otherwise?
    case Switch(condition) => on == OnStatus(condition) || on.Otherwise?
    case Start(_) => on.Otherwise?
    case Action(_) => on.Otherwise?
    case SubFlow(_) => on.Otherwise?
    case Broker(_) => false
    case SuccessTerminal(_, _) => false
    case FailureTerminal(_) => false
  }

  /** `v` moved along `e`, whose guard held in the context of that moment. */
  ghost predicate MovedAlong(flow: CompiledFlow, v: Visit, e: Edge)
    requires flow.Knows(v.node)
  {
    && v.next.Some? && e.from == v.node && e.to == v.next.value
    && EvalGuard(e.guard, v.context)
    && Permits(flow.Node(v.node).kind, v.answer, e.on)
  }

  ghost predicate MovesLegally(flow: CompiledFlow, v: Visit) {
    flow.Knows(v.node) && (v.next.Some? ==> exists e :: e in flow.definition.edges && MovedAlong(flow, v, e))
  }

  /**
   No node that stops the loop is ever left, no dispatch that pauses it is moved on from, and a success is
   stayed at only where it leads nowhere.
   */
  ghost predicate Leavable(flow: CompiledFlow, v: Visit) {
    && (v.next.Some? && flow.Knows(v.node) ==>
          var kind := flow.Node(v.node).kind;
          && !kind.Broker? && !kind.IsTerminal()
          && (kind.Authenticator? ==> v.answer.Some? && v.answer.value.Ok? && !v.answer.value.value.AnswerRender?))
    && (v.next.None? && Succeeded(v) ==> flow.NextWithGuard(v.node, OnSuccess, v.context).None?)
  }

  lemma IterationLeavable(flow: CompiledFlow, st: State, input: StepInput, d: Dispatcher, k: nat, now: int)
    requires flow.Valid() && flow.Knows(st.currentNode)
    ensures Leavable(flow, Iterate(flow, st, input, d, k, now).visit)
  {
    hide flow.Valid, flow.NextWithGuard, Merge;
  }

  lemma {:induction false} LoopLeavable(flow: CompiledFlow, st: State, log: seq<Visit>,
                                        input: StepInput, d: Dispatcher, now: int, n: nat)
    requires flow.Valid() && flow.Knows(st.currentNode) && forall v :: v in log ==> Leavable(flow, v)
    ensures forall v :: v in Loop(flow, st, log, input, d, now, n).log ==> Leavable(flow, v)
    decreases n
  {
    hide Iterate, Loop, Leavable, flow.Valid;
    LoopUnfold(flow, st, log, input, d, now, n);
    if n == 0 {
    } else {
      var it := Iterate(flow, st, input, d, |log|, now);
      IterationLeavable(flow, st, input, d, |log|, now);
      if it.result.None? {
        LoopLeavable(flow, it.state, log + [it.visit], input, d, now, n - 1);
      }
    }
  }

  lemma {:induction false} RunLeavable(flow: CompiledFlow, origin: State, calls: seq<Call>, d: Dispatcher)
    requires flow.Valid() && flow.Knows(origin.currentNode)
    ensures forall v :: v in RunCalls(flow, origin, calls, d).log ==> Leavable(flow, v)
    decreases |calls|
  {
    if calls == [] {
    } else {
      var c := calls[|calls| - 1];
      RunLeavable(flow, origin, calls[..|calls| - 1], d);
      var before := RunCalls(flow, origin, calls[..|calls| - 1], d);
      if before.state.expiresAt >= c.now {
        LoopLeavable(flow, before.state.(lastActivityAt := c.now), before.log, c.input, d, c.now, c.iterations);
      }
    }
  }

  lemma LegalVisitMoves(flow: CompiledFlow, v: Visit)
    requires flow.Valid() && LegalVisit(flow, v) && Leavable(flow, v)
    ensures MovesLegally(flow, v)
  {
    if v.next.Some? {
      var kind := flow.Node(v.node).kind;
      var on := AskedLabel(kind, v.answer);
      NextIsEdge(flow, v.node, on, v.context);
      var e :| e in flow.definition.edges && Eligible(e, v.node, v.next.value, on, v.context);
      assert MovedAlong(flow, v, e);
    }
  }

  /** Every visit moves legally and begins where the visits before it ended. */
  ghost predicate Chained(flow: CompiledFlow, start: NodeId, log: seq<Visit>) {
    forall i :: 0 <= i < |log| ==> MovesLegally(flow, log[i]) && log[i].node == Last(Walked(start, log[..i]))
  }

  lemma ChainedPrefix(flow: CompiledFlow, start: NodeId, log: seq<Visit>)
    requires log != [] && Chained(flow, start, log)
    ensures Chained(flow, start, log[..|log| - 1])
    ensures MovesLegally(flow, log[|log| - 1]) && log[|log| - 1].node == Last(Walked(start, log[..|log| - 1]))
  {
    var shorter := log[..|log| - 1];
    assert forall i :: 0 <= i < |shorter| ==> shorter[..i] == log[..i];
  }

  lemma RunChained(flow: CompiledFlow, origin: State, calls: seq<Call>, d: Dispatcher)
    requires flow.Valid() && flow.Knows(origin.currentNode)
    ensures Chained(flow, origin.currentNode, RunCalls(flow, origin, calls, d).log)
  {
    var r := RunCalls(flow, origin, calls, d);
    RunSound(flow, origin, calls, d);
    RunLeavable(flow, origin, calls, d);
    forall i | 0 <= i < |r.log|
      ensures MovesLegally(flow, r.log[i]) && r.log[i].node == Last(Walked(origin.currentNode, r.log[..i]))
    {
      assert SoundAt(flow, origin, r.log, i);
      assert r.log[i] in r.log;
      LegalVisitMoves(flow, r.log[i]);
    }
  }

  lemma {:induction false} WalkedIsPath(flow: CompiledFlow, start: NodeId, log: seq<Visit>)
    requires Chained(flow, start, log)
    ensures IsPath(flow.definition.edges, Walked(start, log)) && Walked(start, log)[0] == start
    decreases |log|
  {
    if log == [] {
    } else {
      ChainedPrefix(flow, start, log);
      WalkedIsPath(flow, start, log[..|log| - 1]);
    }
  }

  /**
   Run soundness. However a run of `step` calls goes, its current node is in the index, the nodes it
   walked form a path of definition edges from the start, every move had a passing guard and the
   outcome its edge asks for, and the context is exactly what successful authenticators contributed.
   */
  lemma RunSoundness(flow: CompiledFlow, origin: State, calls: seq<Call>, d: Dispatcher)
    requires flow.Valid() && origin.currentNode == flow.definition.start
    ensures var r := RunCalls(flow, origin, calls, d);
            && flow.Knows(r.state.currentNode)
            && PathBetween(flow.definition.edges, Walked(origin.currentNode, r.log),
                           flow.definition.start, r.state.currentNode)
            && (forall v :: v in r.log ==> MovesLegally(flow, v))
            && (forall i :: 0 <= i < |r.log| ==> r.log[i].context == Gathered(origin.context, r.log[..i + 1]))
            && r.state.context == Gathered(origin.context, r.log)
            && origin.history <= r.state.history
  {
    hide MovesLegally, LegalVisit, IsPath, Gathered, Walked, RunCalls;
    var r := RunCalls(flow, origin, calls, d);
    RunSound(flow, origin, calls, d);
    RunChained(flow, origin, calls, d);
    WalkedIsPath(flow, origin.currentNode, r.log);
    forall i | 0 <= i < |r.log|
      ensures r.log[i].context == Gathered(origin.context, r.log[..i + 1])
    {
      assert SoundAt(flow, origin, r.log, i);
    }
  }

  // ---- The audit history is exact ----

  datatype Outcome = Outcome(node: NodeId, marked: OutcomeLabel)

  /** The history entries about authenticators, in order. */
  function AuthnHistory(flow: CompiledFlow, history: seq<HistoryEntry>): seq<Outcome> {
    if history == [] then []
    else
      var h := history[|history| - 1];
      AuthnHistory(flow, history[..|history| - 1]) +
      if flow.Knows(h.node) && flow.Node(h.node).kind.Authenticator? then [Outcome(h.node, h.outcome)] else []
  }

  /** The outcome a visit reports, unless its dispatch paused or erred. */
  function Reported(v: Visit): seq<Outcome> {
    match v.answer
    case Some(Ok(AnswerSuccess(_, _, _, _))) => [Outcome(v.node, MarkedSuccess)]
    case Some(Ok(AnswerSkip)) => [Outcome(v.node, WasSkipped)]
    case Some(Ok(AnswerFailure(_))) => [Outcome(v.node, HasFailed)]
    case _ => []
  }

  function ReportedBy(log: seq<Visit>): seq<Outcome> {
    if log == [] then [] else ReportedBy(log[..|log| - 1]) + Reported(log[|log| - 1])
  }

  lemma AuthnHistorySnoc(flow: CompiledFlow, history: seq<HistoryEntry>, h: HistoryEntry)
    ensures AuthnHistory(flow, history + [h]) == AuthnHistory(flow, history) +
              if flow.Knows(h.node) && flow.Node(h.node).kind.Authenticator? then [Outcome(h.node, h.outcome)] else []
  {
    assert (history + [h])[..|history|] == history;
  }

  lemma IterationRecords(flow: CompiledFlow, st: State, input: StepInput, d: Dispatcher, k: nat, now: int)
    requires flow.Knows(st.currentNode)
    ensures var it := Iterate(flow, st, input, d, k, now);
            AuthnHistory(flow, it.state.history) == AuthnHistory(flow, st.history) + Reported(it.visit)
  {
    hide flow.NextWithGuard, Merge, AuthnHistory;
    var it := Iterate(flow, st, input, d, k, now);
    if it.state.history != st.history {
      var h := it.state.history[|st.history|];
      assert it.state.history == st.history + [h];
      AuthnHistorySnoc(flow, st.history, h);
    }
  }

  lemma {:induction false} LoopRecords(flow: CompiledFlow, st: State, log: seq<Visit>, before: seq<Outcome>,
                                       input: StepInput, d: Dispatcher, now: int, n: nat)
    requires flow.Valid() && flow.Knows(st.currentNode)
    requires AuthnHistory(flow, st.history) == before + ReportedBy(log)
    ensures var p := Loop(flow, st, log, input, d, now, n);
            AuthnHistory(flow, p.state.history) == before + ReportedBy(p.log)
    decreases n
  {
    hide Iterate, Loop, flow.Valid, AuthnHistory, Reported;
    LoopUnfold(flow, st, log, input, d, now, n);
    if n == 0 {
    } else {
      var it := Iterate(flow, st, input, d, |log|, now);
      IterationRecords(flow, st, input, d, |log|, now);
      var longer := log + [it.visit];
      assert longer[..|log|] == log;
      assert before + ReportedBy(log) + Reported(it.visit) == before + ReportedBy(longer);
      if it.result.None? {
        LoopRecords(flow, it.state, longer, before, input, d, now, n - 1);
      }
    }
  }

  /**
   In every run the history tells, in order and without omission or invention, how each authenticator
   dispatch that did not pause turned out.
   */
  lemma {:induction false} HistoryExact(flow: CompiledFlow, origin: State, calls: seq<Call>, d: Dispatcher)
    requires flow.Valid() && flow.Knows(origin.currentNode)
    ensures var r := RunCalls(flow, origin, calls, d);
            AuthnHistory(flow, r.state.history) == AuthnHistory(flow, origin.history) + ReportedBy(r.log)
    decreases |calls|
  {
    hide AuthnHistory, Loop, flow.Valid;
    if calls == [] {
      assert AuthnHistory(flow, origin.history) == AuthnHistory(flow, origin.history) + ReportedBy([]);
    } else {
      var c := calls[|calls| - 1];
      HistoryExact(flow, origin, calls[..|calls| - 1], d);
      var before := RunCalls(flow, origin, calls[..|calls| - 1], d);
      if before.state.expiresAt >= c.now {
        LoopRecords(flow, before.state.(lastActivityAt := c.now), before.log, AuthnHistory(flow, origin.history),
                    c.input, d, c.now, c.iterations);
      }
    }
  }

  // ---- What the gathered context can contain ----

  lemma {:induction false} MergeAmrLaws(have: seq<string>, extra: seq<string>)
    ensures have <= MergeAmr(have, extra)
    ensures NoDuplicates(have) ==> NoDuplicates(MergeAmr(have, extra))
    ensures forall a :: a in MergeAmr(have, extra) <==> a in have || a in extra
    decreases |extra|
  {
    if extra == [] {
    } else {
      var have' := if extra[0] in have then have else have + [extra[0]];
      MergeAmrLaws(have', extra[1..]);
      assert extra == [extra[0]] + extra[1..];
    }
  }

  /** Methods are taken up from left to right, each at most once. */
  lemma {:induction false} MergeAmrSnoc(have: seq<string>, extra: seq<string>, a: string)
    ensures var merged := MergeAmr(have, extra);
            MergeAmr(have, extra + [a]) == if a in merged then merged else merged + [a]
    decreases |extra|
  {
    if extra == [] {
      assert (extra + [a])[1..] == [];
    } else {
      var have' := if extra[0] in have then have else have + [extra[0]];
      assert (extra + [a])[1..] == extra[1..] + [a];
      MergeAmrSnoc(have', extra[1..], a);
    }
  }

  /** Some logged success contributed the method `a`. */
  ghost predicate ContributedBy(log: seq<Visit>, a: string) {
    exists i :: 0 <= i < |log| && Succeeded(log[i]) && a in log[i].answer.value.value.amr
  }

  function LevelSum(log: seq<Visit>): int {
    if log == [] then 0
    else
      var v := log[|log| - 1];
      LevelSum(log[..|log| - 1]) + if Succeeded(v) then v.answer.value.value.levelDelta as int else 0
  }

  /**
   Conservation: the authentication methods only grow, stay duplicate-free, and each one beyond the
   initial list came from a logged success; the level is the initial one plus the sum of the logged
   bumps, up to 32-bit wrap-around.
   */
  lemma {:induction false} GatheredConserves(ctx: FlowContext, log: seq<Visit>)
    ensures ctx.amr <= Gathered(ctx, log).amr
    ensures NoDuplicates(ctx.amr) ==> NoDuplicates(Gathered(ctx, log).amr)
    ensures forall a :: a in Gathered(ctx, log).amr <==> a in ctx.amr || ContributedBy(log, a)
    ensures (Gathered(ctx, log).authnLevel as int - ctx.authnLevel as int - LevelSum(log)) % 0x1_0000_0000 == 0
    decreases |log|
  {
    if log == [] {
    } else {
      var init := log[..|log| - 1];
      var v := log[|log| - 1];
      var before := Gathered(ctx, init);
      GatheredConserves(ctx, init);
      forall a
        ensures ContributedBy(log, a) <==> ContributedBy(init, a) || (Succeeded(v) && a in v.answer.value.value.amr)
      {
        if ContributedBy(init, a) {
          var i :| 0 <= i < |init| && Succeeded(init[i]) && a in init[i].answer.value.value.amr;
          assert log[i] == init[i];
        }
      }
      if Succeeded(v) {
        MergeAmrLaws(before.amr, v.answer.value.value.amr);
      }
    }
  }

  // ---- Termination ----

  function NodesOf(log: seq<Visit>): (nodes: seq<NodeId>)
    ensures |nodes| == |log| && forall i :: 0 <= i < |log| ==> nodes[i] == log[i].node
  {
    seq(|log|, i requires 0 <= i < |log| => log[i].node)
  }

  /** The nodes one call visits, and the node it has moved on to if it was cut off. */
  function Trail(p: Progress, from: nat): seq<NodeId>
    requires from <= |p.log|
  {
    NodesOf(p.log[from..]) + if p.result.None? then [p.state.currentNode] else []
  }

  lemma IterationMoves(flow: CompiledFlow, st: State, input: StepInput, d: Dispatcher, k: nat, now: int)
    requires flow.Valid() && flow.Knows(st.currentNode) && Iterate(flow, st, input, d, k, now).result.None?
    ensures HasEdge(flow.definition.edges, st.currentNode, Iterate(flow, st, input, d, k, now).state.currentNode)
  {
    hide Iterate;
    var it := Iterate(flow, st, input, d, k, now);
    IterationShape(flow, st, input, d, k, now);
    AdvanceAsked(flow, st, input, d, k, now);
    NextIsEdge(flow, st.currentNode, AskedLabel(flow.Node(st.currentNode).kind, it.visit.answer), it.visit.context);
  }

  lemma TrailCons(p: Progress, from: nat)
    requires from < |p.log|
    ensures Trail(p, from) == [p.log[from].node] + Trail(p, from + 1)
  {
    assert p.log[from..] == [p.log[from]] + p.log[from + 1..];
  }

  lemma {:induction false} LoopTrail(flow: CompiledFlow, st: State, log: seq<Visit>,
                                     input: StepInput, d: Dispatcher, now: int, n: nat)
    requires flow.Valid() && flow.Knows(st.currentNode)
    ensures var p := Loop(flow, st, log, input, d, now, n);
            var trail := Trail(p, |log|);
            && IsPath(flow.definition.edges, trail) && trail[0] == st.currentNode
            && (forall i :: 0 <= i < |trail| ==> flow.Knows(trail[i]))
    decreases n
  {
    hide Iterate, HasEdge, Loop, flow.Valid, Merge;
    var p := Loop(flow, st, log, input, d, now, n);
    LoopUnfold(flow, st, log, input, d, now, n);
    if n == 0 {
    } else {
      var it := Iterate(flow, st, input, d, |log|, now);
      IterationShape(flow, st, input, d, |log|, now);
      var longer := log + [it.visit];
      assert longer[|log|] == it.visit;
      assert longer <= p.log;
      TrailCons(p, |log|);
      if it.result.None? {
        LoopTrail(flow, it.state, longer, input, d, now, n - 1);
        IterationMoves(flow, st, input, d, |log|, now);
      }
    }
  }

  lemma {:induction false} IndexSize(nodes: seq<FlowNode>, byId: map<NodeId, nat>)
    requires NodesIndexed(nodes, byId)
    ensures |byId.Keys| == |nodes|
    decreases |nodes|
  {
    if nodes == [] {
      assert byId.Keys == {};
    } else {
      var last := nodes[|nodes| - 1];
      var smaller := byId - {last.id};
      assert NodesIndexed(nodes[..|nodes| - 1], smaller);
      IndexSize(nodes[..|nodes| - 1], smaller);
      assert byId.Keys == smaller.Keys + {last.id};
    }
  }

  /**
   Step termination. If the edges are acyclic then, for every input and every dispatcher, one call
   returns within as many iterations as there are nodes and visits no node twice.
   */
  lemma AcyclicStepReturns(flow: CompiledFlow, st: State, log: seq<Visit>, input: StepInput, d: Dispatcher, now: int)
    requires flow.Valid() && flow.Knows(st.currentNode) && Acyclic(flow.definition.edges)
    ensures var p := StepWithin(flow, st, log, input, d, now, |flow.definition.nodes|);
            p.result.Some? && NoDuplicates(NodesOf(p.log[|log|..]))
  {
    if st.expiresAt >= now {
      var begun := st.(lastActivityAt := now);
      var n := |flow.definition.nodes|;
      var p := Loop(flow, begun, log, input, d, now, n);
      LoopTrail(flow, begun, log, input, d, now, n);
      var trail := Trail(p, |log|);
      AcyclicPathsAreSimple(flow.definition.edges, trail);
      assert forall i :: 0 <= i < |p.log| - |log| ==> trail[i] == NodesOf(p.log[|log|..])[i];
      if p.result.None? {
        IndexSize(flow.definition.nodes, flow.byId);
        Pigeonhole(trail, flow.byId.Keys);
      }
    }
  }

  // ---- The cut theorem ----

  /** The edges that remain when the Success-labelled edges leaving `s` are deleted. */
  function Kept(edges: seq<Edge>, s: set<NodeId>): (kept: seq<Edge>)
    ensures forall e :: e in kept <==> e in edges && !(e.from in s && e.on.OnSuccess?)
  {
    if edges == [] then []
    else
      var e := edges[|edges| - 1];
      var rest := Kept(edges[..|edges| - 1], s);
      assert edges == edges[..|edges| - 1] + [e];
      if e.from in s && e.on.OnSuccess? then rest else rest + [e]
  }

  ghost predicate AreAuthenticators(flow: CompiledFlow, s: set<NodeId>) {
    forall id :: id in s ==> flow.Knows(id) && flow.Node(id).kind.Authenticator?
  }

  /** Without the Success edges out of `s`, no Success terminal can be reached from the start. */
  ghost predicate Cuts(def: FlowDefinition, s: set<NodeId>) {
    forall id :: IsSuccess(def, id) ==> !Reachable(Kept(def.edges, s), def.start, id)
  }

  ghost predicate PassedThrough(log: seq<Visit>, s: set<NodeId>) {
    exists i :: 0 <= i < |log| && log[i].node in s && Succeeded(log[i])
  }

  lemma KeptMove(flow: CompiledFlow, s: set<NodeId>, v: Visit)
    requires AreAuthenticators(flow, s) && MovesLegally(flow, v) && v.next.Some?
    requires !(v.node in s && Succeeded(v))
    ensures HasEdge(Kept(flow.definition.edges, s), v.node, v.next.value)
  {
    var e :| e in flow.definition.edges && MovedAlong(flow, v, e);
    assert e in Kept(flow.definition.edges, s);
  }

  /** As long as nothing in `s` succeeds, the walk stays inside the kept edges. */
  lemma {:induction false} WalkStaysInKept(flow: CompiledFlow, s: set<NodeId>, start: NodeId, log: seq<Visit>)
    requires AreAuthenticators(flow, s) && Chained(flow, start, log) && !PassedThrough(log, s)
    ensures Reachable(Kept(flow.definition.edges, s), start, Last(Walked(start, log)))
    decreases |log|
  {
    hide MovesLegally, Reachable;
    var kept := Kept(flow.definition.edges, s);
    if log == [] {
      ReachableSelf(kept, start);
    } else {
      var v := log[|log| - 1];
      ChainedPrefix(flow, start, log);
      WalkStaysInKept(flow, s, start, log[..|log| - 1]);
      if v.next.Some? {
        KeptMove(flow, s, v);
        ReachableStep(kept, start, v.node, v.next.value);
      }
    }
  }

  lemma {:induction false} DoneAtSuccess(flow: CompiledFlow, st: State, log: seq<Visit>,
                                         input: StepInput, d: Dispatcher, now: int, n: nat)
    requires flow.Valid() && flow.Knows(st.currentNode)
    requires var r := Loop(flow, st, log, input, d, now, n).result; r.Some? && r.value.Ok? && r.value.value.Done?
    ensures var p := Loop(flow, st, log, input, d, now, n);
            && IsSuccess(flow.definition, p.state.currentNode)
            && p.result.value.value.userId == p.state.context.userId
    decreases n
  {
    hide Iterate, Loop, flow.Valid;
    var it := Iterate(flow, st, input, d, |log|, now);
    LoopUnfold(flow, st, log, input, d, now, n);
    if it.result.None? {
      DoneAtSuccess(flow, it.state, log + [it.visit], input, d, now, n - 1);
    } else {
      DoneOnlyAtSuccess(flow, st, input, d, |log|, now);
    }
  }

  lemma DoneOnlyAtSuccess(flow: CompiledFlow, st: State, input: StepInput, d: Dispatcher, k: nat, now: int)
    requires flow.Valid() && flow.Knows(st.currentNode)
    requires var r := Iterate(flow, st, input, d, k, now).result; r.Some? && r.value.Ok? && r.value.value.Done?
    ensures var it := Iterate(flow, st, input, d, k, now);
            IsSuccess(flow.definition, it.state.currentNode) && it.result.value.value.userId == it.state.context.userId
  {
    var it := Iterate(flow, st, input, d, k, now);
    assert flow.Node(it.state.currentNode).kind.SuccessTerminal?;
    assert flow.Node(it.state.currentNode) in flow.definition.nodes;
  }

  /** The last call of a run, after `calls` have been made. */
  function Finish(flow: CompiledFlow, origin: State, calls: seq<Call>, last: Call, d: Dispatcher): Progress
    requires flow.Valid() && flow.Knows(origin.currentNode)
  {
    var before := RunCalls(flow, origin, calls, d);
    StepWithin(flow, before.state, before.log, last.input, d, last.now, last.iterations)
  }

  predicate EndsDone(p: Progress) {
    p.result.Some? && p.result.value.Ok? && p.result.value.value.Done?
  }

  /**
   The cut theorem. If deleting the Success edges out of `s` disconnects the start from every Success
   terminal, then no run reports `Done` unless some authenticator of `s` was dispatched and succeeded.
   */
  lemma CutTheorem(flow: CompiledFlow, s: set<NodeId>, origin: State, calls: seq<Call>, last: Call, d: Dispatcher)
    requires flow.Valid() && origin.currentNode == flow.definition.start
    requires AreAuthenticators(flow, s) && Cuts(flow.definition, s)
    requires EndsDone(Finish(flow, origin, calls, last, d))
    ensures PassedThrough(Finish(flow, origin, calls, last, d).log, s)
  {
    hide Loop, Walked, Sound, Chained;
    var before := RunCalls(flow, origin, calls, d);
    var p := Finish(flow, origin, calls, last, d);
    var begun := before.state.(lastActivityAt := last.now);
    DoneAtSuccess(flow, begun, before.log, last.input, d, last.now, last.iterations);
    var all := calls + [last];
    assert all[..|all| - 1] == calls;
    assert RunCalls(flow, origin, all, d) == Run(p.state, p.log);
    RunEndsWhereWalked(flow, origin, all, d);
    RunChained(flow, origin, all, d);
    if !PassedThrough(p.log, s) {
      WalkStaysInKept(flow, s, origin.currentNode, p.log);
    }
  }

  lemma RunEndsWhereWalked(flow: CompiledFlow, origin: State, calls: seq<Call>, d: Dispatcher)
    requires flow.Valid() && flow.Knows(origin.currentNode)
    ensures var r := RunCalls(flow, origin, calls, d); r.state.currentNode == Last(Walked(origin.currentNode, r.log))
  {
    RunSound(flow, origin, calls, d);
  }

  /** A set closed under the kept edges that holds the start and no Success terminal witnesses a cut. */
  lemma ClosedSetCuts(def: FlowDefinition, s: set<NodeId>, closed: set<NodeId>)
    requires def.start in closed && ClosedUnder(Kept(def.edges, s), closed)
    requires forall n :: n in def.nodes && n.kind.SuccessTerminal? ==> n.id !in closed
    ensures Cuts(def, s)
  {
    forall id | IsSuccess(def, id) && Reachable(Kept(def.edges, s), def.start, id)
      ensures false
    {
      ReachableStaysClosed(Kept(def.edges, s), closed, def.start, id);
    }
  }
}
