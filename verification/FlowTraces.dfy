/**
 The executor seen from outside: a node and a context, moved on by one answer after the other. Calls,
 inputs, the clock, the history and the dispatcher do not appear. Guards are judged in the context as it
 grows, and an authenticator that succeeds where no edge can be taken keeps what it brought.
 */
module FlowTraces {
  import opened Prelude
  import opened FlowDsl
  import opened FlowCompile
  import opened FlowExecutor
  import opened FlowRuns

  datatype Config = Config(node: NodeId, context: FlowContext)

  function ConfigOf(st: State): Config {
    Config(st.currentNode, st.context)
  }

  /** The node stops the executor. */
  predicate Stops(kind: NodeKind) {
    kind.Broker? || kind.IsTerminal()
  }

  /** The context after an answer; only the answers of authenticators count. */
  function After(flow: CompiledFlow, a: Config, answer: Answer): FlowContext {
    if flow.Knows(a.node) && flow.Node(a.node).kind.Authenticator? && answer.AnswerSuccess?
    then Merge(a.context, answer) else a.context
  }

  /** Where an answer leads, if anywhere. */
  function Target(flow: CompiledFlow, a: Config, answer: Answer): Option<NodeId> {
    if !flow.Knows(a.node) || Stops(flow.Node(a.node).kind) then None
    else if flow.Node(a.node).kind.Authenticator? && answer.AnswerRender? then None
    else flow.NextWithGuard(a.node, AskedLabel(flow.Node(a.node).kind, Some(Ok(answer))), After(flow, a, answer))
  }

  function Follow(flow: CompiledFlow, a: Config, answer: Answer): Config {
    var target := Target(flow, a, answer);
    Config(if target.Some? then target.value else a.node, After(flow, a, answer))
  }

  /** Where a sequence of answers leads. */
  function Trace(flow: CompiledFlow, a: Config, answers: seq<Answer>): Config {
    if answers == [] then a
    else Follow(flow, Trace(flow, a, answers[..|answers| - 1]), answers[|answers| - 1])
  }

  /** No answer is a success at a node of `s`. */
  ghost predicate Avoids(flow: CompiledFlow, a: Config, answers: seq<Answer>, s: set<NodeId>) {
    forall i :: 0 <= i < |answers| ==> !(Trace(flow, a, answers[..i]).node in s && answers[i].AnswerSuccess?)
  }

  lemma TraceSnoc(flow: CompiledFlow, a: Config, answers: seq<Answer>, answer: Answer, s: set<NodeId>)
    ensures Trace(flow, a, answers + [answer]) == Follow(flow, Trace(flow, a, answers), answer)
    ensures Avoids(flow, a, answers, s) && !(Trace(flow, a, answers).node in s && answer.AnswerSuccess?)
            ==> Avoids(flow, a, answers + [answer], s)
  {
    hide Follow;
    var longer := answers + [answer];
    assert longer[..|answers|] == answers;
    assert forall i :: 0 <= i < |answers| ==> longer[..i] == answers[..i];
  }

  lemma TraceStep(flow: CompiledFlow, a: Config, answers: seq<Answer>, i: nat)
    requires i < |answers|
    ensures Trace(flow, a, answers[..i + 1]) == Follow(flow, Trace(flow, a, answers[..i]), answers[i])
  {
    assert answers[..i + 1][..i] == answers[..i];
  }

  /** One iteration on a submitted form follows the answer it is given, and goes on exactly if that leads on. */
  lemma IterationFollows(flow: CompiledFlow, st: State, answer: Answer, d: Dispatcher, k: nat, now: int)
    requires flow.Knows(st.currentNode)
    requires forall urn: string :: d(k, urn, st, Submit(map[])) == Ok(answer)
    ensures var it := Iterate(flow, st, Submit(map[]), d, k, now);
            && ConfigOf(it.state) == Follow(flow, ConfigOf(st), answer)
            && (it.result.None? <==> Target(flow, ConfigOf(st), answer).Some?)
            && it.visit.node == st.currentNode && (Succeeded(it.visit) ==> answer.AnswerSuccess?)
            && (flow.Node(st.currentNode).kind.SuccessTerminal? ==>
                  it.result == Some(Ok(Done(st.context.userId))))
  {
    hide flow.NextWithGuard, Merge, OrElse;
    var ctx := After(flow, ConfigOf(st), answer);
    FallbackAbsorbed(flow, st.currentNode, AskedLabel(flow.Node(st.currentNode).kind, Some(Ok(answer))), ctx);
  }

  /** The answer a visit stands for. */
  function AnswerOf(v: Visit): Answer {
    if v.answer.Some? && v.answer.value.Ok? then v.answer.value.value else AnswerSkip
  }

  /** A visit that moves or succeeds follows its answer. */
  lemma VisitFollows(flow: CompiledFlow, before: FlowContext, v: Visit)
    requires LegalVisit(flow, v) && Leavable(flow, v)
    requires v.context == if Succeeded(v) then Merge(before, v.answer.value.value) else before
    requires v.next.Some? || Succeeded(v)
    ensures Target(flow, Config(v.node, before), AnswerOf(v)) == v.next
    ensures After(flow, Config(v.node, before), AnswerOf(v)) == v.context
  {
    hide flow.NextWithGuard, Merge;
  }
}
