/**
 The seven built-in flows. Each is written once over node positions; drawing fresh ids for the
 positions gives the stored definition. Position 0 is the start.
 */
module FlowBuiltin {
  import opened Prelude
  import opened FlowDsl
  import opened FlowGraph
  import opened FlowCompile
  import opened FlowExecutor
  import opened FlowRuns

  const PASSWORD := "builtin:authn:password"
  const OTP := "builtin:authn:otp"
  const COOKIE := "builtin:authn:cookie"
  const MAGIC_LINK := "builtin:authn:magic-link"
  const IDP_REDIRECT := "builtin:authn:idp-redirect"
  const CLIENT_AUTH := "builtin:authn:client-authentication"
  const REQUIRE_ACTION := "builtin:authn:require-action"

  datatype Template = Template(display: string, kind: NodeKind, requirement: Requirement)

  datatype Wire = Wire(from: nat, to: nat, on: EdgeCondition)

  datatype Sketch = Sketch(alias: string, nodes: seq<Template>, wires: seq<Wire>) {
    predicate InRange() {
      |nodes| > 0 && forall k :: 0 <= k < |wires| ==> wires[k].from < |nodes| && wires[k].to < |nodes|
    }

    /** The stored definition: every wire becomes an unguarded edge. */
    function Draw(flowId: nat, ids: seq<NodeId>): FlowDefinition
      requires InRange() && |ids| == |nodes|
    {
      FlowDefinition(flowId, alias, 1, ids[0],
        seq(|nodes|, i requires 0 <= i < |nodes| =>
          FlowNode(ids[i], nodes[i].display, nodes[i].kind, nodes[i].requirement)),
        seq(|wires|, k requires 0 <= k < |wires| =>
          Edge(ids[wires[k].from], ids[wires[k].to], wires[k].on, map[])))
    }
  }

  /** Ids are drawn fresh, so they are pairwise distinct. */
  ghost predicate FreshIds(ids: seq<NodeId>, sketch: Sketch) {
    sketch.InRange() && |ids| == |sketch.nodes| && NoDuplicates(ids)
  }

  const START := Template("Start", Start(false), Required)
  const SUCCESS := Template("Success", SuccessTerminal(None, false), Required)

  function Fails(reason: string): Template {
    Template("Failure", FailureTerminal(reason), Required)
  }

  function Shows(display: string, template: string): Template {
    Template(display, Render(template), Required)
  }

  function Asks(display: string, urn: string, requirement: Requirement): Template {
    Template(display, Authenticator(urn), requirement)
  }

  const BROWSER := Sketch("browser",
    [START, Asks("cookie SSO", COOKIE, Optional), Shows("login form", "login"),
     Asks("password", PASSWORD, Required), Asks("required actions", REQUIRE_ACTION, Optional),
     SUCCESS, Fails("authentication failed")],
    [Wire(0, 1, Otherwise), Wire(1, 5, OnSuccess), Wire(1, 2, Otherwise), Wire(2, 3, OnSuccess),
     Wire(3, 4, OnSuccess), Wire(3, 6, OnFailure), Wire(4, 5, Otherwise)])

  const REGISTRATION := Sketch("registration",
    [START, Shows("registration form", "register"), Asks("set password", PASSWORD, Required),
     SUCCESS, Fails("registration failed")],
    [Wire(0, 1, Otherwise), Wire(1, 2, OnSuccess), Wire(2, 3, OnSuccess), Wire(2, 4, OnFailure)])

  const RESET_CREDENTIALS := Sketch("reset-credentials",
    [START, Shows("email entry", "reset-credentials/email"), Asks("magic-link verify", MAGIC_LINK, Required),
     Shows("new password", "reset-credentials/new-password"), Asks("set new password", PASSWORD, Required),
     SUCCESS, Fails("reset failed")],
    [Wire(0, 1, Otherwise), Wire(1, 2, OnSuccess), Wire(2, 3, OnSuccess), Wire(2, 6, OnFailure),
     Wire(3, 4, OnSuccess), Wire(4, 5, OnSuccess), Wire(4, 6, OnFailure)])

  /** The four flows with one authenticator share a shape. */
  function SingleStep(alias: string, display: string, urn: string, reason: string): Sketch {
    Sketch(alias, [START, Asks(display, urn, Required), SUCCESS, Fails(reason)],
      [Wire(0, 1, Otherwise), Wire(1, 2, OnSuccess), Wire(1, 3, OnFailure)])
  }

  const DIRECT_GRANT := SingleStep("direct-grant", "password", PASSWORD, "invalid credentials")
  const FIRST_BROKER_LOGIN := SingleStep("first-broker-login", "idp redirect", IDP_REDIRECT, "broker login failed")
  const CLIENT_AUTHENTICATION :=
    SingleStep("client-authentication", "client authentication", CLIENT_AUTH, "client authentication failed")
  const STEP_UP := SingleStep("step-up", "otp", OTP, "step-up failed")

  // ---- Every built-in flow compiles ----

  /** A trail of wires, given by position, from the start to a Success terminal; no wire leaves a terminal. */
  predicate Passable(sketch: Sketch, trail: seq<nat>) {
    && sketch.InRange()
    && |trail| > 0 && (forall i :: 0 <= i < |trail| ==> trail[i] < |sketch.wires|)
    && sketch.wires[trail[0]].from == 0
    && (forall i :: 0 < i < |trail| ==> sketch.wires[trail[i - 1]].to == sketch.wires[trail[i]].from)
    && sketch.nodes[sketch.wires[trail[|trail| - 1]].to].kind.SuccessTerminal?
    && (forall k :: 0 <= k < |sketch.wires| ==> !sketch.nodes[sketch.wires[k].from].kind.IsTerminal())
  }

  lemma {:induction false} TrailReaches(sketch: Sketch, trail: seq<nat>, flowId: nat, ids: seq<NodeId>)
    requires FreshIds(ids, sketch)
    requires |trail| > 0 && (forall i :: 0 <= i < |trail| ==> trail[i] < |sketch.wires|)
    requires sketch.wires[trail[0]].from == 0
    requires forall i :: 0 < i < |trail| ==> sketch.wires[trail[i - 1]].to == sketch.wires[trail[i]].from
    ensures Reachable(sketch.Draw(flowId, ids).edges, ids[0], ids[sketch.wires[trail[|trail| - 1]].to])
    decreases |trail|
  {
    var edges := sketch.Draw(flowId, ids).edges;
    var last := trail[|trail| - 1];
    if |trail| == 1 {
      ReachableSelf(edges, ids[0]);
    } else {
      TrailReaches(sketch, trail[..|trail| - 1], flowId, ids);
    }
    assert edges[last] in edges;
    ReachableStep(edges, ids[0], ids[sketch.wires[last].from], ids[sketch.wires[last].to]);
  }

  lemma PassableAccepted(sketch: Sketch, trail: seq<nat>, flowId: nat, ids: seq<NodeId>)
    requires FreshIds(ids, sketch) && Passable(sketch, trail)
    ensures WellFormed(sketch.Draw(flowId, ids)) && SuccessReachable(sketch.Draw(flowId, ids))
  {
    var def := sketch.Draw(flowId, ids);
    forall i | 0 <= i < |ids|
      ensures ids[i] in Ids(def.nodes)
    {
      assert def.nodes[i] in def.nodes && def.nodes[i].id == ids[i];
    }
    forall n | n in def.nodes && n.kind.IsTerminal()
      ensures !LeavesNode(def.edges, n.id)
    {
      var i :| 0 <= i < |def.nodes| && def.nodes[i] == n;
      assert forall k :: 0 <= k < |def.edges| ==> sketch.wires[k].from != i && def.edges[k].from != n.id;
    }
    var goal := sketch.wires[trail[|trail| - 1]].to;
    TrailReaches(sketch, trail, flowId, ids);
    assert def.nodes[goal] in def.nodes;
    assert IsSuccess(def, ids[goal]);
  }

  /** Whatever the compiler answers for a passable sketch, it answers with a valid index. */
  lemma PassableCompiles(sketch: Sketch, trail: seq<nat>, flowId: nat, ids: seq<NodeId>,
                         r: Result<CompiledFlow, CompileError>)
    requires FreshIds(ids, sketch) && Passable(sketch, trail) && Explains(sketch.Draw(flowId, ids), r)
    ensures r.Ok? && r.value.Valid() && r.value.definition == sketch.Draw(flowId, ids)
  {
    PassableAccepted(sketch, trail, flowId, ids);
    VerdictStage(sketch.Draw(flowId, ids), r);
  }

  lemma BrowserPassable()
    ensures Passable(BROWSER, [0, 1])
  {
  }

  lemma RegistrationPassable()
    ensures Passable(REGISTRATION, [0, 1, 2])
  {
  }

  lemma ResetPassable()
    ensures Passable(RESET_CREDENTIALS, [0, 1, 2, 4, 5])
  {
  }

  lemma SingleStepPassable(alias: string, display: string, urn: string, reason: string)
    ensures Passable(SingleStep(alias, display, urn, reason), [0, 1])
  {
  }

  // ---- What it takes to get through each of them ----

  function Image(ids: seq<NodeId>, positions: set<nat>): set<NodeId>
    requires forall i :: i in positions ==> i < |ids|
  {
    set i | i in positions :: ids[i]
  }

  /** `closed` holds the start, no Success terminal, and is left only by Success wires out of `s`. */
  predicate Blocks(sketch: Sketch, s: set<nat>, closed: set<nat>) {
    && sketch.InRange()
    && (forall i :: i in s ==> i < |sketch.nodes| && sketch.nodes[i].kind.Authenticator?)
    && (forall i :: i in closed ==> i < |sketch.nodes| && !sketch.nodes[i].kind.SuccessTerminal?)
    && 0 in closed
    && (forall k :: 0 <= k < |sketch.wires| ==>
          var w := sketch.wires[k]; w.from in closed && !(w.from in s && w.on.OnSuccess?) ==> w.to in closed)
  }

  lemma BlocksCuts(sketch: Sketch, s: set<nat>, closed: set<nat>, flowId: nat, ids: seq<NodeId>)
    requires FreshIds(ids, sketch) && Blocks(sketch, s, closed)
    ensures Cuts(sketch.Draw(flowId, ids), Image(ids, s))
  {
    var def := sketch.Draw(flowId, ids);
    var gate, c := Image(ids, s), Image(ids, closed);
    forall e | e in Kept(def.edges, gate) && e.from in c
      ensures e.to in c
    {
      var k :| 0 <= k < |def.edges| && def.edges[k] == e;
      var w := sketch.wires[k];
      var i :| i in closed && ids[i] == e.from;
      assert w.from == i;
      assert w.from in s ==> e.from in gate;
    }
    ClosedSetCuts(def, gate, c);
  }

  /** A run of the drawn flow, from its start, that ends in `Done`. */
  ghost predicate RunDone(sketch: Sketch, flow: CompiledFlow, flowId: nat, ids: seq<NodeId>,
                          origin: State, calls: seq<Call>, last: Call, d: Dispatcher) {
    && FreshIds(ids, sketch) && flow.Valid() && flow.definition == sketch.Draw(flowId, ids)
    && flow.Knows(origin.currentNode) && origin.currentNode == flow.definition.start
    && EndsDone(Finish(flow, origin, calls, last, d))
  }

  /** One of the providers was dispatched and succeeded. */
  ghost predicate ProviderSucceeded(flow: CompiledFlow, log: seq<Visit>, urns: set<string>) {
    exists i ::
      0 <= i < |log| && Succeeded(log[i]) && flow.Knows(log[i].node) && RunsOneOf(flow.Node(log[i].node), urns)
  }

  predicate RunsOneOf(node: FlowNode, urns: set<string>) {
    node.kind.Authenticator? && node.kind.providerUrn in urns
  }

  lemma DrawnKinds(sketch: Sketch, s: set<nat>, urns: set<string>, flow: CompiledFlow, flowId: nat, ids: seq<NodeId>)
    requires FreshIds(ids, sketch) && flow.Valid() && flow.definition == sketch.Draw(flowId, ids)
    requires forall i :: i in s ==> i < |ids|
    requires forall i :: i in s ==> sketch.nodes[i].kind.Authenticator? && sketch.nodes[i].kind.providerUrn in urns
    ensures forall id :: id in Image(ids, s) ==> flow.Knows(id) && RunsOneOf(flow.Node(id), urns)
  {
    forall id | id in Image(ids, s)
      ensures flow.Knows(id) && RunsOneOf(flow.Node(id), urns)
    {
      var i :| i in s && ids[i] == id;
      assert flow.definition.nodes[i].id == id;
    }
  }

  /** A run of a blocked flow ends in `Done` only if one of the blocking providers succeeded. */
  lemma BlocksRuns(sketch: Sketch, s: set<nat>, closed: set<nat>, urns: set<string>, flow: CompiledFlow, flowId: nat,
                   ids: seq<NodeId>, origin: State, calls: seq<Call>, last: Call, d: Dispatcher)
    requires RunDone(sketch, flow, flowId, ids, origin, calls, last, d) && Blocks(sketch, s, closed)
    requires forall i :: i in s ==> sketch.nodes[i].kind.Authenticator? && sketch.nodes[i].kind.providerUrn in urns
    ensures ProviderSucceeded(flow, Finish(flow, origin, calls, last, d).log, urns)
  {
    hide Finish, EndsDone;
    DrawnKinds(sketch, s, urns, flow, flowId, ids);
    BlocksCuts(sketch, s, closed, flowId, ids);
    CutTheorem(flow, Image(ids, s), origin, calls, last, d);
    var log := Finish(flow, origin, calls, last, d).log;
    var i :| 0 <= i < |log| && log[i].node in Image(ids, s) && Succeeded(log[i]);
  }

  lemma BrowserBlocked()
    ensures Blocks(BROWSER, {1, 3}, {0, 1, 2, 3, 6})
  {
  }

  lemma RegistrationBlocked()
    ensures Blocks(REGISTRATION, {2}, {0, 1, 2, 4})
  {
  }

  lemma ResetBlockedByMagicLink()
    ensures Blocks(RESET_CREDENTIALS, {2}, {0, 1, 2, 6})
  {
  }

  lemma ResetBlockedByPassword()
    ensures Blocks(RESET_CREDENTIALS, {4}, {0, 1, 2, 3, 4, 6})
  {
  }

  /** Browser: no run is `Done` unless the cookie or the password authenticator succeeded. */
  lemma BrowserNeedsCookieOrPassword(flow: CompiledFlow, flowId: nat, ids: seq<NodeId>,
                                     origin: State, calls: seq<Call>, last: Call, d: Dispatcher)
    requires RunDone(BROWSER, flow, flowId, ids, origin, calls, last, d)
    ensures ProviderSucceeded(flow, Finish(flow, origin, calls, last, d).log, {COOKIE, PASSWORD})
  {
    hide RunDone, Blocks, Finish, ProviderSucceeded;
    BrowserBlocked();
    BlocksRuns(BROWSER, {1, 3}, {0, 1, 2, 3, 6}, {COOKIE, PASSWORD}, flow, flowId, ids, origin, calls, last, d);
  }

  /** Registration: the password step must succeed. */
  lemma RegistrationNeedsPassword(flow: CompiledFlow, flowId: nat, ids: seq<NodeId>,
                                  origin: State, calls: seq<Call>, last: Call, d: Dispatcher)
    requires RunDone(REGISTRATION, flow, flowId, ids, origin, calls, last, d)
    ensures ProviderSucceeded(flow, Finish(flow, origin, calls, last, d).log, {PASSWORD})
  {
    hide RunDone, Blocks, Finish, ProviderSucceeded;
    RegistrationBlocked();
    BlocksRuns(REGISTRATION, {2}, {0, 1, 2, 4}, {PASSWORD}, flow, flowId, ids, origin, calls, last, d);
  }

  /** Reset credentials: both the magic link and the new password must succeed. */
  lemma ResetNeedsMagicLinkAndPassword(flow: CompiledFlow, flowId: nat, ids: seq<NodeId>,
                                       origin: State, calls: seq<Call>, last: Call, d: Dispatcher)
    requires RunDone(RESET_CREDENTIALS, flow, flowId, ids, origin, calls, last, d)
    ensures ProviderSucceeded(flow, Finish(flow, origin, calls, last, d).log, {MAGIC_LINK})
    ensures ProviderSucceeded(flow, Finish(flow, origin, calls, last, d).log, {PASSWORD})
  {
    hide RunDone, Blocks, Finish, ProviderSucceeded;
    ResetBlockedByMagicLink();
    ResetBlockedByPassword();
    BlocksRuns(RESET_CREDENTIALS, {2}, {0, 1, 2, 6}, {MAGIC_LINK}, flow, flowId, ids, origin, calls, last, d);
    BlocksRuns(RESET_CREDENTIALS, {4}, {0, 1, 2, 3, 4, 6}, {PASSWORD}, flow, flowId, ids, origin, calls, last, d);
  }

  /** A flow of the shared shape needs its one authenticator. */
  lemma SingleStepNeedsItsAuthenticator(alias: string, display: string, urn: string, reason: string,
                                        flow: CompiledFlow, flowId: nat, ids: seq<NodeId>,
                                        origin: State, calls: seq<Call>, last: Call, d: Dispatcher)
    requires RunDone(SingleStep(alias, display, urn, reason), flow, flowId, ids, origin, calls, last, d)
    ensures ProviderSucceeded(flow, Finish(flow, origin, calls, last, d).log, {urn})
  {
    hide RunDone, Finish, ProviderSucceeded;
    var sketch := SingleStep(alias, display, urn, reason);
    BlocksRuns(sketch, {1}, {0, 1, 3}, {urn}, flow, flowId, ids, origin, calls, last, d);
  }

  /** Direct grant: the password. */
  lemma DirectGrantNeedsPassword(flow: CompiledFlow, flowId: nat, ids: seq<NodeId>,
                                 origin: State, calls: seq<Call>, last: Call, d: Dispatcher)
    requires RunDone(DIRECT_GRANT, flow, flowId, ids, origin, calls, last, d)
    ensures ProviderSucceeded(flow, Finish(flow, origin, calls, last, d).log, {PASSWORD})
  {
    hide RunDone, Finish, ProviderSucceeded;
    SingleStepNeedsItsAuthenticator("direct-grant", "password", PASSWORD, "invalid credentials",
                                    flow, flowId, ids, origin, calls, last, d);
  }

  /** First broker login: the redirect to the identity provider. */
  lemma FirstBrokerLoginNeedsRedirect(flow: CompiledFlow, flowId: nat, ids: seq<NodeId>,
                                      origin: State, calls: seq<Call>, last: Call, d: Dispatcher)
    requires RunDone(FIRST_BROKER_LOGIN, flow, flowId, ids, origin, calls, last, d)
    ensures ProviderSucceeded(flow, Finish(flow, origin, calls, last, d).log, {IDP_REDIRECT})
  {
    hide RunDone, Finish, ProviderSucceeded;
    SingleStepNeedsItsAuthenticator("first-broker-login", "idp redirect", IDP_REDIRECT, "broker login failed",
                                    flow, flowId, ids, origin, calls, last, d);
  }

  /** Client authentication: the client's own authentication. */
  lemma ClientAuthenticationNeedsClient(flow: CompiledFlow, flowId: nat, ids: seq<NodeId>,
                                        origin: State, calls: seq<Call>, last: Call, d: Dispatcher)
    requires RunDone(CLIENT_AUTHENTICATION, flow, flowId, ids, origin, calls, last, d)
    ensures ProviderSucceeded(flow, Finish(flow, origin, calls, last, d).log, {CLIENT_AUTH})
  {
    hide RunDone, Finish, ProviderSucceeded;
    SingleStepNeedsItsAuthenticator("client-authentication", "client authentication", CLIENT_AUTH,
                                    "client authentication failed", flow, flowId, ids, origin, calls, last, d);
  }

  /** Step-up: the one-time code. */
  lemma StepUpNeedsOtp(flow: CompiledFlow, flowId: nat, ids: seq<NodeId>,
                       origin: State, calls: seq<Call>, last: Call, d: Dispatcher)
    requires RunDone(STEP_UP, flow, flowId, ids, origin, calls, last, d)
    ensures ProviderSucceeded(flow, Finish(flow, origin, calls, last, d).log, {OTP})
  {
    hide RunDone, Finish, ProviderSucceeded;
    SingleStepNeedsItsAuthenticator("step-up", "otp", OTP, "step-up failed",
                                    flow, flowId, ids, origin, calls, last, d);
  }
}
