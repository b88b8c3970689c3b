/** How the built-in flows answer each outcome, and what a browser login cannot leave out. */
module FlowBuiltinMoves {
  import opened Prelude
  import opened FlowDsl
  import opened FlowGuard
  import opened FlowGraph
  import opened FlowCompile
  import opened FlowExecutor
  import opened FlowRuns
  import opened FlowTraces
  import opened FlowBuiltin

  // ---- From wires to moves ----

  /** Wire `k` is the first out of position `i` with label `on`. */
  predicate FirstWire(sketch: Sketch, i: nat, on: EdgeCondition, k: nat) {
    && k < |sketch.wires| && sketch.wires[k].from == i && sketch.wires[k].on == on
    && forall j :: 0 <= j < k ==> !(sketch.wires[j].from == i && sketch.wires[j].on == on)
  }

  predicate NoWire(sketch: Sketch, i: nat, on: EdgeCondition) {
    forall j :: 0 <= j < |sketch.wires| ==> !(sketch.wires[j].from == i && sketch.wires[j].on == on)
  }

  lemma LabelledSnoc(edges: seq<Edge>, e: Edge, on: EdgeCondition)
    ensures FirstLabelled(edges + [e], on)
            == OrElse(FirstLabelled(edges, on), if e.on == on then Some(e.to) else None)
  {
    if edges == [] {
      assert (edges + [e])[1..] == [];
    } else {
      assert (edges + [e])[1..] == edges[1..] + [e];
      LabelledSnoc(edges[1..], e, on);
    }
  }

  /** The first labelled edge out of a drawn node is the first such wire. */
  lemma {:induction false} DrawnLabelled(sketch: Sketch, flowId: nat, ids: seq<NodeId>, i: nat, on: EdgeCondition,
                                         n: nat)
    requires FreshIds(ids, sketch) && i < |ids| && n <= |sketch.wires|
    ensures var found := FirstLabelled(EdgesFrom(sketch.Draw(flowId, ids).edges[..n], ids[i]), on);
            && (forall k: nat :: FirstWire(sketch, i, on, k) && k < n ==> found == Some(ids[sketch.wires[k].to]))
            && ((forall j :: 0 <= j < n ==> !(sketch.wires[j].from == i && sketch.wires[j].on == on)) ==> found.None?)
    decreases n
  {
    var edges := sketch.Draw(flowId, ids).edges;
    if n == 0 {
    } else {
      DrawnLabelled(sketch, flowId, ids, i, on, n - 1);
      var e, w := edges[n - 1], sketch.wires[n - 1];
      assert edges[..n][..n - 1] == edges[..n - 1];
      assert e.from == ids[i] <==> w.from == i;
      if e.from == ids[i] {
        LabelledSnoc(EdgesFrom(edges[..n - 1], ids[i]), e, on);
      } else {
        assert EdgesFrom(edges[..n - 1], ids[i]) + [] == EdgesFrom(edges[..n - 1], ids[i]);
      }
    }
  }

  /** A drawn flow: fresh ids, compiled. */
  ghost predicate Drawn(sketch: Sketch, flow: CompiledFlow, flowId: nat, ids: seq<NodeId>) {
    FreshIds(ids, sketch) && flow.Valid() && flow.definition == sketch.Draw(flowId, ids)
  }

  lemma DrawnLookup(sketch: Sketch, flow: CompiledFlow, flowId: nat, ids: seq<NodeId>, i: nat, on: EdgeCondition)
    requires Drawn(sketch, flow, flowId, ids) && i < |ids|
    ensures flow.Next(ids[i], on)
            == OrElse(FirstLabelled(EdgesFrom(flow.definition.edges, ids[i]), on),
                      FirstLabelled(EdgesFrom(flow.definition.edges, ids[i]), Otherwise))
  {
    if ids[i] !in flow.outbound {
      NoEdgesFrom(flow.definition.edges, ids[i]);
    }
  }

  /** Where a drawn node leads: along its first wire with the label, or else its first default wire, or nowhere. */
  lemma DrawnNext(sketch: Sketch, flow: CompiledFlow, flowId: nat, ids: seq<NodeId>, i: nat, on: EdgeCondition,
                  ctx: FlowContext)
    requires Drawn(sketch, flow, flowId, ids) && i < |ids|
    ensures var next := flow.NextWithGuard(ids[i], on, ctx);
            && (forall k: nat :: FirstWire(sketch, i, on, k) ==> next == Some(ids[sketch.wires[k].to]))
            && (forall k: nat :: NoWire(sketch, i, on) && FirstWire(sketch, i, Otherwise, k) ==>
                  next == Some(ids[sketch.wires[k].to]))
            && (NoWire(sketch, i, on) && NoWire(sketch, i, Otherwise) ==> next.None?)
  {
    var edges, n := flow.definition.edges, |sketch.wires|;
    assert edges[..n] == edges;
    DrawnLabelled(sketch, flowId, ids, i, on, n);
    DrawnLabelled(sketch, flowId, ids, i, Otherwise, n);
    DrawnLookup(sketch, flow, flowId, ids, i, on);
    UnguardedNext(flow, ids[i], on, ctx);
    hide flow.Valid, flow.NextWithGuard, flow.Next, FirstLabelled, EdgesFrom;
  }

  lemma DrawnKind(sketch: Sketch, flow: CompiledFlow, flowId: nat, ids: seq<NodeId>, i: nat)
    requires Drawn(sketch, flow, flowId, ids) && i < |ids|
    ensures flow.Knows(ids[i]) && flow.Node(ids[i]).kind == sketch.nodes[i].kind
  {
    assert flow.definition.nodes[i].id == ids[i];
  }

  /** The label a position asks for, given an answer. */
  lemma DrawnTarget(sketch: Sketch, flow: CompiledFlow, flowId: nat, ids: seq<NodeId>, i: nat, answer: Answer,
                    ctx: FlowContext)
    requires Drawn(sketch, flow, flowId, ids) && i < |ids| && !Stops(sketch.nodes[i].kind)
    requires !(sketch.nodes[i].kind.Authenticator? && answer.AnswerRender?)
    ensures var on := AskedLabel(sketch.nodes[i].kind, Some(Ok(answer)));
            var target := Target(flow, Config(ids[i], ctx), answer);
            && (forall k: nat :: FirstWire(sketch, i, on, k) ==> target == Some(ids[sketch.wires[k].to]))
            && (forall k: nat :: NoWire(sketch, i, on) && FirstWire(sketch, i, Otherwise, k) ==>
                  target == Some(ids[sketch.wires[k].to]))
            && (NoWire(sketch, i, on) && NoWire(sketch, i, Otherwise) ==> target.None?)
  {
    var on := AskedLabel(sketch.nodes[i].kind, Some(Ok(answer)));
    DrawnKind(sketch, flow, flowId, ids, i);
    DrawnNext(sketch, flow, flowId, ids, i, on, After(flow, Config(ids[i], ctx), answer));
    hide Drawn, flow.NextWithGuard, FirstWire, NoWire, Merge;
  }

  // ---- The tables ----

  /** Whatever the answer, position `i` goes on to position `to`. */
  ghost predicate Passes(flow: CompiledFlow, ids: seq<NodeId>, i: nat, to: nat)
    requires i < |ids| && to < |ids|
  {
    forall answer: Answer, ctx: FlowContext :: Target(flow, Config(ids[i], ctx), answer) == Some(ids[to])
  }

  /** A success leads to one position, a failure to another; anything else leads nowhere. */
  ghost predicate Decides(flow: CompiledFlow, ids: seq<NodeId>, i: nat, success: nat, failure: nat)
    requires i < |ids| && success < |ids| && failure < |ids|
  {
    forall answer: Answer, ctx: FlowContext ::
      Target(flow, Config(ids[i], ctx), answer)
      == if answer.AnswerSuccess? then Some(ids[success])
         else if answer.AnswerFailure? then Some(ids[failure]) else None
  }

  /** A success leads to one position, a skip or a failure to another; a page leads nowhere. */
  ghost predicate Branches(flow: CompiledFlow, ids: seq<NodeId>, i: nat, success: nat, other: nat)
    requires i < |ids| && success < |ids| && other < |ids|
  {
    forall answer: Answer, ctx: FlowContext ::
      Target(flow, Config(ids[i], ctx), answer)
      == if answer.AnswerSuccess? then Some(ids[success]) else if answer.AnswerRender? then None else Some(ids[other])
  }

  predicate Proceeds(kind: NodeKind, on: EdgeCondition) {
    (kind.Start? && on == Otherwise) || (kind.Render? && on == OnSuccess)
  }

  lemma PassesBy(sketch: Sketch, flow: CompiledFlow, flowId: nat, ids: seq<NodeId>, i: nat, on: EdgeCondition, k: nat)
    requires Drawn(sketch, flow, flowId, ids) && i < |sketch.nodes| == |ids|
    requires Proceeds(sketch.nodes[i].kind, on) && FirstWire(sketch, i, on, k)
    ensures sketch.wires[k].to < |ids| && Passes(flow, ids, i, sketch.wires[k].to)
  {
    forall answer: Answer, ctx: FlowContext
      ensures Target(flow, Config(ids[i], ctx), answer) == Some(ids[sketch.wires[k].to])
    {
      DrawnTarget(sketch, flow, flowId, ids, i, answer, ctx);
    }
  }

  lemma RenderStays(sketch: Sketch, flow: CompiledFlow, flowId: nat, ids: seq<NodeId>, i: nat, answer: Answer,
                    ctx: FlowContext)
    requires Drawn(sketch, flow, flowId, ids) && i < |sketch.nodes| == |ids|
    requires sketch.nodes[i].kind.Authenticator? && answer.AnswerRender?
    ensures Target(flow, Config(ids[i], ctx), answer).None?
  {
    DrawnKind(sketch, flow, flowId, ids, i);
  }

  lemma WireInRange(sketch: Sketch, flow: CompiledFlow, flowId: nat, ids: seq<NodeId>, k: nat)
    requires Drawn(sketch, flow, flowId, ids) && k < |sketch.wires|
    ensures sketch.wires[k].to < |ids|
  {
  }

  lemma DecidesBy(sketch: Sketch, flow: CompiledFlow, flowId: nat, ids: seq<NodeId>, i: nat, ks: nat, kf: nat)
    requires Drawn(sketch, flow, flowId, ids) && i < |sketch.nodes| == |ids| && sketch.nodes[i].kind.Authenticator?
    requires FirstWire(sketch, i, OnSuccess, ks) && FirstWire(sketch, i, OnFailure, kf) && NoWire(sketch, i, Otherwise)
    ensures sketch.wires[ks].to < |ids| && sketch.wires[kf].to < |ids|
    ensures Decides(flow, ids, i, sketch.wires[ks].to, sketch.wires[kf].to)
  {
    WireInRange(sketch, flow, flowId, ids, ks);
    WireInRange(sketch, flow, flowId, ids, kf);
    hide Drawn, FirstWire;
    forall answer: Answer, ctx: FlowContext
      ensures Target(flow, Config(ids[i], ctx), answer)
              == if answer.AnswerSuccess? then Some(ids[sketch.wires[ks].to])
                 else if answer.AnswerFailure? then Some(ids[sketch.wires[kf].to]) else None
    {
      hide Target, NoWire;
      if answer.AnswerRender? {
        RenderStays(sketch, flow, flowId, ids, i, answer, ctx);
      } else {
        DrawnTarget(sketch, flow, flowId, ids, i, answer, ctx);
      }
    }
  }

  lemma BranchesBy(sketch: Sketch, flow: CompiledFlow, flowId: nat, ids: seq<NodeId>, i: nat, ks: nat, ko: nat)
    requires Drawn(sketch, flow, flowId, ids) && i < |sketch.nodes| == |ids| && sketch.nodes[i].kind.Authenticator?
    requires FirstWire(sketch, i, OnSuccess, ks) || (NoWire(sketch, i, OnSuccess) && ks == ko)
    requires NoWire(sketch, i, OnFailure) && FirstWire(sketch, i, Otherwise, ko)
    ensures sketch.wires[ks].to < |ids| && sketch.wires[ko].to < |ids|
    ensures Branches(flow, ids, i, sketch.wires[ks].to, sketch.wires[ko].to)
  {
    WireInRange(sketch, flow, flowId, ids, ks);
    WireInRange(sketch, flow, flowId, ids, ko);
    hide Drawn, FirstWire;
    forall answer: Answer, ctx: FlowContext
      ensures Target(flow, Config(ids[i], ctx), answer)
              == if answer.AnswerSuccess? then Some(ids[sketch.wires[ks].to])
                 else if answer.AnswerRender? then None else Some(ids[sketch.wires[ko].to])
    {
      BranchTarget(sketch, flow, flowId, ids, i, answer, ctx, ks, ko);
    }
  }

  lemma BranchTarget(sketch: Sketch, flow: CompiledFlow, flowId: nat, ids: seq<NodeId>, i: nat, answer: Answer,
                     ctx: FlowContext, ks: nat, ko: nat)
    requires Drawn(sketch, flow, flowId, ids) && i < |sketch.nodes| == |ids| && sketch.nodes[i].kind.Authenticator?
    requires ks < |sketch.wires| && ko < |sketch.wires| && sketch.wires[ks].to < |ids| && sketch.wires[ko].to < |ids|
    requires FirstWire(sketch, i, OnSuccess, ks) || (NoWire(sketch, i, OnSuccess) && ks == ko)
    requires NoWire(sketch, i, OnFailure) && FirstWire(sketch, i, Otherwise, ko)
    ensures Target(flow, Config(ids[i], ctx), answer)
            == if answer.AnswerSuccess? then Some(ids[sketch.wires[ks].to])
               else if answer.AnswerRender? then None else Some(ids[sketch.wires[ko].to])
  {
    hide Target, NoWire, Drawn, FirstWire;
    if answer.AnswerRender? {
      RenderStays(sketch, flow, flowId, ids, i, answer, ctx);
    } else {
      DrawnTarget(sketch, flow, flowId, ids, i, answer, ctx);
    }
  }

  lemma DrawnCount(sketch: Sketch, flow: CompiledFlow, flowId: nat, ids: seq<NodeId>)
    requires Drawn(sketch, flow, flowId, ids)
    ensures |ids| == |sketch.nodes|
  {
  }

  /**
   Browser: a cookie lets in, anything else but a page shows the form; the password goes on to the required
   actions or fails the login, and cannot be skipped; the required actions let in however they turn out.
   */
  lemma BrowserMoves(flow: CompiledFlow, flowId: nat, ids: seq<NodeId>)
    requires Drawn(BROWSER, flow, flowId, ids)
    ensures |ids| == 7 && Passes(flow, ids, 0, 1) && Branches(flow, ids, 1, 5, 2) && Passes(flow, ids, 2, 3)
    ensures Decides(flow, ids, 3, 4, 6) && Branches(flow, ids, 4, 5, 5)
  {
    hide Drawn, Passes, Decides, Branches;
    DrawnCount(BROWSER, flow, flowId, ids);
    PassesBy(BROWSER, flow, flowId, ids, 0, Otherwise, 0);
    BranchesBy(BROWSER, flow, flowId, ids, 1, 1, 2);
    PassesBy(BROWSER, flow, flowId, ids, 2, OnSuccess, 3);
    DecidesBy(BROWSER, flow, flowId, ids, 3, 4, 5);
    BranchesBy(BROWSER, flow, flowId, ids, 4, 6, 6);
  }

  /** Registration: the form leads to the password, which lets in, fails the registration or cannot be skipped. */
  lemma RegistrationMoves(flow: CompiledFlow, flowId: nat, ids: seq<NodeId>)
    requires Drawn(REGISTRATION, flow, flowId, ids)
    ensures |ids| == 5 && Passes(flow, ids, 0, 1) && Passes(flow, ids, 1, 2) && Decides(flow, ids, 2, 3, 4)
  {
    hide Drawn, Passes, Decides;
    DrawnCount(REGISTRATION, flow, flowId, ids);
    PassesBy(REGISTRATION, flow, flowId, ids, 0, Otherwise, 0);
    PassesBy(REGISTRATION, flow, flowId, ids, 1, OnSuccess, 1);
    DecidesBy(REGISTRATION, flow, flowId, ids, 2, 2, 3);
  }

  /** Reset: email, magic link, new password, in this order; either failing fails the reset, neither can be skipped. */
  lemma ResetMoves(flow: CompiledFlow, flowId: nat, ids: seq<NodeId>)
    requires Drawn(RESET_CREDENTIALS, flow, flowId, ids)
    ensures |ids| == 7 && Passes(flow, ids, 0, 1) && Passes(flow, ids, 1, 2) && Decides(flow, ids, 2, 3, 6)
    ensures Passes(flow, ids, 3, 4) && Decides(flow, ids, 4, 5, 6)
  {
    hide Drawn, Passes, Decides;
    DrawnCount(RESET_CREDENTIALS, flow, flowId, ids);
    PassesBy(RESET_CREDENTIALS, flow, flowId, ids, 0, Otherwise, 0);
    PassesBy(RESET_CREDENTIALS, flow, flowId, ids, 1, OnSuccess, 1);
    DecidesBy(RESET_CREDENTIALS, flow, flowId, ids, 2, 2, 3);
    PassesBy(RESET_CREDENTIALS, flow, flowId, ids, 3, OnSuccess, 4);
    DecidesBy(RESET_CREDENTIALS, flow, flowId, ids, 4, 5, 6);
  }

  /** The one-authenticator flows: it lets in, fails the flow or cannot be skipped. */
  lemma SingleStepMoves(alias: string, display: string, urn: string, reason: string,
                        flow: CompiledFlow, flowId: nat, ids: seq<NodeId>)
    requires Drawn(SingleStep(alias, display, urn, reason), flow, flowId, ids)
    ensures |ids| == 4 && Passes(flow, ids, 0, 1) && Decides(flow, ids, 1, 2, 3)
  {
    hide Drawn, Passes, Decides;
    var sketch := SingleStep(alias, display, urn, reason);
    DrawnCount(sketch, flow, flowId, ids);
    PassesBy(sketch, flow, flowId, ids, 0, Otherwise, 0);
    DecidesBy(sketch, flow, flowId, ids, 1, 1, 2);
  }

  // ---- What a run cannot leave out ----

  ghost predicate Visited(log: seq<Visit>, x: set<NodeId>) {
    exists i :: 0 <= i < |log| && log[i].node in x
  }

  /** `closed` is left only by a success at `s` or from a node of `x`. */
  ghost predicate Encloses(def: FlowDefinition, s: set<NodeId>, x: set<NodeId>, closed: set<NodeId>) {
    forall e :: e in def.edges && e.from in closed && e.to !in closed ==>
      e.from in x || (e.from in s && e.on.OnSuccess?)
  }

  lemma MoveStaysInside(flow: CompiledFlow, s: set<NodeId>, x: set<NodeId>, closed: set<NodeId>, v: Visit)
    requires AreAuthenticators(flow, s) && Encloses(flow.definition, s, x, closed)
    requires MovesLegally(flow, v) && v.next.Some? && v.node in closed && v.node !in x && !(v.node in s && Succeeded(v))
    ensures v.next.value in closed
  {
    var e :| e in flow.definition.edges && MovedAlong(flow, v, e);
  }

  lemma {:induction false} WalkStaysInside(flow: CompiledFlow, s: set<NodeId>, x: set<NodeId>, closed: set<NodeId>,
                                           start: NodeId, log: seq<Visit>)
    requires AreAuthenticators(flow, s) && Encloses(flow.definition, s, x, closed) && start in closed
    requires Chained(flow, start, log) && !PassedThrough(log, s) && !Visited(log, x)
    ensures Last(Walked(start, log)) in closed
    decreases |log|
  {
    hide MovesLegally, Encloses, AreAuthenticators;
    if log == [] {
    } else {
      ChainedPrefix(flow, start, log);
      WalkStaysInside(flow, s, x, closed, start, log[..|log| - 1]);
      var v := log[|log| - 1];
      if v.next.Some? {
        MoveStaysInside(flow, s, x, closed, v);
      }
    }
  }

  /** A run that gets out of an enclosure to `Done` had a success at `s` or came by `x`. */
  lemma DoneLeavesEnclosure(flow: CompiledFlow, s: set<NodeId>, x: set<NodeId>, closed: set<NodeId>,
                            origin: State, calls: seq<Call>, last: Call, d: Dispatcher)
    requires flow.Valid() && origin.currentNode == flow.definition.start && flow.Knows(origin.currentNode)
    requires AreAuthenticators(flow, s) && Encloses(flow.definition, s, x, closed) && flow.definition.start in closed
    requires forall id :: IsSuccess(flow.definition, id) ==> id !in closed
    requires EndsDone(Finish(flow, origin, calls, last, d))
    ensures var log := Finish(flow, origin, calls, last, d).log; PassedThrough(log, s) || Visited(log, x)
  {
    hide Loop, Walked, Sound, Chained, Encloses, AreAuthenticators;
    var before := RunCalls(flow, origin, calls, d);
    var begun := before.state.(lastActivityAt := last.now);
    var p := Finish(flow, origin, calls, last, d);
    DoneAtSuccess(flow, begun, before.log, last.input, d, last.now, last.iterations);
    var all := calls + [last];
    assert all[..|all| - 1] == calls;
    assert RunCalls(flow, origin, all, d) == Run(p.state, p.log);
    RunEndsWhereWalked(flow, origin, all, d);
    RunChained(flow, origin, all, d);
    if !PassedThrough(p.log, s) && !Visited(p.log, x) {
      WalkStaysInside(flow, s, x, closed, origin.currentNode, p.log);
    }
  }

  /** The enclosure checked on the sketch: wires out of `closed` start at `x`, or are success wires out of `s`. */
  predicate WiresEnclose(sketch: Sketch, s: set<nat>, x: set<nat>, closed: set<nat>) {
    && sketch.InRange()
    && (forall i :: i in s ==> i < |sketch.nodes|)
    && (forall i :: i in x ==> i < |sketch.nodes|)
    && (forall i :: i in closed ==> i < |sketch.nodes|)
    && (forall i :: i in closed ==> !sketch.nodes[i].kind.SuccessTerminal?)
    && (forall k :: 0 <= k < |sketch.wires| ==>
          var w := sketch.wires[k];
          w.from in closed && w.to !in closed ==> w.from in x || (w.from in s && w.on.OnSuccess?))
  }

  lemma DrawnEncloses(sketch: Sketch, flow: CompiledFlow, flowId: nat, ids: seq<NodeId>,
                      s: set<nat>, x: set<nat>, closed: set<nat>)
    requires Drawn(sketch, flow, flowId, ids) && WiresEnclose(sketch, s, x, closed)
    ensures forall i :: i in s ==> i < |ids|
    ensures forall i :: i in x ==> i < |ids|
    ensures forall i :: i in closed ==> i < |ids|
    ensures Encloses(flow.definition, Image(ids, s), Image(ids, x), Image(ids, closed))
    ensures forall id :: IsSuccess(flow.definition, id) ==> id !in Image(ids, closed)
  {
    hide flow.Valid;
    var edges, nodes := flow.definition.edges, flow.definition.nodes;
    forall e | e in edges && e.from in Image(ids, closed) && e.to !in Image(ids, closed)
      ensures e.from in Image(ids, x) || (e.from in Image(ids, s) && e.on.OnSuccess?)
    {
      var k :| 0 <= k < |edges| && edges[k] == e;
      var w := sketch.wires[k];
      var i :| i in closed && ids[i] == e.from;
      assert w.from == i && w.to !in closed;
    }
    forall id | IsSuccess(flow.definition, id)
      ensures id !in Image(ids, closed)
    {
      var n :| n in nodes && n.id == id && n.kind.SuccessTerminal?;
      var i :| 0 <= i < |nodes| && nodes[i] == n;
      assert i !in closed;
    }
  }

  lemma BrowserWires()
    ensures WiresEnclose(BROWSER, {1}, {4}, {0, 1, 2, 3, 4, 6})
  {
  }

  /** Browser: who did not come in by the cookie came by the required actions. */
  lemma BrowserNeedsRequiredActions(flow: CompiledFlow, flowId: nat, ids: seq<NodeId>,
                                    origin: State, calls: seq<Call>, last: Call, d: Dispatcher)
    requires RunDone(BROWSER, flow, flowId, ids, origin, calls, last, d)
    ensures var log := Finish(flow, origin, calls, last, d).log;
            ProviderSucceeded(flow, log, {COOKIE}) || ProviderVisited(flow, log, {REQUIRE_ACTION})
  {
    hide Finish, EndsDone, Encloses, flow.Valid;
    BrowserWires();
    DrawnEncloses(BROWSER, flow, flowId, ids, {1}, {4}, {0, 1, 2, 3, 4, 6});
    DrawnKinds(BROWSER, {1}, {COOKIE}, flow, flowId, ids);
    DrawnKinds(BROWSER, {4}, {REQUIRE_ACTION}, flow, flowId, ids);
    assert ids[0] in Image(ids, {0, 1, 2, 3, 4, 6});
    DoneLeavesEnclosure(flow, Image(ids, {1}), Image(ids, {4}), Image(ids, {0, 1, 2, 3, 4, 6}), origin, calls, last, d);
  }

  /** One of the providers was dispatched. */
  ghost predicate ProviderVisited(flow: CompiledFlow, log: seq<Visit>, urns: set<string>) {
    exists i :: 0 <= i < |log| && flow.Knows(log[i].node) && RunsOneOf(flow.Node(log[i].node), urns)
  }
}
