/** Validation of a flow definition and the index the executor walks. */
module FlowCompile {
  import opened Prelude
  import opened FlowDsl
  import opened FlowGuard
  import opened FlowGraph

  datatype CompileError =
    | StartMissing(node: NodeId)
    | DuplicateNode(node: NodeId)
    | EdgeFromUnknown(node: NodeId)
    | EdgeToUnknown(node: NodeId)
    | TerminalWithOutbound(node: NodeId)
    | NoSuccessReachable

  /** A definition with node positions by id and outbound edges by source id. */
  datatype CompiledFlow = CompiledFlow(
    definition: FlowDefinition,
    byId: map<NodeId, nat>,
    outbound: map<NodeId, seq<Edge>>
  ) {
    /** What the executor relies on. */
    ghost predicate Valid() {
      && NodesIndexed(definition.nodes, byId)
      && definition.start in byId
      && EdgesKnown(definition.edges, byId.Keys)
      && EdgesIndexed(definition.edges, outbound)
      && (forall n :: n in definition.nodes && n.kind.IsTerminal() ==> n.id !in outbound)
      && SuccessReachable(definition)
    }

    predicate Knows(id: NodeId) {
      id in byId && byId[id] < |definition.nodes|
    }

    function Node(id: NodeId): FlowNode
      requires Knows(id)
    {
      definition.nodes[byId[id]]
    }

    function Next(from: NodeId, on: EdgeCondition): Option<NodeId> {
      if from !in outbound then None
      else OrElse(FirstLabelled(outbound[from], on), FirstLabelled(outbound[from], Otherwise))
    }

    function NextWithGuard(from: NodeId, on: EdgeCondition, ctx: FlowContext): Option<NodeId> {
      if from !in outbound then None
      else OrElse(FirstMatch(outbound[from], on, ctx), FirstMatch(outbound[from], Otherwise, ctx))
    }
  }

  function FirstLabelled(edges: seq<Edge>, on: EdgeCondition): Option<NodeId> {
    if edges == [] then None
    else if edges[0].on == on then Some(edges[0].to)
    else FirstLabelled(edges[1..], on)
  }

  /** The target of the first edge in declaration order with label `on` and a passing guard. */
  function FirstMatch(edges: seq<Edge>, on: EdgeCondition, ctx: FlowContext): Option<NodeId> {
    if edges == [] then None
    else if edges[0].on == on && EvalGuard(edges[0].guard, ctx) then Some(edges[0].to)
    else FirstMatch(edges[1..], on, ctx)
  }

  // ---- What an accepted definition satisfies ----

  ghost function Ids(nodes: seq<FlowNode>): set<NodeId> {
    set n | n in nodes :: n.id
  }

  ghost predicate DistinctIds(nodes: seq<FlowNode>) {
    forall i, j :: 0 <= i < j < |nodes| ==> nodes[i].id != nodes[j].id
  }

  /** `byId` is a bijection between the ids of `nodes` and the positions in `nodes`. */
  ghost predicate NodesIndexed(nodes: seq<FlowNode>, byId: map<NodeId, nat>) {
    && (forall i :: 0 <= i < |nodes| ==> nodes[i].id in byId && byId[nodes[i].id] == i)
    && (forall id :: id in byId ==> byId[id] < |nodes| && nodes[byId[id]].id == id)
  }

  ghost predicate EdgesKnown(edges: seq<Edge>, ids: set<NodeId>) {
    forall e :: e in edges ==> e.from in ids && e.to in ids
  }

  /** The edges that leave `n`, in declaration order. */
  function EdgesFrom(edges: seq<Edge>, n: NodeId): seq<Edge> {
    if edges == [] then []
    else
      var last := edges[|edges| - 1];
      EdgesFrom(edges[..|edges| - 1], n) + if last.from == n then [last] else []
  }

  ghost predicate EdgesIndexed(edges: seq<Edge>, outbound: map<NodeId, seq<Edge>>) {
    && (forall e :: e in edges ==> e.from in outbound)
    && (forall n :: n in outbound ==> outbound[n] == EdgesFrom(edges, n) && outbound[n] != [])
  }

  ghost predicate IsSuccess(def: FlowDefinition, id: NodeId) {
    exists n :: n in def.nodes && n.id == id && n.kind.SuccessTerminal?
  }

  ghost predicate SuccessReachable(def: FlowDefinition) {
    exists id :: IsSuccess(def, id) && Reachable(def.edges, def.start, id)
  }

  /** The checks `compile` runs before its search, all passed. */
  ghost predicate WellFormed(def: FlowDefinition) {
    && DistinctIds(def.nodes)
    && def.start in Ids(def.nodes)
    && EdgesKnown(def.edges, Ids(def.nodes))
    && NoTerminalOutbound(def.nodes, def.edges)
  }

  ghost predicate LeavesNode(edges: seq<Edge>, id: NodeId) {
    exists e :: e in edges && e.from == id
  }

  ghost predicate NoTerminalOutbound(nodes: seq<FlowNode>, edges: seq<Edge>) {
    forall n :: n in nodes && n.kind.IsTerminal() ==> !LeavesNode(edges, n.id)
  }

  /**
   The verdict the checks call for: the first failing check decides, and within a check
   the first offending node or edge in declaration order.
   */
  ghost predicate Explains(def: FlowDefinition, r: Result<CompiledFlow, CompileError>) {
    match r
    case Err(DuplicateNode(id)) =>
      exists k :: 0 <= k < |def.nodes| && FirstDuplicateAt(def.nodes, id, k)
    case Err(StartMissing(id)) =>
      DistinctIds(def.nodes) && id == def.start && id !in Ids(def.nodes)
    case Err(EdgeFromUnknown(id)) =>
      && DistinctIds(def.nodes) && def.start in Ids(def.nodes)
      && exists k :: 0 <= k < |def.edges| && FirstUnknownAt(def.edges, Ids(def.nodes), k, r.error)
    case Err(EdgeToUnknown(id)) =>
      && DistinctIds(def.nodes) && def.start in Ids(def.nodes)
      && exists k :: 0 <= k < |def.edges| && FirstUnknownAt(def.edges, Ids(def.nodes), k, r.error)
    case Err(TerminalWithOutbound(id)) =>
      && DistinctIds(def.nodes) && def.start in Ids(def.nodes) && EdgesKnown(def.edges, Ids(def.nodes))
      && exists k :: 0 <= k < |def.nodes| && FirstBadTerminalAt(def.nodes, def.edges, id, k)
    case Err(NoSuccessReachable) =>
      WellFormed(def) && !SuccessReachable(def)
    case Ok(flow) =>
      WellFormed(def) && flow.definition == def && flow.Valid()
  }

  ghost predicate FirstDuplicateAt(nodes: seq<FlowNode>, id: NodeId, k: nat)
    requires k < |nodes|
  {
    nodes[k].id == id && DistinctIds(nodes[..k]) && id in Ids(nodes[..k])
  }

  ghost predicate FirstUnknownAt(edges: seq<Edge>, ids: set<NodeId>, k: nat, error: CompileError)
    requires k < |edges|
  {
    var e := edges[k];
    && EdgesKnown(edges[..k], ids)
    && ( || (error == EdgeFromUnknown(e.from) && e.from !in ids)
         || (error == EdgeToUnknown(e.to) && e.from in ids && e.to !in ids))
  }

  ghost predicate FirstBadTerminalAt(nodes: seq<FlowNode>, edges: seq<Edge>, id: NodeId, k: nat)
    requires k < |nodes|
  {
    && NoTerminalOutbound(nodes[..k], edges)
    && nodes[k].id == id && nodes[k].kind.IsTerminal() && LeavesNode(edges, id)
  }

  // ---- The compiler ----

  method IndexNodes(nodes: seq<FlowNode>) returns (r: Result<map<NodeId, nat>, CompileError>)
    ensures r.Ok? ==> DistinctIds(nodes) && NodesIndexed(nodes, r.value)
    ensures r.Err? ==> r.error.DuplicateNode?
    ensures r.Err? ==> exists k :: 0 <= k < |nodes| && FirstDuplicateAt(nodes, r.error.node, k)
  {
    var byId: map<NodeId, nat> := map[];
    for ix := 0 to |nodes|
      invariant NodesIndexed(nodes[..ix], byId)
    {
      var id := nodes[ix].id;
      if id in byId {
        assert DistinctIds(nodes[..ix]);
        assert nodes[..ix][byId[id]].id == id;
        assert FirstDuplicateAt(nodes, id, ix);
        return Err(DuplicateNode(id));
      }
      byId := byId[id := ix];
    }
    assert nodes[..|nodes|] == nodes;
    r := Ok(byId);
  }

  method IndexEdges(edges: seq<Edge>, byId: map<NodeId, nat>)
    returns (r: Result<map<NodeId, seq<Edge>>, CompileError>)
    ensures r.Ok? ==> EdgesKnown(edges, byId.Keys) && EdgesIndexed(edges, r.value)
    ensures r.Err? ==> exists k :: 0 <= k < |edges| && FirstUnknownAt(edges, byId.Keys, k, r.error)
  {
    var outbound: map<NodeId, seq<Edge>> := map[];
    for k := 0 to |edges|
      invariant EdgesKnown(edges[..k], byId.Keys)
      invariant EdgesIndexed(edges[..k], outbound)
    {
      var e := edges[k];
      if e.from !in byId {
        assert FirstUnknownAt(edges, byId.Keys, k, EdgeFromUnknown(e.from));
        return Err(EdgeFromUnknown(e.from));
      }
      if e.to !in byId {
        assert FirstUnknownAt(edges, byId.Keys, k, EdgeToUnknown(e.to));
        return Err(EdgeToUnknown(e.to));
      }
      assert edges[..k + 1][..k] == edges[..k];
      if e.from !in outbound {
        NoEdgesFrom(edges[..k], e.from);
      }
      outbound := outbound[e.from := (if e.from in outbound then outbound[e.from] else []) + [e]];
    }
    assert edges[..|edges|] == edges;
    r := Ok(outbound);
  }

  lemma {:induction false} NoEdgesFrom(edges: seq<Edge>, n: NodeId)
    requires forall e :: e in edges ==> e.from != n
    ensures EdgesFrom(edges, n) == []
  {
    if edges == [] {
    } else {
      NoEdgesFrom(edges[..|edges| - 1], n);
    }
  }

  lemma {:induction false} EdgesFromMembers(edges: seq<Edge>, n: NodeId, e: Edge)
    ensures e in EdgesFrom(edges, n) <==> e in edges && e.from == n
  {
    if edges == [] {
    } else {
      EdgesFromMembers(edges[..|edges| - 1], n, e);
      assert edges == edges[..|edges| - 1] + [edges[|edges| - 1]];
    }
  }

  /** Every node is in the visited set or waiting, and nothing unreachable ever gets in. */
  ghost predicate Explored(def: FlowDefinition, visited: set<NodeId>, queue: seq<NodeId>) {
    && (def.start in visited || def.start in queue)
    && (forall n :: n in visited || n in queue ==> Reachable(def.edges, def.start, n))
    && (forall e :: e in def.edges && e.from in visited ==> e.to in visited || e.to in queue)
  }

  /**
   The worklist search: it answers exactly whether a Success terminal can be reached, and it
   ends on every graph because each round visits a new node or shortens the queue.
   */
  method SearchSuccess(def: FlowDefinition, byId: map<NodeId, nat>, outbound: map<NodeId, seq<Edge>>)
    returns (found: bool)
    requires NodesIndexed(def.nodes, byId) && def.start in byId
    requires EdgesKnown(def.edges, byId.Keys) && EdgesIndexed(def.edges, outbound)
    ensures found <==> SuccessReachable(def)
  {
    var visited: set<NodeId> := {};
    var queue := [def.start];
    found := false;
    ReachableSelf(def.edges, def.start);
    while queue != []
      invariant visited <= byId.Keys && forall n :: n in queue ==> n in byId
      invariant Explored(def, visited, queue)
      invariant found <==> exists n :: n in visited && IsSuccess(def, n)
      decreases byId.Keys - visited, |queue|
    {
      var n := queue[|queue| - 1];
      ghost var waiting := queue;
      queue := queue[..|queue| - 1];
      assert forall m :: m in waiting ==> m == n || m in queue;
      if n in visited {
        continue;
      }
      ghost var before := visited;
      visited := visited + {n};
      if def.nodes[byId[n]].kind.SuccessTerminal? {
        assert IsSuccess(def, n);
        found := true;
      }
      assert IsSuccess(def, n) <==> def.nodes[byId[n]].kind.SuccessTerminal?;
      if n in outbound {
        queue := PushTargets(def, n, outbound[n], queue);
      } else {
        assert forall e :: e in def.edges ==> e.from != n;
      }
      assert byId.Keys - visited < byId.Keys - before;
    }
    if SuccessReachable(def) {
      var id :| IsSuccess(def, id) && Reachable(def.edges, def.start, id);
      ReachableStaysClosed(def.edges, visited, def.start, id);
    }
  }

  /** Appends the target of every edge that leaves `n`. */
  method PushTargets(def: FlowDefinition, n: NodeId, edges: seq<Edge>, queue: seq<NodeId>)
    returns (q: seq<NodeId>)
    requires edges == EdgesFrom(def.edges, n) && Reachable(def.edges, def.start, n)
    ensures |q| == |queue| + |edges| && queue <= q
    ensures forall i :: 0 <= i < |edges| ==> q[|queue| + i] == edges[i].to
    ensures forall e :: e in def.edges && e.from == n ==> e.to in q
    ensures forall m :: m in q ==> m in queue || (HasEdge(def.edges, n, m) && Reachable(def.edges, def.start, m))
  {
    q := queue;
    for k := 0 to |edges|
      invariant |q| == |queue| + k && queue <= q
      invariant forall i :: 0 <= i < k ==> q[|queue| + i] == edges[i].to
      invariant forall m :: m in q ==> m in queue || (HasEdge(def.edges, n, m) && Reachable(def.edges, def.start, m))
    {
      EdgesFromMembers(def.edges, n, edges[k]);
      assert HasEdge(def.edges, n, edges[k].to);
      ReachableStep(def.edges, def.start, n, edges[k].to);
      q := q + [edges[k].to];
    }
    forall e | e in def.edges && e.from == n
      ensures e.to in q
    {
      EdgesFromMembers(def.edges, n, e);
      var i :| 0 <= i < |edges| && edges[i] == e;
      assert q[|queue| + i] == e.to;
    }
  }

  /** Terminals must have no outbound edges; the first offender in node order is reported. */
  method CheckTerminals(nodes: seq<FlowNode>, edges: seq<Edge>, outbound: map<NodeId, seq<Edge>>)
    returns (offender: Option<NodeId>)
    requires EdgesIndexed(edges, outbound)
    ensures offender.None? ==> NoTerminalOutbound(nodes, edges)
    ensures offender.None? ==> forall n :: n in nodes && n.kind.IsTerminal() ==> n.id !in outbound
    ensures offender.Some? ==> exists k :: 0 <= k < |nodes| && FirstBadTerminalAt(nodes, edges, offender.value, k)
  {
    for k := 0 to |nodes|
      invariant forall n :: n in nodes[..k] && n.kind.IsTerminal() ==> n.id !in outbound
      invariant NoTerminalOutbound(nodes[..k], edges)
    {
      var n := nodes[k];
      if n.kind.IsTerminal() && n.id in outbound {
        EdgesFromMembers(edges, n.id, outbound[n.id][0]);
        assert FirstBadTerminalAt(nodes, edges, n.id, k);
        return Some(n.id);
      }
      assert n.kind.IsTerminal() ==> !LeavesNode(edges, n.id);
    }
    assert nodes[..|nodes|] == nodes;
    offender := None;
  }

  method Compile(def: FlowDefinition) returns (r: Result<CompiledFlow, CompileError>)
    ensures Explains(def, r)
  {
    var indexed := IndexNodes(def.nodes);
    if indexed.Err? {
      return Err(indexed.error);
    }
    var byId := indexed.value;
    assert byId.Keys == Ids(def.nodes);
    if def.start !in byId {
      return Err(StartMissing(def.start));
    }
    var grouped := IndexEdges(def.edges, byId);
    if grouped.Err? {
      return Err(grouped.error);
    }
    var outbound := grouped.value;
    var offender := CheckTerminals(def.nodes, def.edges, outbound);
    if offender.Some? {
      return Err(TerminalWithOutbound(offender.value));
    }
    var found := SearchSuccess(def, byId, outbound);
    if !found {
      return Err(NoSuccessReachable);
    }
    r := Ok(CompiledFlow(def, byId, outbound));
  }

  /**
   At most one verdict is explained by a definition. With `Compile`'s contract this makes every
   clause of `Explains` an equivalence: for a well-formed definition, for instance, the answer is
   `NoSuccessReachable` exactly when no path leads from the start to a Success terminal.
   */
  lemma VerdictUnique(def: FlowDefinition,
                      r: Result<CompiledFlow, CompileError>, s: Result<CompiledFlow, CompileError>)
    requires Explains(def, r) && Explains(def, s)
    ensures r == s
  {
    VerdictStage(def, r);
    VerdictStage(def, s);
    if r.Ok? {
      IndexUnique(r.value, s.value);
    }
  }

  /** Which of the checks a verdict names; every check is decided by the definition alone. */
  ghost function Stage(r: Result<CompiledFlow, CompileError>): nat {
    match r
    case Err(DuplicateNode(_)) => 0
    case Err(StartMissing(_)) => 1
    case Err(EdgeFromUnknown(_)) => 2
    case Err(EdgeToUnknown(_)) => 2
    case Err(TerminalWithOutbound(_)) => 3
    case Err(NoSuccessReachable) => 4
    case Ok(_) => 5
  }

  lemma VerdictStage(def: FlowDefinition, r: Result<CompiledFlow, CompileError>)
    requires Explains(def, r)
    ensures Stage(r) == 0 <==> !DistinctIds(def.nodes)
    ensures Stage(r) <= 1 <==> !(DistinctIds(def.nodes) && def.start in Ids(def.nodes))
    ensures Stage(r) <= 2 <==> !(DistinctIds(def.nodes) && def.start in Ids(def.nodes)
                                 && EdgesKnown(def.edges, Ids(def.nodes)))
    ensures Stage(r) <= 3 <==> !WellFormed(def)
    ensures Stage(r) <= 4 <==> !(WellFormed(def) && SuccessReachable(def))
  {
  }

  lemma IndexUnique(f: CompiledFlow, g: CompiledFlow)
    requires f.Valid() && g.Valid() && f.definition == g.definition
    ensures f == g
  {
    assert f.byId.Keys == g.byId.Keys;
    assert f.byId == g.byId;
    forall n | n in f.outbound
      ensures n in g.outbound
    {
      EdgesFromMembers(f.definition.edges, n, f.outbound[n][0]);
    }
    forall n | n in g.outbound
      ensures n in f.outbound
    {
      EdgesFromMembers(f.definition.edges, n, g.outbound[n][0]);
    }
    assert f.outbound.Keys == g.outbound.Keys;
    assert f.outbound == g.outbound;
  }

  lemma StartKnown(flow: CompiledFlow)
    requires flow.Valid()
    ensures flow.Knows(flow.definition.start)
  {
  }

  // ---- Edge selection ----

  /** Position `k` holds the first edge with label `on` whose guard passes. */
  ghost predicate SelectedAt(edges: seq<Edge>, on: EdgeCondition, ctx: FlowContext, k: nat) {
    && k < |edges| && edges[k].on == on && EvalGuard(edges[k].guard, ctx)
    && NoneMatch(edges[..k], on, ctx)
  }

  ghost predicate Selects(edges: seq<Edge>, on: EdgeCondition, ctx: FlowContext, to: NodeId) {
    exists k: nat :: SelectedAt(edges, on, ctx, k) && edges[k].to == to
  }

  ghost predicate NoneMatch(edges: seq<Edge>, on: EdgeCondition, ctx: FlowContext) {
    forall e :: e in edges ==> !(e.on == on && EvalGuard(e.guard, ctx))
  }

  lemma {:induction false} FirstMatchExact(edges: seq<Edge>, on: EdgeCondition, ctx: FlowContext)
    ensures FirstMatch(edges, on, ctx).None? <==> NoneMatch(edges, on, ctx)
    ensures FirstMatch(edges, on, ctx).Some? ==> Selects(edges, on, ctx, FirstMatch(edges, on, ctx).value)
  {
    hide EvalGuard;
    if edges == [] {
    } else {
      FirstMatchExact(edges[1..], on, ctx);
      assert edges == [edges[0]] + edges[1..];
      if edges[0].on == on && EvalGuard(edges[0].guard, ctx) {
        assert SelectedAt(edges, on, ctx, 0);
      } else if FirstMatch(edges, on, ctx).Some? {
        var k: nat :| SelectedAt(edges[1..], on, ctx, k) && edges[1..][k].to == FirstMatch(edges, on, ctx).value;
        assert edges[..k + 1] == [edges[0]] + edges[1..][..k];
        assert SelectedAt(edges, on, ctx, k + 1);
      }
    }
  }

  /**
   The guarded lookup, read off the edge list of the definition: the first edge out of `n` with the
   asked label and a passing guard wins; failing that the first passing `Otherwise` edge; failing
   that there is no next node.
   */
  lemma NextWithGuardExact(flow: CompiledFlow, n: NodeId, on: EdgeCondition, ctx: FlowContext)
    requires flow.Valid()
    ensures var edges := EdgesFrom(flow.definition.edges, n);
            match flow.NextWithGuard(n, on, ctx)
            case Some(to) =>
              || Selects(edges, on, ctx, to)
              || (NoneMatch(edges, on, ctx) && Selects(edges, Otherwise, ctx, to))
            case None => NoneMatch(edges, on, ctx) && NoneMatch(edges, Otherwise, ctx)
  {
    var edges := EdgesFrom(flow.definition.edges, n);
    FirstMatchExact(edges, on, ctx);
    FirstMatchExact(edges, Otherwise, ctx);
    if n !in flow.outbound {
      NoEdgesFrom(flow.definition.edges, n);
    }
  }

  predicate Eligible(e: Edge, from: NodeId, to: NodeId, on: EdgeCondition, ctx: FlowContext) {
    e.from == from && e.to == to && (e.on == on || e.on == Otherwise) && EvalGuard(e.guard, ctx)
  }

  /** A next node is always the target of a definition edge out of `n` that may be taken. */
  lemma NextIsEdge(flow: CompiledFlow, n: NodeId, on: EdgeCondition, ctx: FlowContext)
    requires flow.Valid() && flow.NextWithGuard(n, on, ctx).Some?
    ensures exists e :: e in flow.definition.edges
              && Eligible(e, n, flow.NextWithGuard(n, on, ctx).value, on, ctx)
    ensures flow.Knows(flow.NextWithGuard(n, on, ctx).value)
  {
    var edges := EdgesFrom(flow.definition.edges, n);
    NextWithGuardExact(flow, n, on, ctx);
    var to := flow.NextWithGuard(n, on, ctx).value;
    var taken := if Selects(edges, on, ctx, to) then on else Otherwise;
    var k: nat :| SelectedAt(edges, taken, ctx, k) && edges[k].to == to;
    EdgesFromMembers(flow.definition.edges, n, edges[k]);
    assert Eligible(edges[k], n, to, on, ctx);
  }

  /** The executor's explicit fallback to `Otherwise` never changes the answer. */
  lemma FallbackAbsorbed(flow: CompiledFlow, n: NodeId, on: EdgeCondition, ctx: FlowContext)
    ensures OrElse(flow.NextWithGuard(n, on, ctx), flow.NextWithGuard(n, Otherwise, ctx))
            == flow.NextWithGuard(n, on, ctx)
  {
  }

  lemma {:induction false} UnguardedFirstMatch(edges: seq<Edge>, on: EdgeCondition, ctx: FlowContext)
    requires forall e :: e in edges ==> e.guard == map[]
    ensures FirstMatch(edges, on, ctx) == FirstLabelled(edges, on)
  {
    if edges == [] {
    } else {
      UnguardedFirstMatch(edges[1..], on, ctx);
    }
  }

  /** Without guards the guarded lookup is the plain one, whatever the context. */
  lemma UnguardedNext(flow: CompiledFlow, n: NodeId, on: EdgeCondition, ctx: FlowContext)
    requires flow.Valid() && forall e :: e in flow.definition.edges ==> e.guard == map[]
    ensures flow.NextWithGuard(n, on, ctx) == flow.Next(n, on)
  {
    if n in flow.outbound {
      forall e | e in flow.outbound[n]
        ensures e.guard == map[]
      {
        EdgesFromMembers(flow.definition.edges, n, e);
      }
      UnguardedFirstMatch(flow.outbound[n], on, ctx);
      UnguardedFirstMatch(flow.outbound[n], Otherwise, ctx);
    }
  }
}
