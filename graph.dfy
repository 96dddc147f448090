/**
 * The graph accumulator shared by the visitors of `trial_graph.py`: the node
 * and edge lists, the id counter `nid`, the pending ("delegated") edges, the
 * per-trial duration extrema and, for the combining visitor, the namespace
 * and edge-key indexes.  Each operation of the accumulator is a function from
 * one state to the next; the `Visitor` class runs the same operations in place.
 */
module Graph {
  import opened Wrappers
  import opened Structures

  datatype EdgeType = InitialEdge | CallEdge | ReturnEdge | SequenceEdge

  /** An edge count; `Blank` is the `''` that the no-match export writes over call and return counts. */
  datatype EdgeCount = Count(n: nat) | Blank

  /**
   * The dictionary `Single.to_dict(nid)` contributes, reduced to the keys this
   * core reads and writes.  `duration`, `count`, `trialId` and `mean` are those
   * of the inner `node['node']` that `to_dict` reads; `outerDuration` is the
   * outer key `node['duration']` that `visit_mixed` writes, `None` until it does.
   */
  datatype GraphNode = GraphNode(index: nat, actId: nat, trialId: nat, duration: nat, count: nat, mean: Option<real>,
                                 outerDuration: Option<nat>)

  datatype GraphEdge = GraphEdge(source: nat, target: nat, count: EdgeCount, typ: EdgeType)

  /** The `Edge(node, count)` named tuple: a pending edge whose other endpoint is not yet known. */
  datatype Delegation = Delegation(node: nat, count: nat)

  /** The key `"source target type"` under which the combining visitor merges edges. */
  datatype EdgeKey = EdgeKey(source: nat, target: nat, typ: EdgeType)

  /** Which visitor class the accumulator belongs to. */
  datatype Kind = TreeKind | NoMatchKind | CombineKind

  datatype VState = VState(
    kind: Kind,
    nodes: seq<GraphNode>,
    edges: seq<GraphEdge>,
    delegated: map<EdgeType, Delegation>,
    nid: nat,
    minDuration: map<nat, nat>,
    maxDuration: map<nat, nat>,
    context: map<string, nat>,          // namespace -> position of its node in `nodes`
    contextEdges: map<EdgeKey, nat>,    // edge key -> position of its edge in `edges`
    namestack: seq<string>)

  /** The exported graph document returned by `to_dict`. */
  datatype GraphDoc = GraphDoc(
    nodes: seq<GraphNode>,
    edges: seq<GraphEdge>,
    minDuration: map<nat, nat>,
    maxDuration: map<nat, nat>)

  /** The state `__init__` creates: nothing emitted and one pending `initial` edge from node 0. */
  function Init(kind: Kind): (st: VState)
    ensures Valid(st) && st.nodes == [] && st.edges == [] && st.nid == 0
    ensures st.delegated == map[InitialEdge := Delegation(0, 1)]
  {
    VState(kind, [], [], map[InitialEdge := Delegation(0, 1)], 0, map[], map[], map[], map[], [])
  }

  function KeyOf(e: GraphEdge): EdgeKey
  {
    EdgeKey(e.source, e.target, e.typ)
  }

  /** Every pending entry names an emitted node, or node 0, which is the first node ever emitted. */
  ghost predicate Pending(d: map<EdgeType, Delegation>, n: nat)
  {
    forall k :: k in d ==> d[k].node < n || d[k].node == 0
  }

  /** Every pending entry names an emitted node. */
  ghost predicate Refers(d: map<EdgeType, Delegation>, n: nat)
  {
    forall k :: k in d ==> d[k].node < n
  }

  /** Each node's `index` is its position and each node counts at least one occurrence. */
  ghost predicate NodesIndexed(ns: seq<GraphNode>)
  {
    forall i :: 0 <= i < |ns| ==> ns[i].index == i && ns[i].count >= 1
  }

  /** Every edge joins two of the first `n` nodes. */
  ghost predicate EdgesJoin(es: seq<GraphEdge>, n: nat)
  {
    forall j :: 0 <= j < |es| ==> es[j].source < n && es[j].target < n
  }

  /** Distinct namespaces name distinct nodes among the first `n`. */
  ghost predicate NamesIndexed(context: map<string, nat>, n: nat)
  {
    && (forall ns :: ns in context ==> context[ns] < n)
    && (forall a, b :: a in context && b in context && a != b ==> context[a] != context[b])
  }

  /**
   * The edge index is a bijection between the keys and the positions of
   * `edges`, so that no two edges share a key; every count is numeric.
   */
  ghost predicate KeysIndexed(contextEdges: map<EdgeKey, nat>, es: seq<GraphEdge>)
  {
    && (forall k :: k in contextEdges ==> contextEdges[k] < |es| && KeyOf(es[contextEdges[k]]) == k)
    && (forall j :: 0 <= j < |es| ==> KeyOf(es[j]) in contextEdges && contextEdges[KeyOf(es[j])] == j)
    && (forall j :: 0 <= j < |es| ==> es[j].count.Count?)
  }

  /**
   * The accumulator's invariant: `nid` is the number of nodes and each node's
   * `index` its position, every node counts at least one occurrence (so the
   * export never divides by zero), every edge joins emitted nodes, pending
   * entries refer to emitted nodes, and the combining visitor's indexes are
   * exact (the other visitors leave them empty).
   */
  ghost predicate Valid(st: VState)
  {
    match st.kind
    case CombineKind => Emitted(st) && NamesIndexed(st.context, |st.nodes|) && KeysIndexed(st.contextEdges, st.edges)
    case _ => Emitted(st) && st.context == map[] && st.contextEdges == map[] && st.namestack == []
  }

  /** Handing the visitor a new pending map over emitted nodes keeps it valid. */
  lemma {:induction false} ValidDelegated(st: VState, d: map<EdgeType, Delegation>)
    requires Valid(st) && Pending(d, |st.nodes|)
    ensures Valid(st.(delegated := d))
  {
  }

  /** The part of `Valid` every visitor keeps. */
  ghost predicate Emitted(st: VState)
  {
    && st.nid == |st.nodes|
    && NodesIndexed(st.nodes)
    && EdgesJoin(st.edges, |st.nodes|)
    && Pending(st.delegated, |st.nodes|)
  }

  /** `a` and `b` agree on everything but the node list, the counter and the namespace index. */
  predicate SameButNodes(a: VState, b: VState)
  {
    && a.kind == b.kind && a.edges == b.edges && a.delegated == b.delegated
    && a.minDuration == b.minDuration && a.maxDuration == b.maxDuration
    && a.contextEdges == b.contextEdges && a.namestack == b.namestack
  }

  /** `a` and `b` agree on everything but the edge list and the edge index. */
  predicate SameButEdges(a: VState, b: VState)
  {
    && a.kind == b.kind && a.nodes == b.nodes && a.nid == b.nid && a.delegated == b.delegated
    && a.minDuration == b.minDuration && a.maxDuration == b.maxDuration
    && a.context == b.context && a.namestack == b.namestack
  }

  /** `Single.to_dict(nid)`: the node a single contributes under id `nid`. */
  function NodeOf(s: Tree, nid: nat): (n: GraphNode)
    requires s.Single?
    ensures n.index == nid && n.count == s.count && n.duration == s.duration && n.mean == None && n.outerDuration == None
  {
    GraphNode(nid, s.act.id, s.act.trialId, s.duration, s.count, None, None)
  }

  /** Total occurrence count over a node list. */
  function SumCounts(ns: seq<GraphNode>): nat
  {
    if ns == [] then 0 else SumCounts(ns[..|ns| - 1]) + ns[|ns| - 1].count
  }

  /** Total duration over a node list. */
  function SumDurations(ns: seq<GraphNode>): nat
  {
    if ns == [] then 0 else SumDurations(ns[..|ns| - 1]) + ns[|ns| - 1].duration
  }

  lemma {:induction false} SumsAppend(ns: seq<GraphNode>, n: GraphNode)
    ensures SumCounts(ns + [n]) == SumCounts(ns) + n.count
    ensures SumDurations(ns + [n]) == SumDurations(ns) + n.duration
  {
    assert (ns + [n])[..|ns|] == ns;
  }

  lemma {:induction false} SumsUpdate(ns: seq<GraphNode>, i: nat, n: GraphNode)
    requires i < |ns|
    ensures SumCounts(ns[i := n]) + ns[i].count == SumCounts(ns) + n.count
    ensures SumDurations(ns[i := n]) + ns[i].duration == SumDurations(ns) + n.duration
    decreases |ns|
  {
    var last := |ns| - 1;
    if i == last {
      assert ns[i := n][..last] == ns[..last];
    } else {
      assert ns[i := n][..last] == ns[..last][i := n];
      SumsUpdate(ns[..last], i, n);
    }
  }

  /** `' '.join(names)`. */
  function Join(names: seq<string>): string
  {
    if names == [] then ""
    else if |names| == 1 then names[0]
    else Join(names[..|names| - 1]) + " " + names[|names| - 1]
  }

  /** `' '.join(names)` read from the front: the first name, then each further one after a space. */
  function JoinFront(names: seq<string>): string
  {
    if names == [] then "" else names[0] + Spaced(names[1..])
  }

  /** Each name preceded by one space. */
  function Spaced(names: seq<string>): string
  {
    if names == [] then "" else " " + names[0] + Spaced(names[1..])
  }

  lemma {:induction false} SpacedSnoc(names: seq<string>, x: string)
    ensures Spaced(names + [x]) == Spaced(names) + " " + x
    decreases |names|
  {
    if names != [] {
      assert (names + [x])[1..] == names[1..] + [x];
      SpacedSnoc(names[1..], x);
    }
  }

  /** The back-first `Join` is the same join as the front-first reading of `' '.join`. */
  lemma {:induction false} JoinAgrees(names: seq<string>)
    ensures Join(names) == JoinFront(names)
    decreases |names|
  {
    if |names| >= 2 {
      var init := names[..|names| - 1];
      JoinAgrees(init);
      SpacedSnoc(init[1..], names[|names| - 1]);
      assert names[1..] == init[1..] + [names[|names| - 1]];
    }
  }

  /**
   * `TreeVisitor.add_node`: the returned id is the old `nid`, `nid` grows by
   * exactly one and exactly one node is appended, whose `index` is that id.
   */
  function BaseAddNode(st: VState, s: Tree): (r: (VState, nat))
    requires Valid(st) && s.Single? && s.count >= 1
    ensures Valid(r.0) && SameButNodes(st, r.0) && r.0.context == st.context
    ensures r.1 == st.nid && r.0.nid == st.nid + 1
    ensures r.0.nodes == st.nodes + [NodeOf(s, r.1)]
  {
    (st.(nodes := st.nodes + [NodeOf(s, st.nid)], nid := st.nid + 1), st.nid)
  }

  /** The namespace `CombineVisitor.add_node` files a single under. */
  function NamespaceOf(st: VState, s: Tree): string
    requires s.Single?
  {
    Join(st.namestack + [NameId(s)])
  }

  /**
   * A single's namespace is its name at the top level, and otherwise the
   * namespace of the enclosing callers, a space, and its name.
   */
  lemma {:induction false} NamespaceExtends(st: VState, s: Tree)
    requires s.Single?
    ensures st.namestack == [] ==> NamespaceOf(st, s) == s.act.name
    ensures st.namestack != [] ==> NamespaceOf(st, s) == Join(st.namestack) + " " + s.act.name
  {
    assert (st.namestack + [NameId(s)])[..|st.namestack|] == st.namestack;
  }

  /** Add a single's count and duration to the node at position `i` (`update_namespace_node`). */
  function Absorb(st: VState, i: nat, s: Tree): (r: VState)
    requires Valid(st) && i < |st.nodes| && s.Single?
    ensures Valid(r) && SameButNodes(st, r) && r.context == st.context && r.nid == st.nid
    ensures |r.nodes| == |st.nodes|
    ensures r.nodes[i] == st.nodes[i].(count := st.nodes[i].count + s.count,
                                       duration := st.nodes[i].duration + s.duration)
    ensures forall j :: 0 <= j < |st.nodes| && j != i ==> r.nodes[j] == st.nodes[j]
    ensures SumCounts(r.nodes) == SumCounts(st.nodes) + s.count
    ensures SumDurations(r.nodes) == SumDurations(st.nodes) + s.duration
  {
    var n := st.nodes[i];
    var n' := n.(count := n.count + s.count, duration := n.duration + s.duration);
    SumsUpdate(st.nodes, i, n');
    st.(nodes := st.nodes[i := n'])
  }

  /** Append the single's node and file it under the new namespace `ns`. */
  function Register(st: VState, ns: string, s: Tree): (r: (VState, nat))
    requires Valid(st) && st.kind == CombineKind && ns !in st.context && s.Single? && s.count >= 1
    ensures Valid(r.0) && SameButNodes(st, r.0)
    ensures r.1 == st.nid && r.0.nid == st.nid + 1
    ensures r.0.nodes == st.nodes + [NodeOf(s, st.nid)]
    ensures r.0.context == st.context[ns := r.1]
    ensures SumCounts(r.0.nodes) == SumCounts(st.nodes) + s.count
    ensures SumDurations(r.0.nodes) == SumDurations(st.nodes) + s.duration
  {
    var (st1, id) := BaseAddNode(st, s);
    SumsAppend(st.nodes, NodeOf(s, st.nid));
    (st1.(context := st1.context[ns := |st1.nodes| - 1]), id)
  }

  /**
   * `CombineVisitor.add_node`: a namespace seen before returns the stored
   * node's index, adds nothing to `nodes` and adds the single's count and
   * duration to that node; a new namespace appends a node and records its
   * position.  The name stack is left as it was.
   */
  function CombineAddNode(st: VState, s: Tree): (r: (VState, nat))
    requires Valid(st) && st.kind == CombineKind && s.Single? && s.count >= 1
    ensures Valid(r.0) && SameButNodes(st, r.0)
    ensures r.1 < |r.0.nodes| && r.0.nodes[r.1].index == r.1
    ensures NamespaceOf(st, s) in st.context ==>
      && r.1 == st.context[NamespaceOf(st, s)]
      && r.0 == Absorb(st, r.1, s)
    ensures NamespaceOf(st, s) !in st.context ==> r == Register(st, NamespaceOf(st, s), s)
    ensures |st.nodes| <= |r.0.nodes| <= |st.nodes| + 1
    ensures SumCounts(r.0.nodes) == SumCounts(st.nodes) + s.count
    ensures SumDurations(r.0.nodes) == SumDurations(st.nodes) + s.duration
  {
    var ns := NamespaceOf(st, s);
    if ns in st.context then
      var i := st.context[ns];
      (Absorb(st, i, s), st.nodes[i].index)
    else
      Register(st, ns, s)
  }

  /** `add_node` as each visitor class resolves it; the total count grows by the single's count. */
  function AddNode(st: VState, s: Tree): (r: (VState, nat))
    requires Valid(st) && s.Single? && s.count >= 1
    ensures Valid(r.0) && SameButNodes(st, r.0)
    ensures r.1 < |r.0.nodes| && r.0.nodes[r.1].index == r.1
    ensures st.kind != CombineKind ==> r == BaseAddNode(st, s)
    ensures st.kind == CombineKind ==> r == CombineAddNode(st, s)
    ensures st.kind != CombineKind ==> |r.0.nodes| == |st.nodes| + 1
    ensures |st.nodes| <= |r.0.nodes| <= |st.nodes| + 1
    ensures SumCounts(r.0.nodes) == SumCounts(st.nodes) + s.count
  {
    if st.kind == CombineKind then CombineAddNode(st, s)
    else
      SumsAppend(st.nodes, NodeOf(s, st.nid));
      BaseAddNode(st, s)
  }

  /** `TreeVisitor.add_edge`: append one edge. */
  function BaseAddEdge(st: VState, source: nat, target: nat, count: nat, typ: EdgeType): (r: VState)
    ensures SameButEdges(st, r) && r.contextEdges == st.contextEdges
    ensures r.edges == st.edges + [GraphEdge(source, target, Count(count), typ)]
  {
    st.(edges := st.edges + [GraphEdge(source, target, Count(count), typ)])
  }

  /** Add `count` to the numeric count of the edge at position `j`. */
  function Accumulate(st: VState, j: nat, count: nat): (r: VState)
    requires Valid(st) && j < |st.edges| && st.edges[j].count.Count?
    ensures Valid(r) && SameButEdges(st, r) && r.contextEdges == st.contextEdges
    ensures |r.edges| == |st.edges| && KeyOf(r.edges[j]) == KeyOf(st.edges[j])
    ensures r.edges[j] == st.edges[j].(count := Count(st.edges[j].count.n + count))
    ensures forall i :: 0 <= i < |st.edges| && i != j ==> r.edges[i] == st.edges[i]
  {
    var e := st.edges[j];
    st.(edges := st.edges[j := e.(count := Count(e.count.n + count))])
  }

  /** Append the edge of a key not seen before and record its position. */
  function RegisterEdge(st: VState, source: nat, target: nat, count: nat, typ: EdgeType): (r: VState)
    requires Valid(st) && st.kind == CombineKind && source < |st.nodes| && target < |st.nodes|
    requires EdgeKey(source, target, typ) !in st.contextEdges
    ensures Valid(r) && SameButEdges(st, r)
    ensures r.edges == st.edges + [GraphEdge(source, target, Count(count), typ)]
    ensures r.contextEdges == st.contextEdges[EdgeKey(source, target, typ) := |st.edges|]
  {
    var key := EdgeKey(source, target, typ);
    var es := st.edges + [GraphEdge(source, target, Count(count), typ)];
    var ce := st.contextEdges[key := |st.edges|];
    assert KeysIndexed(ce, es) by {
      forall k | k in ce
        ensures ce[k] < |es| && KeyOf(es[ce[k]]) == k
      {
        if k != key {
          assert es[ce[k]] == st.edges[st.contextEdges[k]];
        }
      }
      forall j | 0 <= j < |es|
        ensures KeyOf(es[j]) in ce && ce[KeyOf(es[j])] == j
      {
        if j < |st.edges| {
          assert es[j] == st.edges[j];
          assert KeyOf(es[j]) != key;
        }
      }
    }
    st.(edges := es, contextEdges := ce)
  }

  /**
   * `CombineVisitor.add_edge`: a key seen before adds `count` to the stored
   * edge and does not grow `edges`; a new key appends exactly one edge and
   * records its position.
   */
  function CombineAddEdge(st: VState, source: nat, target: nat, count: nat, typ: EdgeType): (r: VState)
    requires Valid(st) && st.kind == CombineKind && source < |st.nodes| && target < |st.nodes|
    ensures Valid(r) && SameButEdges(st, r)
    ensures EdgeKey(source, target, typ) in st.contextEdges ==>
      r == Accumulate(st, st.contextEdges[EdgeKey(source, target, typ)], count)
    ensures EdgeKey(source, target, typ) !in st.contextEdges ==>
      r == RegisterEdge(st, source, target, count, typ)
  {
    var key := EdgeKey(source, target, typ);
    if key !in st.contextEdges then RegisterEdge(st, source, target, count, typ)
    else Accumulate(st, st.contextEdges[key], count)
  }

  /** `add_edge` as each visitor class resolves it. */
  function AddEdge(st: VState, source: nat, target: nat, count: nat, typ: EdgeType): (r: VState)
    requires Valid(st) && source < |st.nodes| && target < |st.nodes|
    ensures Valid(r) && SameButEdges(st, r)
    ensures st.kind != CombineKind ==> r == BaseAddEdge(st, source, target, count, typ)
    ensures st.kind == CombineKind ==> r == CombineAddEdge(st, source, target, count, typ)
  {
    if st.kind == CombineKind then CombineAddEdge(st, source, target, count, typ)
    else BaseAddEdge(st, source, target, count, typ)
  }

  /** `use_delegated`: hand over the pending entries and leave none behind. */
  function UseDelegated(st: VState): (r: (VState, map<EdgeType, Delegation>))
    requires Valid(st)
    ensures Valid(r.0) && r.1 == st.delegated && r.0.delegated == map[]
    ensures r.0 == st.(delegated := map[])
  {
    (st.(delegated := map[]), st.delegated)
  }

  /** The order in which `solve_cis_delegation` looks for pending entries. */
  const CisOrder: seq<EdgeType> := [CallEdge, InitialEdge, SequenceEdge]

  /** The types of `types` that have a pending entry, in order. */
  function Present(d: map<EdgeType, Delegation>, types: seq<EdgeType>): (r: seq<EdgeType>)
    ensures |r| <= |types| && forall j :: 0 <= j < |r| ==> r[j] in d && r[j] in types
    ensures forall x :: x in types && x in d ==> x in r
  {
    if types == [] then []
    else Present(d, types[..|types| - 1]) + (if types[|types| - 1] in d then [types[|types| - 1]] else [])
  }

  /**
   * For the list `solve_cis_delegation` walks, the present types are, in this
   * order, `call` if pending, then `initial` if pending, then `sequence` if pending.
   */
  lemma {:induction false} PresentCis(d: map<EdgeType, Delegation>)
    ensures Present(d, CisOrder) ==
      (if CallEdge in d then [CallEdge] else []) + (if InitialEdge in d then [InitialEdge] else [])
        + (if SequenceEdge in d then [SequenceEdge] else [])
  {
    var one, two := [CallEdge], [CallEdge, InitialEdge];
    assert one[..0] == [] && two[..1] == one && CisOrder[..2] == two;
    assert Present(d, one) == (if CallEdge in d then [CallEdge] else []);
    assert Present(d, two) == Present(d, one) + (if InitialEdge in d then [InitialEdge] else []);
    assert Present(d, CisOrder) == Present(d, two) + (if SequenceEdge in d then [SequenceEdge] else []);
  }

  /**
   * The edges a non-merging visitor appends while resolving the pending
   * entries of `types` into `nodeId`: one per type present, in list order,
   * from that entry's node and with count `nodeCount`.
   */
  function CisEdges(d: map<EdgeType, Delegation>, nodeId: nat, nodeCount: nat, types: seq<EdgeType>): (r: seq<GraphEdge>)
    ensures |r| == |Present(d, types)|
    ensures forall j :: 0 <= j < |r| ==>
      r[j] == GraphEdge(d[Present(d, types)[j]].node, nodeId, Count(nodeCount), Present(d, types)[j])
    decreases |types|
  {
    if types == [] then []
    else
      var typ := types[|types| - 1];
      CisEdges(d, nodeId, nodeCount, types[..|types| - 1])
        + (if typ in d then [GraphEdge(d[typ].node, nodeId, Count(nodeCount), typ)] else [])
  }

  /** The loop of `solve_cis_delegation` over a prefix of its type list. */
  function SolveCisOver(st: VState, nodeId: nat, nodeCount: nat, d: map<EdgeType, Delegation>, types: seq<EdgeType>): (r: VState)
    requires Valid(st) && nodeId < |st.nodes| && Refers(d, |st.nodes|)
    ensures Valid(r) && SameButEdges(st, r)
    decreases |types|
  {
    if types == [] then st
    else
      var st1 := SolveCisOver(st, nodeId, nodeCount, d, types[..|types| - 1]);
      var typ := types[|types| - 1];
      if typ in d then AddEdge(st1, d[typ].node, nodeId, nodeCount, typ) else st1
  }

  /** A non-merging visitor appends exactly `CisEdges` while resolving the entries of `types`. */
  lemma {:induction false} SolveCisOverEdges(st: VState, nodeId: nat, nodeCount: nat, d: map<EdgeType, Delegation>, types: seq<EdgeType>)
    requires Valid(st) && nodeId < |st.nodes| && Refers(d, |st.nodes|) && st.kind != CombineKind
    ensures SolveCisOver(st, nodeId, nodeCount, d, types).edges == st.edges + CisEdges(d, nodeId, nodeCount, types)
    decreases |types|
  {
    if types != [] {
      var pre := types[..|types| - 1];
      SolveCisOverEdges(st, nodeId, nodeCount, d, pre);
      var typ := types[|types| - 1];
      if typ in d {
        var e := GraphEdge(d[typ].node, nodeId, Count(nodeCount), typ);
        calc {
          SolveCisOver(st, nodeId, nodeCount, d, types).edges;
          SolveCisOver(st, nodeId, nodeCount, d, pre).edges + [e];
          (st.edges + CisEdges(d, nodeId, nodeCount, pre)) + [e];
          st.edges + (CisEdges(d, nodeId, nodeCount, pre) + [e]);
        }
      } else {
        assert CisEdges(d, nodeId, nodeCount, types) == CisEdges(d, nodeId, nodeCount, pre) + [];
      }
    }
  }

  /** `solve_cis_delegation`: resolve the pending call, initial and sequence entries into `nodeId`. */
  function SolveCis(st: VState, nodeId: nat, nodeCount: nat, d: map<EdgeType, Delegation>): (r: VState)
    requires Valid(st) && nodeId < |st.nodes| && Refers(d, |st.nodes|)
    ensures Valid(r) && SameButEdges(st, r)
  {
    SolveCisOver(st, nodeId, nodeCount, d, CisOrder)
  }

  /**
   * `solve_ret_delegation`: a pending return entry becomes one `return` edge
   * from `nodeId` back to the entry's node, with the entry's stored count.
   */
  function SolveRet(st: VState, nodeId: nat, d: map<EdgeType, Delegation>): (r: VState)
    requires Valid(st) && nodeId < |st.nodes| && Refers(d, |st.nodes|)
    ensures Valid(r) && SameButEdges(st, r)
    ensures ReturnEdge !in d ==> r == st
    ensures st.kind != CombineKind && ReturnEdge in d ==>
      r.edges == st.edges + [GraphEdge(nodeId, d[ReturnEdge].node, Count(d[ReturnEdge].count), ReturnEdge)]
  {
    if ReturnEdge in d then
      AddEdge(st, nodeId, d[ReturnEdge].node, d[ReturnEdge].count, ReturnEdge)
    else st
  }

  /** `solve_delegation`. */
  function SolveDelegation(st: VState, nodeId: nat, nodeCount: nat, d: map<EdgeType, Delegation>): (r: VState)
    requires Valid(st) && nodeId < |st.nodes| && Refers(d, |st.nodes|)
    ensures Valid(r) && SameButEdges(st, r)
  {
    SolveRet(SolveCis(st, nodeId, nodeCount, d), nodeId, d)
  }

  /**
   * The assignment `nodes[i]['duration'] = duration` of `visit_mixed`: it sets
   * the outer key, not the inner node's duration that `to_dict` reads.
   */
  function SetDuration(st: VState, i: nat, duration: nat): (r: VState)
    requires Valid(st) && i < |st.nodes|
    ensures Valid(r) && SameButNodes(st, r) && r.context == st.context && r.nid == st.nid
    ensures |r.nodes| == |st.nodes| && r.nodes[i] == st.nodes[i].(outerDuration := Some(duration))
    ensures forall j :: 0 <= j < |st.nodes| && j != i ==> r.nodes[j] == st.nodes[j]
    ensures st.nodes[..i] == r.nodes[..i]
    ensures SumCounts(r.nodes) == SumCounts(st.nodes) && SumDurations(r.nodes) == SumDurations(st.nodes)
  {
    SumsUpdate(st.nodes, i, st.nodes[i].(outerDuration := Some(duration)));
    st.(nodes := st.nodes[i := st.nodes[i].(outerDuration := Some(duration))])
  }

  /**
   * `NoMatchVisitor.update_edges`: the count becomes `''` exactly on call and
   * return edges; the list keeps its length and every other edge.
   */
  function BlankCallReturn(es: seq<GraphEdge>): (r: seq<GraphEdge>)
    ensures |r| == |es|
    ensures forall j :: 0 <= j < |es| ==>
      r[j] == (if es[j].typ == CallEdge || es[j].typ == ReturnEdge then es[j].(count := Blank) else es[j])
  {
    if es == [] then []
    else
      var e := es[|es| - 1];
      BlankCallReturn(es[..|es| - 1]) + [if e.typ == CallEdge || e.typ == ReturnEdge then e.(count := Blank) else e]
  }

  /** `update_edges` as each class resolves it: only the no-match visitor blanks counts. */
  function UpdateEdgesOf(kind: Kind, es: seq<GraphEdge>): (r: seq<GraphEdge>)
    ensures kind != NoMatchKind ==> r == es
    ensures kind == NoMatchKind ==> r == BlankCallReturn(es)
  {
    if kind == NoMatchKind then BlankCallReturn(es) else es
  }

  /** `update_node`: `mean = duration / count` (true division); what it does to `info` is not modelled. */
  function WithMean(n: GraphNode): (r: GraphNode)
    requires n.count != 0
    ensures r.mean.Some? && r.mean.value * (n.count as real) == n.duration as real
    ensures r == n.(mean := r.mean)
  {
    n.(mean := Some(n.duration as real / n.count as real))
  }

  function Min(a: nat, b: nat): nat { if a <= b then a else b }
  function Max(a: nat, b: nat): nat { if a <= b then b else a }

  /**
   * `update_durations`, with the missing-key default for the minimum taken as
   * "no value yet" (see `UpdateDurationsAsWritten`).  Only entry `tid` is
   * touched; the maximum never decreases, the minimum never increases, the
   * new duration lies between them, and each bound is either the new duration
   * or the bound it replaces.
   */
  function UpdateDurations(minD: map<nat, nat>, maxD: map<nat, nat>, duration: nat, tid: nat): (r: (map<nat, nat>, map<nat, nat>))
    ensures r.0.Keys == minD.Keys + {tid} && r.1.Keys == maxD.Keys + {tid}
    ensures forall t :: t in minD && t != tid ==> r.0[t] == minD[t]
    ensures forall t :: t in maxD && t != tid ==> r.1[t] == maxD[t]
    ensures r.0[tid] <= duration <= r.1[tid]
    ensures tid in minD ==> r.0[tid] <= minD[tid]
    ensures tid in maxD ==> r.1[tid] >= maxD[tid]
    ensures r.0[tid] == duration || (tid in minD && r.0[tid] == minD[tid])
    ensures r.1[tid] == duration || (tid in maxD && r.1[tid] == maxD[tid])
  {
    var mx := Max(if tid in maxD then maxD[tid] else 0, duration);
    var mn := if tid in minD then Min(minD[tid], duration) else duration;
    (minD[tid := mn], maxD[tid := mx])
  }

  /** The `defaultdict(lambda: 1000^10)` default: `^` is exclusive or, not a power. */
  function AsWrittenMinDefault(): (r: nat)
    ensures r == 994
  {
    ((1000 as bv16) ^ (10 as bv16)) as nat
  }

  /** `update_durations` exactly as written, with the minimum defaulting to `1000^10`. */
  function UpdateDurationsAsWritten(minD: map<nat, nat>, maxD: map<nat, nat>, duration: nat, tid: nat): (r: (map<nat, nat>, map<nat, nat>))
    ensures tid in r.0 && r.0[tid] == Min(if tid in minD then minD[tid] else 994, duration)
    ensures r.1 == UpdateDurations(minD, maxD, duration, tid).1
  {
    var mx := Max(if tid in maxD then maxD[tid] else 0, duration);
    var mn := Min(if tid in minD then minD[tid] else AsWrittenMinDefault(), duration);
    (minD[tid := mn], maxD[tid := mx])
  }

  /**
   * The as-written minimum is not a minimum of the recorded durations: one
   * node of duration 1000 yields `min_duration == 994`, a duration no node has.
   */
  lemma {:induction false} AsWrittenMinNotAttained()
    ensures UpdateDurationsAsWritten(map[], map[], 1000, 0).0[0] == 994
    ensures UpdateDurations(map[], map[], 1000, 0).0[0] == 1000
  {
  }

  /** The duration loop of `to_dict` over a prefix of the node list. */
  function Extrema(ns: seq<GraphNode>, minD: map<nat, nat>, maxD: map<nat, nat>): (r: (map<nat, nat>, map<nat, nat>))
    ensures forall i :: 0 <= i < |ns| ==>
      ns[i].trialId in r.0 && ns[i].trialId in r.1 && r.0[ns[i].trialId] <= ns[i].duration <= r.1[ns[i].trialId]
    ensures minD.Keys <= r.0.Keys && maxD.Keys <= r.1.Keys
    decreases |ns|
  {
    if ns == [] then (minD, maxD)
    else
      var last := ns[|ns| - 1];
      var prev := Extrema(ns[..|ns| - 1], minD, maxD);
      assert forall i :: 0 <= i < |ns| - 1 ==> ns[i] == ns[..|ns| - 1][i];
      UpdateDurations(prev.0, prev.1, last.duration, last.trialId)
  }

  /** Spanning one more node widens the maps by that node's duration. */
  lemma {:induction false} ExtremaStep(ns: seq<GraphNode>, i: nat, minD: map<nat, nat>, maxD: map<nat, nat>)
    requires i < |ns|
    ensures var prev := Extrema(ns[..i], minD, maxD);
      Extrema(ns[..i + 1], minD, maxD) == UpdateDurations(prev.0, prev.1, ns[i].duration, ns[i].trialId)
  {
    assert ns[..i + 1][..i] == ns[..i];
  }

  /** Every bound recorded in `m` is the duration of some node of that trial in `ns`. */
  ghost predicate Attains(ns: seq<GraphNode>, m: map<nat, nat>)
  {
    forall t :: t in m ==> exists i :: 0 <= i < |ns| && ns[i].trialId == t && ns[i].duration == m[t]
  }

  lemma {:induction false} AttainsStep(ns: seq<GraphNode>, m: map<nat, nat>, m': map<nat, nat>)
    requires |ns| > 0 && Attains(ns[..|ns| - 1], m)
    requires forall t :: t in m' ==>
      (t == ns[|ns| - 1].trialId && m'[t] == ns[|ns| - 1].duration) || (t in m && m'[t] == m[t])
    ensures Attains(ns, m')
  {
    var init := ns[..|ns| - 1];
    forall t | t in m'
      ensures exists i :: 0 <= i < |ns| && ns[i].trialId == t && ns[i].duration == m'[t]
    {
      if !(t == ns[|ns| - 1].trialId && m'[t] == ns[|ns| - 1].duration) {
        var i :| 0 <= i < |init| && init[i].trialId == t && init[i].duration == m[t];
        assert ns[i] == init[i];
      }
    }
  }

  /** Each entry after one update is either the new duration or the entry it had before. */
  lemma {:induction false} UpdateDurationsShape(minD: map<nat, nat>, maxD: map<nat, nat>, n: GraphNode)
    ensures var r := UpdateDurations(minD, maxD, n.duration, n.trialId);
      && (forall t :: t in r.0 ==> (t == n.trialId && r.0[t] == n.duration) || (t in minD && r.0[t] == minD[t]))
      && (forall t :: t in r.1 ==> (t == n.trialId && r.1[t] == n.duration) || (t in maxD && r.1[t] == maxD[t]))
  {
  }

  /**
   * Starting from empty maps, the extrema are exact: every recorded bound is
   * the duration of some node of that trial.
   */
  lemma {:induction false} ExtremaAttained(ns: seq<GraphNode>)
    ensures Attains(ns, Extrema(ns, map[], map[]).0)
    ensures Attains(ns, Extrema(ns, map[], map[]).1)
    decreases |ns|
  {
    if ns != [] {
      var n := |ns| - 1;
      var init := ns[..n];
      ExtremaAttained(init);
      var prev := Extrema(init, map[], map[]);
      var r := UpdateDurations(prev.0, prev.1, ns[n].duration, ns[n].trialId);
      assert Extrema(ns, map[], map[]) == r;
      UpdateDurationsShape(prev.0, prev.1, ns[n]);
      AttainsStep(ns, prev.0, r.0);
      AttainsStep(ns, prev.1, r.1);
    }
  }

  /** The node list after `update_node` has run on every node. */
  function WithMeans(ns: seq<GraphNode>): (r: seq<GraphNode>)
    requires forall i :: 0 <= i < |ns| ==> ns[i].count != 0
    ensures |r| == |ns|
    ensures forall i :: 0 <= i < |ns| ==> r[i] == WithMean(ns[i])
  {
    seq(|ns|, i requires 0 <= i < |ns| => WithMean(ns[i]))
  }

  lemma {:induction false} WithMeansValid(st: VState)
    requires Valid(st)
    ensures Valid(st.(nodes := WithMeans(st.nodes)))
  {
    var ns := WithMeans(st.nodes);
    assert NodesIndexed(ns);
  }

  /**
   * `to_dict`: every node gets its mean, the per-trial extrema absorb every
   * node's duration, the visitor's `update_edges` runs, and the four parts
   * are returned.  Nothing divides by zero, since every node counts at least
   * one occurrence; the node and edge lists keep their lengths.
   */
  function Export(st: VState): (r: (VState, GraphDoc))
    requires Valid(st)
    ensures Valid(r.0) && r.0.kind == st.kind
    ensures r.1 == GraphDoc(r.0.nodes, r.0.edges, r.0.minDuration, r.0.maxDuration)
    ensures r.1.nodes == WithMeans(st.nodes)
    ensures (r.1.minDuration, r.1.maxDuration) == Extrema(st.nodes, st.minDuration, st.maxDuration)
    ensures r.1.edges == UpdateEdgesOf(st.kind, st.edges)
  {
    var ns := WithMeans(st.nodes);
    var ext := Extrema(st.nodes, st.minDuration, st.maxDuration);
    var es := UpdateEdgesOf(st.kind, st.edges);
    WithMeansValid(st);
    var st' := st.(nodes := ns, edges := es, minDuration := ext.0, maxDuration := ext.1);
    assert EdgesJoin(es, |ns|);
    (st', GraphDoc(ns, es, ext.0, ext.1))
  }

  /** The extrema read only each node's trial and inner duration. */
  lemma {:induction false} ExtremaReadsDurations(ns: seq<GraphNode>, ms: seq<GraphNode>, minD: map<nat, nat>, maxD: map<nat, nat>)
    requires |ns| == |ms| && forall i :: 0 <= i < |ns| ==> ns[i].duration == ms[i].duration && ns[i].trialId == ms[i].trialId
    ensures Extrema(ns, minD, maxD) == Extrema(ms, minD, maxD)
    decreases |ns|
  {
    if ns != [] {
      ExtremaReadsDurations(ns[..|ns| - 1], ms[..|ms| - 1], minD, maxD);
    }
  }

  /**
   * What `visit_mixed` writes into a node never reaches the document of
   * `to_dict`, whose means are `WithMeans` and whose extrema are `Extrema`
   * of the node list: both are those without the write.
   */
  lemma {:induction false} OuterDurationUnseen(ns: seq<GraphNode>, i: nat, duration: nat, minD: map<nat, nat>, maxD: map<nat, nat>)
    requires i < |ns| && forall j :: 0 <= j < |ns| ==> ns[j].count != 0
    ensures var ms := ns[i := ns[i].(outerDuration := Some(duration))];
      && Extrema(ms, minD, maxD) == Extrema(ns, minD, maxD)
      && forall j :: 0 <= j < |ns| ==> WithMeans(ms)[j].mean == WithMeans(ns)[j].mean
  {
    var ms := ns[i := ns[i].(outerDuration := Some(duration))];
    ExtremaReadsDurations(ns, ms, minD, maxD);
  }
}
