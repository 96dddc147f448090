/**
 * The recursive visits of `trial_graph.py` as functions from an accumulator
 * state to the next one.  `TreeVisit` is the unrolling `TreeVisitor`; `Visit`
 * is shared by `NoMatchVisitor` and `CombineVisitor`, which differ only where
 * the combining visitor overrides `add_node`, `add_edge`, `visit_call` and
 * `visit_mixed` (the accumulator's `kind` selects the override).  The
 * functions over a group's elements are left folds over a prefix, in the
 * order the source's loops run.
 */
module Walks {
  import opened Wrappers
  import opened Structures
  import opened Graph

  /** The number of elements a group or mixed node iterates over. */
  function Width(t: Tree): nat
  {
    if t.Group? || t.Mixed? then |t.elements| else 0
  }

  /**
   * The number of singles a visitor of the given kind offers to `add_node`
   * while visiting `t`: the unrolling and no-match visitors look only at a
   * mixed node's `first`, the combining visitor at all of its elements.
   */
  function Size(kind: Kind, t: Tree): nat
    decreases t, Width(t) + 1
  {
    match t
    case Single(_, _, _, _) => 1
    case Group(es, _, _, _) => SizeAll(kind, t, |es|)
    case Call(_, called, _) => 1 + Size(kind, called)
    case Mixed(es, first, _, _) => if kind == CombineKind then SizeAll(kind, t, |es|) else Size(kind, first)
    case Empty(_) => 0
  }

  function SizeAll(kind: Kind, t: Tree, n: nat): nat
    requires (t.Group? || t.Mixed?) && n <= |t.elements|
    decreases t, n
  {
    if n == 0 then 0 else SizeAll(kind, t, n - 1) + Size(kind, t.elements[n - 1])
  }

  /** Strictly increasing ids, each in `[lo, hi)`. */
  ghost predicate FreshIds(ids: seq<nat>, lo: nat, hi: nat)
  {
    && (forall k :: 0 <= k < |ids| ==> lo <= ids[k] < hi)
    && (forall i, j :: 0 <= i < j < |ids| ==> ids[i] < ids[j])
  }

  /** Every edge from position `from` on is a `call` edge from an earlier node to a later one among `[lo, hi)`. */
  ghost predicate CallEdgesWithin(es: seq<GraphEdge>, from: nat, lo: nat, hi: nat)
  {
    forall j :: from <= j < |es| ==> es[j].typ == CallEdge && lo <= es[j].source < es[j].target < hi
  }

  /**
   * What an unrolling visit does, given how many singles it offers: the nodes and edges already emitted stay as they were,
   * exactly `size` nodes are appended, every new edge is a `call` edge from a
   * caller to a node emitted after it, and the returned ids are fresh,
   * increasing and start at the old `nid`.  The pending map and the duration
   * maps are untouched.
   */
  ghost predicate Unrolls(st: VState, r: (VState, seq<nat>), size: nat)
  {
    && Valid(r.0) && r.0.kind == st.kind && r.0.delegated == st.delegated
    && r.0.minDuration == st.minDuration && r.0.maxDuration == st.maxDuration
    && st.nodes <= r.0.nodes && |r.0.nodes| == |st.nodes| + size
    && st.edges <= r.0.edges && CallEdgesWithin(r.0.edges, |st.edges|, st.nid, r.0.nid)
    && FreshIds(r.1, st.nid, r.0.nid)
    && (r.1 != [] ==> r.1[0] == st.nid)
  }

  /** An unrolling visit of `t`; a single or a call returns exactly one id and only an empty tree returns none. */
  ghost predicate Unrolled(st: VState, t: Tree, r: (VState, seq<nat>))
  {
    && Unrolls(st, r, Size(TreeKind, t))
    && (t.Empty? <==> r.1 == [])
    && ((t.Single? || t.Call?) ==> |r.1| == 1)
  }

  lemma {:induction false} FreshIdsConcat(a: seq<nat>, b: seq<nat>, lo: nat, mid: nat, hi: nat)
    requires FreshIds(a, lo, mid) && FreshIds(b, mid, hi) && lo <= mid <= hi
    ensures FreshIds(a + b, lo, hi)
  {
    var c := a + b;
    forall k | 0 <= k < |c|
      ensures lo <= c[k] < hi
    {
      if k < |a| { assert c[k] == a[k]; } else { assert c[k] == b[k - |a|]; }
    }
    forall i, j | 0 <= i < j < |c|
      ensures c[i] < c[j]
    {
      if j < |a| {
        assert c[i] == a[i] && c[j] == a[j];
      } else if i < |a| {
        assert c[i] == a[i] && c[j] == b[j - |a|];
      } else {
        assert c[i] == b[i - |a|] && c[j] == b[j - |a|];
      }
    }
  }

  lemma {:induction false} CallEdgesWithinTrans(es1: seq<GraphEdge>, es2: seq<GraphEdge>, from: nat, lo: nat, hi: nat)
    requires es1 <= es2 && from <= |es1|
    requires CallEdgesWithin(es1, from, lo, hi) && CallEdgesWithin(es2, |es1|, lo, hi)
    ensures CallEdgesWithin(es2, from, lo, hi)
  {
    forall j | from <= j < |es2|
      ensures es2[j].typ == CallEdge && lo <= es2[j].source < es2[j].target < hi
    {
      if j < |es1| {
        assert es2[j] == es1[j];
      }
    }
  }

  lemma {:induction false} CallEdgesWithinWiden(es: seq<GraphEdge>, from: nat, lo: nat, hi: nat, lo': nat, hi': nat)
    requires CallEdgesWithin(es, from, lo, hi) && lo' <= lo && hi <= hi'
    ensures CallEdgesWithin(es, from, lo', hi')
  {
  }

  /** Two unrolling steps in a row make one, with sizes and weights added and id lists concatenated. */
  lemma {:induction false} UnrollsTrans(st: VState, r1: (VState, seq<nat>), r2: (VState, seq<nat>), s1: nat, s2: nat)
    requires Valid(st) && Unrolls(st, r1, s1) && Unrolls(r1.0, r2, s2)
    requires r1.1 == [] ==> r2.1 != [] ==> r1.0.nid == st.nid
    ensures Unrolls(st, (r2.0, r1.1 + r2.1), s1 + s2)
  {
    FreshIdsConcat(r1.1, r2.1, st.nid, r1.0.nid, r2.0.nid);
    CallEdgesWithinWiden(r1.0.edges, |st.edges|, st.nid, r1.0.nid, st.nid, r2.0.nid);
    CallEdgesWithinWiden(r2.0.edges, |r1.0.edges|, r1.0.nid, r2.0.nid, st.nid, r2.0.nid);
    CallEdgesWithinTrans(r1.0.edges, r2.0.edges, |st.edges|, st.nid, r2.0.nid);
  }

  /** `TreeVisitor`: `element.visit(self)`, dispatched on the element's class. */
  function TreeVisit(st: VState, t: Tree): (r: (VState, seq<nat>))
    requires Valid(st) && st.kind == TreeKind && WellFormed(t)
    ensures Unrolled(st, t, r)
    decreases t, Width(t) + 2
  {
    match t
    case Single(_, _, _, _) => TreeVisitSingle(st, t)
    case Group(_, _, _, _) => TreeVisitGroup(st, t, |t.elements|)
    case Call(_, _, _) => TreeVisitCall(st, t)
    case Mixed(_, _, _, _) => TreeVisitMixed(st, t)
    case Empty(_) => (st, [])
  }

  /** `TreeVisitor.visit_single`: one node, whose id is returned. */
  function TreeVisitSingle(st: VState, t: Tree): (r: (VState, seq<nat>))
    requires Valid(st) && st.kind == TreeKind && t.Single? && WellFormed(t)
    ensures Unrolled(st, t, r)
    ensures r.0.nodes == st.nodes + [NodeOf(t, st.nid)] && r.0.edges == st.edges && r.1 == [st.nid]
  {
    var (st1, id) := BaseAddNode(st, t);
    (st1, [id])
  }

  /**
   * The loop of `TreeVisitor.visit_call` over a prefix of the callee ids:
   * the `k`-th callee receives a `call` edge from the caller with count `k`.
   */
  function CallEdges(st: VState, callerId: nat, callees: seq<nat>, n: nat): (r: VState)
    requires Valid(st) && st.kind == TreeKind && callerId < |st.nodes| && n <= |callees|
    requires forall k :: 0 <= k < |callees| ==> callees[k] < |st.nodes|
    ensures Valid(r) && SameButEdges(st, r)
    ensures |r.edges| == |st.edges| + n && st.edges <= r.edges
    ensures forall k :: 0 <= k < n ==> r.edges[|st.edges| + k] == GraphEdge(callerId, callees[k], Count(k + 1), CallEdge)
    decreases n
  {
    if n == 0 then st
    else
      var st1 := CallEdges(st, callerId, callees, n - 1);
      BaseAddEdge(st1, callerId, callees[n - 1], n, CallEdge)
  }

  /**
   * `TreeVisitor.visit_call`: the caller's node first, then the callee's
   * nodes, then one `call` edge to each id the callee returned; only the
   * caller's id is returned.
   */
  function TreeVisitCall(st: VState, t: Tree): (r: (VState, seq<nat>))
    requires Valid(st) && st.kind == TreeKind && t.Call? && WellFormed(t)
    ensures Unrolled(st, t, r)
    ensures r.1 == [st.nid]
    decreases t, 1
  {
    assert WellFormed(t.caller);
    var (st1, callerId) := BaseAddNode(st, t.caller);
    var (st2, callees) := TreeVisit(st1, t.called);
    var st3 := CallEdges(st2, callerId, callees, |callees|);
    assert CallEdgesWithin(st3.edges, |st2.edges|, st.nid, st3.nid) by {
      forall j | |st2.edges| <= j < |st3.edges|
        ensures st3.edges[j].typ == CallEdge && st.nid <= st3.edges[j].source < st3.edges[j].target < st3.nid
      {
        var k := j - |st2.edges|;
        assert st3.edges[|st2.edges| + k] == GraphEdge(callerId, callees[k], Count(k + 1), CallEdge);
        assert st1.nid <= callees[k] < st2.nid;
      }
    }
    CallEdgesWithinWiden(st2.edges, |st.edges|, st1.nid, st2.nid, st.nid, st3.nid);
    CallEdgesWithinTrans(st2.edges, st3.edges, |st.edges|, st.nid, st3.nid);
    (st3, [callerId])
  }

  /**
   * What `TreeVisitor.visit_call` emits: the caller's node sits at the old
   * `nid`, the callee's nodes follow it, and the `k`-th id the callee returned
   * receives a `call` edge from the caller with count `k`, in order, after the
   * callee's own edges.
   */
  lemma {:induction false} TreeVisitCallEmits(st: VState, t: Tree)
    requires Valid(st) && st.kind == TreeKind && t.Call? && WellFormed(t) && WellFormed(t.caller)
    ensures var r := TreeVisitCall(st, t);
      var inner := TreeVisit(BaseAddNode(st, t.caller).0, t.called);
      && r.0.nodes[st.nid] == NodeOf(t.caller, st.nid)
      && r.0.nodes == inner.0.nodes
      && |r.0.edges| == |inner.0.edges| + |inner.1|
      && inner.0.edges <= r.0.edges
      && forall k :: 0 <= k < |inner.1| ==>
           r.0.edges[|inner.0.edges| + k] == GraphEdge(st.nid, inner.1[k], Count(k + 1), CallEdge)
  {
    var (st1, callerId) := BaseAddNode(st, t.caller);
    var (st2, callees) := TreeVisit(st1, t.called);
    var st3 := CallEdges(st2, callerId, callees, |callees|);
    assert TreeVisitCall(st, t) == (st3, [callerId]);
    assert st1.nodes <= st2.nodes && st2.nodes[st.nid] == st1.nodes[st.nid];
  }

  /** The loop of `TreeVisitor.visit_group` over the first `n` elements: the id lists are concatenated. */
  function TreeVisitGroup(st: VState, t: Tree, n: nat): (r: (VState, seq<nat>))
    requires Valid(st) && st.kind == TreeKind && t.Group? && WellFormed(t) && n <= |t.elements|
    ensures |r.1| == n
    ensures Unrolls(st, r, SizeAll(TreeKind, t, n))
    decreases t, n
  {
    if n == 0 then (st, [])
    else
      var (st1, ids) := TreeVisitGroup(st, t, n - 1);
      var e := t.elements[n - 1];
      var (st2, more) := TreeVisit(st1, e);
      UnrollsTrans(st, (st1, ids), (st2, more), SizeAll(TreeKind, t, n - 1), Size(TreeKind, e));
      (st2, ids + more)
  }

  /**
   * `TreeVisitor.visit_mixed`: the representative `first` is unrolled and
   * its first node's outer `duration` key takes the mixed node's duration.
   */
  function TreeVisitMixed(st: VState, t: Tree): (r: (VState, seq<nat>))
    requires Valid(st) && st.kind == TreeKind && t.Mixed? && WellFormed(t)
    ensures Unrolled(st, t, r)
    ensures r.0.nodes[st.nid].outerDuration == Some(t.duration)
    decreases t, 1
  {
    var (st1, ids) := TreeVisit(st, t.first);
    (SetDuration(st1, ids[0], t.duration), ids)
  }

  /** What a visit leaves alone: the kind, the name stack and the duration maps; nodes are never removed. */
  ghost predicate Keeps(a: VState, b: VState)
  {
    && a.kind == b.kind && a.namestack == b.namestack
    && a.minDuration == b.minDuration && a.maxDuration == b.maxDuration
    && |a.nodes| <= |b.nodes|
  }

  /**
   * Node growth for a visit that offers `size` singles to `add_node`: the
   * no-match visitor appends one node for each, the combining visitor at
   * most one (a namespace seen before appends none).
   */
  ghost predicate Grows(a: VState, b: VState, size: nat)
  {
    && (a.kind == NoMatchKind ==> |b.nodes| == |a.nodes| + size)
    && (a.kind == CombineKind ==> |b.nodes| <= |a.nodes| + size)
  }

  /**
   * What a delegating visit of `t` does: the state stays valid, an empty
   * tree changes nothing, any other tree consumes every pending edge and
   * returns the id of an emitted node, and a single or a call returns itself
   * as the node its parent group keys the id by.
   */
  ghost predicate Visited(st: VState, t: Tree, r: (VState, nat, Tree))
  {
    && Valid(r.0) && Keeps(st, r.0) && Grows(st, r.0, Size(st.kind, t))
    && (t.Empty? ==> r.0 == st)
    && (!t.Empty? ==> r.1 < |r.0.nodes| && r.0.delegated == map[])
    && ((t.Single? || t.Call?) ==> r.2 == t)
  }

  /** A pending map recorded before some node was emitted refers to emitted nodes once one is. */
  lemma {:induction false} PendingRefers(d: map<EdgeType, Delegation>, n: nat, m: nat)
    requires Pending(d, n) && n <= m && 1 <= m
    ensures Refers(d, m)
  {
  }

  /** `element.visit(self)` for the no-match and combining visitors. */
  function Visit(st: VState, t: Tree): (r: (VState, nat, Tree))
    requires Valid(st) && st.kind != TreeKind && WellFormed(t)
    ensures Visited(st, t, r)
    decreases t, Width(t) + 3
  {
    match t
    case Single(_, _, _, _) => VisitSingle(st, t)
    case Group(_, _, _, _) => VisitGroup(st, t)
    case Call(_, _, _) => VisitCall(st, t)
    case Mixed(_, _, _, _) => VisitMixed(st, t)
    case Empty(_) => (st, 0, t)
  }

  /** `if delegated: self.solve_delegation(node_id, node_count, delegated)`. */
  function Resolve(st: VState, nodeId: nat, nodeCount: nat, d: map<EdgeType, Delegation>): (r: VState)
    requires Valid(st) && nodeId < |st.nodes| && Refers(d, |st.nodes|)
    ensures Valid(r) && SameButEdges(st, r)
    ensures d == map[] ==> r == st
  {
    if d != map[] then SolveDelegation(st, nodeId, nodeCount, d) else st
  }

  /**
   * `NoMatchVisitor.visit_single`: take the pending map, add the node, and
   * resolve the pending entries into it with the single's count.
   */
  function VisitSingle(st: VState, t: Tree): (r: (VState, nat, Tree))
    requires Valid(st) && st.kind != TreeKind && t.Single? && WellFormed(t)
    ensures Visited(st, t, r)
    ensures var (st1, d) := UseDelegated(st);
      var (st2, id) := AddNode(st1, t);
      r.1 == id && r.0.nodes == st2.nodes
  {
    var (st1, d) := UseDelegated(st);
    var (st2, id) := AddNode(st1, t);
    PendingRefers(d, |st.nodes|, |st2.nodes|);
    (Resolve(st2, id, t.count, d), id, t)
  }

  /** The pending `call` and `return` entries from an emitted caller refer to it. */
  lemma {:induction false} PendingCall(id: nat, n: nat)
    requires id < n
    ensures Pending(map[CallEdge := Delegation(id, 1), ReturnEdge := Delegation(id, 1)], n)
  {
  }

  /**
   * The part of `NoMatchVisitor.visit_call` before the callee is visited:
   * take the pending map, add the caller's node, resolve the pending entries
   * into it with count 0, and leave exactly a pending `call` and a pending
   * `return` entry from the caller with count 1.
   */
  function EnterCall(st: VState, t: Tree): (r: (VState, nat))
    requires Valid(st) && st.kind != TreeKind && t.Call? && WellFormed(t)
    ensures Valid(r.0) && Keeps(st, r.0) && Grows(st, r.0, 1)
    ensures r.1 < |r.0.nodes|
    ensures r.0.delegated == map[CallEdge := Delegation(r.1, 1), ReturnEdge := Delegation(r.1, 1)]
  {
    assert WellFormed(t.caller);
    var (st1, d) := UseDelegated(st);
    var (st2, id) := AddNode(st1, t.caller);
    PendingRefers(d, |st.nodes|, |st2.nodes|);
    var st3 := Resolve(st2, id, 0, d);
    var pending := map[CallEdge := Delegation(id, 1), ReturnEdge := Delegation(id, 1)];
    PendingCall(id, |st3.nodes|);
    ValidDelegated(st3, pending);
    (st3.(delegated := pending), id)
  }

  /** `NoMatchVisitor.visit_call`: the callee consumes the pending call and return entries. */
  function NoMatchVisitCall(st: VState, t: Tree): (r: (VState, nat, Tree))
    requires Valid(st) && st.kind != TreeKind && t.Call? && WellFormed(t)
    ensures Visited(st, t, r)
    ensures r.1 == EnterCall(st, t).1
    decreases t, 1
  {
    var (st1, id) := EnterCall(st, t);
    var r := Visit(st1, t.called);
    (r.0, id, t)
  }

  /**
   * `visit_call` as each class resolves it: the combining visitor pushes the
   * caller's name around the no-match visit and pops it afterwards.
   */
  function VisitCall(st: VState, t: Tree): (r: (VState, nat, Tree))
    requires Valid(st) && st.kind != TreeKind && t.Call? && WellFormed(t)
    ensures Visited(st, t, r)
    decreases t, 2
  {
    if st.kind == CombineKind then
      var pushed := st.(namestack := st.namestack + [NameId(t.caller)]);
      var r := NoMatchVisitCall(pushed, t);
      (r.0.(namestack := r.0.namestack[..|r.0.namestack| - 1]), r.1, r.2)
    else
      NoMatchVisitCall(st, t)
  }

  /** The loop of `NoMatchVisitor.visit_group` over the first `n` elements, filling `node_map`. */
  function VisitElements(st: VState, t: Tree, n: nat): (r: (VState, map<Tree, nat>))
    requires Valid(st) && st.kind != TreeKind && t.Group? && WellFormed(t) && n <= |t.elements|
    ensures Valid(r.0) && Keeps(st, r.0) && Grows(st, r.0, SizeAll(st.kind, t, n))
    ensures n == 0 ==> r.0 == st && r.1 == map[]
    ensures n > 0 ==> r.0.delegated == map[]
    ensures forall k :: 0 <= k < n ==> t.elements[k] in r.1
    ensures forall e :: e in r.1 ==> r.1[e] < |r.0.nodes|
    decreases t, n
  {
    if n == 0 then (st, map[])
    else
      var (st1, m) := VisitElements(st, t, n - 1);
      var e := t.elements[n - 1];
      var (st2, id, node) := Visit(st1, e);
      (st2, m[node := id])
  }

  /**
   * The loop of `NoMatchVisitor.visit_group` over the group's transition
   * counter: one `sequence` edge per consecutive pair, with the pair's count.
   */
  function SequenceEdges(st: VState, m: map<Tree, nat>, trs: seq<Transition>, n: nat): (r: VState)
    requires Valid(st) && n <= |trs|
    requires forall j :: 0 <= j < |trs| ==> trs[j].previous in m && trs[j].next in m
    requires forall e :: e in m ==> m[e] < |st.nodes|
    ensures Valid(r) && SameButEdges(st, r)
    decreases n
  {
    if n == 0 then st
    else
      var st1 := SequenceEdges(st, m, trs, n - 1);
      AddEdge(st1, m[trs[n - 1].previous], m[trs[n - 1].next], trs[n - 1].count, SequenceEdge)
  }

  /**
   * `NoMatchVisitor.visit_group`: the elements are visited with nothing
   * pending, the group's pending call, initial and sequence entries are
   * resolved into its first element with the group's count, its pending
   * return entry into its last element, and the transitions become
   * `sequence` edges; the first element's id and the element are returned.
   */
  function VisitGroup(st: VState, t: Tree): (r: (VState, nat, Tree))
    requires Valid(st) && st.kind != TreeKind && t.Group? && WellFormed(t)
    ensures Visited(st, t, r)
    ensures r.2 == t.elements[0]
    decreases t, Width(t) + 2
  {
    var es := t.elements;
    var (st1, d) := UseDelegated(st);
    var (st2, m) := VisitElements(st1, t, |es|);
    PendingRefers(d, |st.nodes|, |st2.nodes|);
    (CloseGroup(st2, t, m, d), m[es[0]], es[0])
  }

  /** The edges `NoMatchVisitor.visit_group` adds once its elements are visited. */
  function CloseGroup(st: VState, t: Tree, m: map<Tree, nat>, d: map<EdgeType, Delegation>): (r: VState)
    requires Valid(st) && t.Group? && WellFormed(t) && Refers(d, |st.nodes|)
    requires forall k :: 0 <= k < |t.elements| ==> t.elements[k] in m
    requires forall e :: e in m ==> m[e] < |st.nodes|
    ensures Valid(r) && SameButEdges(st, r)
  {
    var es := t.elements;
    var st1 := SolveCis(st, m[es[0]], t.count, d);
    var st2 := SolveRet(st1, m[es[|es| - 1]], d);
    SequenceEdges(st2, m, t.transitions, |t.transitions|)
  }

  /** The `sequence` edges of the first `n` transitions: from the node of `previous` to that of `next`, with the pair's count. */
  function SequenceEdgeList(m: map<Tree, nat>, trs: seq<Transition>, n: nat): (r: seq<GraphEdge>)
    requires n <= |trs| && forall j :: 0 <= j < |trs| ==> trs[j].previous in m && trs[j].next in m
    ensures |r| == n
  {
    seq(n, j requires 0 <= j < n => GraphEdge(m[trs[j].previous], m[trs[j].next], Count(trs[j].count), SequenceEdge))
  }

  /** The `return` edge `solve_ret_delegation` adds from `nodeId`, if a return is pending. */
  function RetEdges(d: map<EdgeType, Delegation>, nodeId: nat): (r: seq<GraphEdge>)
    ensures ReturnEdge in d <==> |r| == 1
    ensures ReturnEdge !in d ==> r == []
  {
    if ReturnEdge in d then [GraphEdge(nodeId, d[ReturnEdge].node, Count(d[ReturnEdge].count), ReturnEdge)] else []
  }

  /** A non-merging visitor appends one `sequence` edge per transition, in the counter's order. */
  lemma {:induction false} SequenceEdgesOver(st: VState, m: map<Tree, nat>, trs: seq<Transition>, n: nat)
    requires Valid(st) && n <= |trs| && st.kind != CombineKind
    requires forall j :: 0 <= j < |trs| ==> trs[j].previous in m && trs[j].next in m
    requires forall e :: e in m ==> m[e] < |st.nodes|
    ensures SequenceEdges(st, m, trs, n).edges == st.edges + SequenceEdgeList(m, trs, n)
    decreases n
  {
    if n > 0 {
      SequenceEdgesOver(st, m, trs, n - 1);
      var e := GraphEdge(m[trs[n - 1].previous], m[trs[n - 1].next], Count(trs[n - 1].count), SequenceEdge);
      assert SequenceEdgeList(m, trs, n) == SequenceEdgeList(m, trs, n - 1) + [e];
      ConcatAssoc(st.edges, SequenceEdgeList(m, trs, n - 1), [e]);
    }
  }

  /**
   * The edges a non-merging visitor adds when it closes a group: the pending
   * call, initial and sequence entries into the first element's node with the
   * group's count, the pending return from the last element's node, then the
   * `sequence` edges of the transitions.
   */
  lemma {:induction false} CloseGroupEdges(st: VState, t: Tree, m: map<Tree, nat>, d: map<EdgeType, Delegation>)
    requires Valid(st) && t.Group? && WellFormed(t) && Refers(d, |st.nodes|) && st.kind != CombineKind
    requires forall k :: 0 <= k < |t.elements| ==> t.elements[k] in m
    requires forall e :: e in m ==> m[e] < |st.nodes|
    ensures var es := t.elements;
      CloseGroup(st, t, m, d).edges == st.edges + CisEdges(d, m[es[0]], t.count, CisOrder)
        + RetEdges(d, m[es[|es| - 1]]) + SequenceEdgeList(m, t.transitions, |t.transitions|)
  {
    var es := t.elements;
    assert WellFormed(t);
    SolveCisOverEdges(st, m[es[0]], t.count, d, CisOrder);
    var st1 := SolveCis(st, m[es[0]], t.count, d);
    var st2 := SolveRet(st1, m[es[|es| - 1]], d);
    assert st2.edges == st1.edges + RetEdges(d, m[es[|es| - 1]]);
    SequenceEdgesOver(st2, m, t.transitions, |t.transitions|);
  }

  /**
   * `NoMatchVisitor.visit_group` returns the node-map entry of the group's
   * first element, and a non-merging visitor's edges after it are those of
   * the visited elements followed by those that close the group.
   */
  lemma {:induction false} VisitGroupEdges(st: VState, t: Tree)
    requires Valid(st) && st.kind != TreeKind && t.Group? && WellFormed(t)
    ensures var es := t.elements;
      var d := st.delegated;
      var (st2, m) := VisitElements(UseDelegated(st).0, t, |es|);
      var r := VisitGroup(st, t);
      && es[0] in m && r.1 == m[es[0]] && r.2 == es[0]
      && (st.kind != CombineKind ==>
            r.0.edges == st2.edges + CisEdges(d, m[es[0]], t.count, CisOrder)
              + RetEdges(d, m[es[|es| - 1]]) + SequenceEdgeList(m, t.transitions, |t.transitions|))
  {
    var es := t.elements;
    var (st1, d) := UseDelegated(st);
    var (st2, m) := VisitElements(st1, t, |es|);
    PendingRefers(d, |st.nodes|, |st2.nodes|);
    assert VisitGroup(st, t) == (CloseGroup(st2, t, m, d), m[es[0]], es[0]);
    if st.kind != CombineKind {
      CloseGroupEdges(st2, t, m, d);
    }
  }

  /** The loop of `CombineVisitor.visit_mixed` over the first `n` elements; the last visit's result is kept. */
  function VisitAll(st: VState, t: Tree, n: nat): (r: (VState, nat, Tree))
    requires Valid(st) && st.kind != TreeKind && t.Mixed? && WellFormed(t) && n <= |t.elements|
    ensures Valid(r.0) && Keeps(st, r.0) && Grows(st, r.0, SizeAll(st.kind, t, n))
    ensures n == 0 ==> r.0 == st
    ensures n > 0 ==> r.1 < |r.0.nodes| && r.0.delegated == map[]
    decreases t, n
  {
    if n == 0 then (st, 0, t)
    else
      var r := VisitAll(st, t, n - 1);
      Visit(r.0, t.elements[n - 1])
  }

  /**
   * `visit_mixed` as each class resolves it: the no-match visitor visits the
   * representative `first` and writes the mixed node's duration into its node's outer key; the
   * combining visitor visits every element and returns the last result.
   */
  function VisitMixed(st: VState, t: Tree): (r: (VState, nat, Tree))
    requires Valid(st) && st.kind != TreeKind && t.Mixed? && WellFormed(t)
    ensures Visited(st, t, r)
    ensures st.kind != CombineKind ==> r.0.nodes[r.1].outerDuration == Some(t.duration)
    decreases t, Width(t) + 2
  {
    if st.kind == CombineKind then VisitAll(st, t, |t.elements|)
    else
      var (st1, id, node) := Visit(st, t.first);
      (SetDuration(st1, id, t.duration), id, node)
  }
}
