/**
 * The visitor objects of `trial_graph.py`, updated in place.  One class
 * stands for the three classes `TreeVisitor`, `NoMatchVisitor` and
 * `CombineVisitor`: its constant `kind` selects the methods each subclass
 * overrides.  Every method is proved to leave the object in the state the
 * matching function of `Graph` or `Walks` computes from the old state, so
 * the properties proved about those functions hold of the object.
 */
module Visitors {
  import opened Wrappers
  import opened Structures
  import opened Graph
  import Walks

  class Visitor {
    const kind: Kind
    var nodes: seq<GraphNode>
    var edges: seq<GraphEdge>
    var delegated: map<EdgeType, Delegation>
    var nid: nat
    var minDuration: map<nat, nat>
    var maxDuration: map<nat, nat>
    var context: map<string, nat>
    var contextEdges: map<EdgeKey, nat>
    var namestack: seq<string>

    /** The object's fields as one accumulator value. */
    function State(): VState
      reads this
    {
      VState(kind, nodes, edges, delegated, nid, minDuration, maxDuration, context, contextEdges, namestack)
    }

    ghost predicate Valid()
      reads this
    {
      Graph.Valid(State())
    }

    /** `__init__` of each visitor class. */
    constructor (kind: Kind)
      ensures State() == Init(kind) && Valid()
    {
      this.kind := kind;
      nodes := [];
      edges := [];
      delegated := map[InitialEdge := Delegation(0, 1)];
      nid := 0;
      minDuration := map[];
      maxDuration := map[];
      context := map[];
      contextEdges := map[];
      namestack := [];
    }

    /** `update_durations`: the maximum first, then the minimum. */
    method UpdateDurations(duration: nat, tid: nat)
      modifies this
      ensures (minDuration, maxDuration) == Graph.UpdateDurations(old(minDuration), old(maxDuration), duration, tid)
      ensures State() == old(State()).(minDuration := minDuration, maxDuration := maxDuration)
    {
      var mx := Max(if tid in maxDuration then maxDuration[tid] else 0, duration);
      maxDuration := maxDuration[tid := mx];
      var mn := if tid in minDuration then Min(minDuration[tid], duration) else duration;
      minDuration := minDuration[tid := mn];
    }

    /** `update_node`: the node's mean is its duration over its count. */
    method UpdateNode(i: nat)
      requires i < |nodes| && nodes[i].count != 0
      modifies this
      ensures State() == old(State()).(nodes := old(nodes)[i := WithMean(old(nodes)[i])])
    {
      nodes := nodes[i := WithMean(nodes[i])];
    }

    /** `update_edges` as each class resolves it: only the no-match visitor blanks call and return counts. */
    method UpdateEdges()
      modifies this
      ensures State() == old(State()).(edges := UpdateEdgesOf(kind, old(edges)))
    {
      if kind == NoMatchKind {
        var j := 0;
        while j < |edges|
          invariant 0 <= j <= |edges| == |old(edges)|
          invariant forall k :: 0 <= k < j ==>
            edges[k] == (if old(edges)[k].typ == CallEdge || old(edges)[k].typ == ReturnEdge
                         then old(edges)[k].(count := Blank) else old(edges)[k])
          invariant forall k :: j <= k < |edges| ==> edges[k] == old(edges)[k]
          invariant State() == old(State()).(edges := edges)
        {
          if edges[j].typ == CallEdge || edges[j].typ == ReturnEdge {
            edges := edges[j := edges[j].(count := Blank)];
          }
          j := j + 1;
        }
        assert edges == BlankCallReturn(old(edges));
      }
    }

    /** `to_dict`: means and duration extrema for every node in order, then `update_edges`. */
    method ToDict() returns (doc: GraphDoc)
      requires Valid()
      modifies this
      ensures (State(), doc) == Export(old(State()))
    {
      var i := 0;
      while i < |nodes|
        invariant ExportedUpTo(old(State()), i)
      {
        ExportNode(i, old(State()));
        i := i + 1;
      }
      assert old(nodes)[..i] == old(nodes);
      assert nodes == WithMeans(old(nodes));
      UpdateEdges();
      doc := GraphDoc(nodes, edges, minDuration, maxDuration);
    }

    /**
     * After the first `i` passes of the loop of `to_dict` over a visitor that
     * started as `st0`: those nodes carry their mean, the rest are untouched,
     * the duration maps span the first `i` nodes, and nothing else changed.
     */
    ghost predicate ExportedUpTo(st0: VState, i: nat)
      reads this
    {
      && i <= |nodes| == |st0.nodes|
      && (forall k :: 0 <= k < i ==> st0.nodes[k].count != 0 && nodes[k] == WithMean(st0.nodes[k]))
      && (forall k :: i <= k < |nodes| ==> nodes[k] == st0.nodes[k])
      && (minDuration, maxDuration) == Extrema(st0.nodes[..i], st0.minDuration, st0.maxDuration)
      && State() == st0.(nodes := nodes, minDuration := minDuration, maxDuration := maxDuration)
    }

    /** One pass of that loop: set node `i`'s mean and widen the duration maps by its duration. */
    method ExportNode(i: nat, ghost st0: VState)
      requires Graph.Valid(st0) && ExportedUpTo(st0, i) && i < |nodes|
      modifies this
      ensures ExportedUpTo(st0, i + 1)
    {
      var n := nodes[i];
      assert n == st0.nodes[i] && n.count != 0;
      UpdateNode(i);
      UpdateDurations(n.duration, n.trialId);
      ExtremaStep(st0.nodes, i, st0.minDuration, st0.maxDuration);
    }

    /** `TreeVisitor.add_node`: append the single's node and return the old `nid`. */
    method BaseAddNode(s: Tree) returns (id: nat)
      requires Valid() && s.Single? && s.count >= 1
      modifies this
      ensures (State(), id) == Graph.BaseAddNode(old(State()), s)
    {
      nodes := nodes + [NodeOf(s, nid)];
      id := nid;
      nid := nid + 1;
    }

    /** `CombineVisitor.namespace`. */
    function Namespace(): (r: string)
      reads this
      ensures r == JoinFront(namestack)
    {
      JoinAgrees(namestack);
      Join(namestack)
    }

    /** `CombineVisitor.update_namespace_node`. */
    method UpdateNamespaceNode(i: nat, s: Tree)
      requires Valid() && i < |nodes| && s.Single?
      modifies this
      ensures State() == Absorb(old(State()), i, s)
    {
      nodes := nodes[i := nodes[i].(count := nodes[i].count + s.count, duration := nodes[i].duration + s.duration)];
    }

    /** `add_node` as each class resolves it. */
    method AddNode(s: Tree) returns (id: nat)
      requires Valid() && s.Single? && s.count >= 1
      modifies this
      ensures (State(), id) == Graph.AddNode(old(State()), s)
    {
      if kind == CombineKind {
        namestack := namestack + [NameId(s)];
        var ns := Namespace();
        namestack := namestack[..|namestack| - 1];
        assert State() == old(State());
        if ns in context {
          var i := context[ns];
          UpdateNamespaceNode(i, s);
          id := nodes[i].index;
        } else {
          id := BaseAddNode(s);
          context := context[ns := |nodes| - 1];
        }
      } else {
        id := BaseAddNode(s);
      }
    }

    /** `TreeVisitor.add_edge`: append one edge. */
    method BaseAddEdge(source: nat, target: nat, count: nat, typ: EdgeType)
      modifies this
      ensures State() == Graph.BaseAddEdge(old(State()), source, target, count, typ)
    {
      edges := edges + [GraphEdge(source, target, Count(count), typ)];
    }

    /** `add_edge` as each class resolves it. */
    method AddEdge(source: nat, target: nat, count: nat, typ: EdgeType)
      requires Valid() && source < |nodes| && target < |nodes|
      modifies this
      ensures State() == Graph.AddEdge(old(State()), source, target, count, typ)
    {
      if kind == CombineKind {
        var key := EdgeKey(source, target, typ);
        if key !in contextEdges {
          BaseAddEdge(source, target, count, typ);
          contextEdges := contextEdges[key := |edges| - 1];
        } else {
          var j := contextEdges[key];
          edges := edges[j := edges[j].(count := Count(edges[j].count.n + count))];
        }
      } else {
        BaseAddEdge(source, target, count, typ);
      }
    }

    /** `NoMatchVisitor.use_delegated`. */
    method UseDelegated() returns (d: map<EdgeType, Delegation>)
      requires Valid()
      modifies this
      ensures (State(), d) == Graph.UseDelegated(old(State()))
    {
      d := delegated;
      delegated := map[];
    }

    /** `NoMatchVisitor.solve_cis_delegation`. */
    method SolveCisDelegation(nodeId: nat, nodeCount: nat, d: map<EdgeType, Delegation>)
      requires Valid() && nodeId < |nodes| && Refers(d, |nodes|)
      modifies this
      ensures State() == SolveCis(old(State()), nodeId, nodeCount, d)
    {
      var types := CisOrder;
      var i := 0;
      while i < |types|
        invariant 0 <= i <= |types|
        invariant State() == SolveCisOver(old(State()), nodeId, nodeCount, d, types[..i])
      {
        var typ := types[i];
        assert types[..i + 1][..i] == types[..i];
        if typ in d {
          AddEdge(d[typ].node, nodeId, nodeCount, typ);
        }
        i := i + 1;
      }
      assert types[..i] == CisOrder;
    }

    /** `NoMatchVisitor.solve_ret_delegation`. */
    method SolveRetDelegation(nodeId: nat, nodeCount: nat, d: map<EdgeType, Delegation>)
      requires Valid() && nodeId < |nodes| && Refers(d, |nodes|)
      modifies this
      ensures State() == SolveRet(old(State()), nodeId, d)
    {
      if ReturnEdge in d {
        var edge := d[ReturnEdge];
        AddEdge(nodeId, edge.node, edge.count, ReturnEdge);
      }
    }

    /** `NoMatchVisitor.solve_delegation`. */
    method SolveDelegation(nodeId: nat, nodeCount: nat, d: map<EdgeType, Delegation>)
      requires Valid() && nodeId < |nodes| && Refers(d, |nodes|)
      modifies this
      ensures State() == Graph.SolveDelegation(old(State()), nodeId, nodeCount, d)
    {
      SolveCisDelegation(nodeId, nodeCount, d);
      SolveRetDelegation(nodeId, nodeCount, d);
    }

    /** `TreeVisitor`: `element.visit(self)`. */
    method TreeVisit(t: Tree) returns (ids: seq<nat>)
      requires Valid() && kind == TreeKind && WellFormed(t)
      modifies this
      ensures (State(), ids) == Walks.TreeVisit(old(State()), t)
      decreases t, 2
    {
      match t
      case Single(_, _, _, _) => ids := TreeVisitSingle(t);
      case Group(_, _, _, _) => ids := TreeVisitGroup(t);
      case Call(_, _, _) => ids := TreeVisitCall(t);
      case Mixed(_, _, _, _) => ids := TreeVisitMixed(t);
      case Empty(_) => ids := [];
    }

    /** `TreeVisitor.visit_single`. */
    method TreeVisitSingle(t: Tree) returns (ids: seq<nat>)
      requires Valid() && kind == TreeKind && t.Single? && WellFormed(t)
      modifies this
      ensures (State(), ids) == Walks.TreeVisitSingle(old(State()), t)
    {
      var id := BaseAddNode(t);
      ids := [id];
    }

    /** `TreeVisitor.visit_call`. */
    method TreeVisitCall(t: Tree) returns (ids: seq<nat>)
      requires Valid() && kind == TreeKind && t.Call? && WellFormed(t)
      modifies this
      ensures (State(), ids) == Walks.TreeVisitCall(old(State()), t)
      decreases t, 1
    {
      assert WellFormed(t.caller);
      var callerId := BaseAddNode(t.caller);
      var callees := TreeVisit(t.called);
      ghost var visited := State();
      var pos := 1;
      var k := 0;
      while k < |callees|
        invariant 0 <= k <= |callees| && pos == k + 1
        invariant State() == Walks.CallEdges(visited, callerId, callees, k)
      {
        BaseAddEdge(callerId, callees[k], pos, CallEdge);
        pos := pos + 1;
        k := k + 1;
      }
      ids := [callerId];
    }

    /** `TreeVisitor.visit_group`. */
    method TreeVisitGroup(t: Tree) returns (ids: seq<nat>)
      requires Valid() && kind == TreeKind && t.Group? && WellFormed(t)
      modifies this
      ensures (State(), ids) == Walks.TreeVisitGroup(old(State()), t, |t.elements|)
      decreases t, 1
    {
      ids := [];
      var i := 0;
      while i < |t.elements|
        invariant 0 <= i <= |t.elements|
        invariant (State(), ids) == Walks.TreeVisitGroup(old(State()), t, i)
      {
        ids := TreeVisitElement(t, i, ids, old(State()));
        i := i + 1;
      }
    }

    /** One pass of that loop: unroll element `i` and append its ids. */
    method TreeVisitElement(t: Tree, i: nat, ids: seq<nat>, ghost st0: VState) returns (ids': seq<nat>)
      requires Graph.Valid(st0) && st0.kind == TreeKind && t.Group? && WellFormed(t) && i < |t.elements|
      requires (State(), ids) == Walks.TreeVisitGroup(st0, t, i)
      modifies this
      ensures (State(), ids') == Walks.TreeVisitGroup(st0, t, i + 1)
      decreases t, 0
    {
      var more := TreeVisit(t.elements[i]);
      ids' := ids + more;
    }

    /** `TreeVisitor.visit_mixed`. */
    method TreeVisitMixed(t: Tree) returns (ids: seq<nat>)
      requires Valid() && kind == TreeKind && t.Mixed? && WellFormed(t)
      modifies this
      ensures (State(), ids) == Walks.TreeVisitMixed(old(State()), t)
      decreases t, 1
    {
      ids := TreeVisit(t.first);
      nodes := nodes[ids[0] := nodes[ids[0]].(outerDuration := Some(t.duration))];
    }

    /** `element.visit(self)` for the no-match and combining visitors. */
    method Visit(t: Tree) returns (id: nat, node: Tree)
      requires Valid() && kind != TreeKind && WellFormed(t)
      modifies this
      ensures (State(), id, node) == Walks.Visit(old(State()), t)
      decreases t, 3
    {
      match t
      case Single(_, _, _, _) => id, node := VisitSingle(t);
      case Group(_, _, _, _) => id, node := VisitGroup(t);
      case Call(_, _, _) => id, node := VisitCall(t);
      case Mixed(_, _, _, _) => id, node := VisitMixed(t);
      case Empty(_) => id, node := 0, t;
    }

    /** `NoMatchVisitor.visit_single`. */
    method VisitSingle(t: Tree) returns (id: nat, node: Tree)
      requires Valid() && kind != TreeKind && t.Single? && WellFormed(t)
      modifies this
      ensures (State(), id, node) == Walks.VisitSingle(old(State()), t)
    {
      var d := UseDelegated();
      id := AddNode(t);
      Walks.PendingRefers(d, |old(nodes)|, |nodes|);
      if d != map[] {
        SolveDelegation(id, t.count, d);
      }
      node := t;
    }

    /** `NoMatchVisitor.visit_call`. */
    method NoMatchVisitCall(t: Tree) returns (id: nat, node: Tree)
      requires Valid() && kind != TreeKind && t.Call? && WellFormed(t)
      modifies this
      ensures (State(), id, node) == Walks.NoMatchVisitCall(old(State()), t)
      decreases t, 1
    {
      var callerId := EnterCall(t);
      var _, _ := Visit(t.called);
      id, node := callerId, t;
    }

    /** The caller's part of `NoMatchVisitor.visit_call`, before the callee is visited. */
    method EnterCall(t: Tree) returns (callerId: nat)
      requires Valid() && kind != TreeKind && t.Call? && WellFormed(t)
      modifies this
      ensures (State(), callerId) == Walks.EnterCall(old(State()), t)
    {
      assert WellFormed(t.caller);
      var d := UseDelegated();
      callerId := AddNode(t.caller);
      Walks.PendingRefers(d, |old(nodes)|, |nodes|);
      if d != map[] {
        SolveDelegation(callerId, 0, d);
      }
      delegated := delegated[CallEdge := Delegation(callerId, 1)];
      delegated := delegated[ReturnEdge := Delegation(callerId, 1)];
    }

    /** `visit_call` as each class resolves it. */
    method VisitCall(t: Tree) returns (id: nat, node: Tree)
      requires Valid() && kind != TreeKind && t.Call? && WellFormed(t)
      modifies this
      ensures (State(), id, node) == Walks.VisitCall(old(State()), t)
      decreases t, 2
    {
      if kind == CombineKind {
        namestack := namestack + [NameId(t.caller)];
        id, node := NoMatchVisitCall(t);
        namestack := namestack[..|namestack| - 1];
      } else {
        id, node := NoMatchVisitCall(t);
      }
    }

    /** `NoMatchVisitor.visit_group`. */
    method VisitGroup(t: Tree) returns (id: nat, node: Tree)
      requires Valid() && kind != TreeKind && t.Group? && WellFormed(t)
      modifies this
      ensures (State(), id, node) == Walks.VisitGroup(old(State()), t)
      decreases t, 2
    {
      var es := t.elements;
      var d := UseDelegated();
      var nodeMap := VisitElements(t);
      Walks.PendingRefers(d, |old(nodes)|, |nodes|);
      CloseGroup(t, nodeMap, d);
      id, node := nodeMap[es[0]], es[0];
    }

    /** The first loop of `NoMatchVisitor.visit_group`: each element's id under the element it returns. */
    method VisitElements(t: Tree) returns (nodeMap: map<Tree, nat>)
      requires Valid() && kind != TreeKind && t.Group? && WellFormed(t)
      modifies this
      ensures (State(), nodeMap) == Walks.VisitElements(old(State()), t, |t.elements|)
      decreases t, 1
    {
      nodeMap := map[];
      var i := 0;
      while i < |t.elements|
        invariant 0 <= i <= |t.elements|
        invariant (State(), nodeMap) == Walks.VisitElements(old(State()), t, i)
      {
        nodeMap := VisitElement(t, i, nodeMap, old(State()));
        i := i + 1;
      }
    }

    /** One pass of that loop: visit element `i` and record its id. */
    method VisitElement(t: Tree, i: nat, nodeMap: map<Tree, nat>, ghost st0: VState) returns (nodeMap': map<Tree, nat>)
      requires Graph.Valid(st0) && st0.kind != TreeKind && t.Group? && WellFormed(t) && i < |t.elements|
      requires (State(), nodeMap) == Walks.VisitElements(st0, t, i)
      modifies this
      ensures (State(), nodeMap') == Walks.VisitElements(st0, t, i + 1)
      decreases t, 0
    {
      var elementId, element := Visit(t.elements[i]);
      nodeMap' := nodeMap[element := elementId];
    }

    /** The rest of `NoMatchVisitor.visit_group`: the group's delegations, then its transitions as `sequence` edges. */
    method CloseGroup(t: Tree, nodeMap: map<Tree, nat>, d: map<EdgeType, Delegation>)
      requires Valid() && t.Group? && WellFormed(t) && Refers(d, |nodes|)
      requires forall k :: 0 <= k < |t.elements| ==> t.elements[k] in nodeMap
      requires forall e :: e in nodeMap ==> nodeMap[e] < |nodes|
      modifies this
      ensures State() == Walks.CloseGroup(old(State()), t, nodeMap, d)
    {
      var es := t.elements;
      SolveCisDelegation(nodeMap[es[0]], t.count, d);
      SolveRetDelegation(nodeMap[es[|es| - 1]], t.count, d);
      var trs := t.transitions;
      assert forall j :: 0 <= j < |trs| ==> trs[j].previous in nodeMap && trs[j].next in nodeMap;
      AddSequenceEdges(nodeMap, trs);
    }

    /** The second loop of `NoMatchVisitor.visit_group`: one `sequence` edge per transition, in order. */
    method AddSequenceEdges(nodeMap: map<Tree, nat>, trs: seq<Transition>)
      requires Valid() && forall j :: 0 <= j < |trs| ==> trs[j].previous in nodeMap && trs[j].next in nodeMap
      requires forall e :: e in nodeMap ==> nodeMap[e] < |nodes|
      modifies this
      ensures State() == Walks.SequenceEdges(old(State()), nodeMap, trs, |trs|)
    {
      var j := 0;
      while j < |trs|
        invariant 0 <= j <= |trs|
        invariant State() == Walks.SequenceEdges(old(State()), nodeMap, trs, j)
      {
        AddEdge(nodeMap[trs[j].previous], nodeMap[trs[j].next], trs[j].count, SequenceEdge);
        j := j + 1;
      }
    }

    /** `visit_mixed` as each class resolves it. */
    method VisitMixed(t: Tree) returns (id: nat, node: Tree)
      requires Valid() && kind != TreeKind && t.Mixed? && WellFormed(t)
      modifies this
      ensures (State(), id, node) == Walks.VisitMixed(old(State()), t)
      decreases t, 2
    {
      if kind == CombineKind {
        id, node := VisitAll(t);
      } else {
        id, node := Visit(t.first);
        nodes := nodes[id := nodes[id].(outerDuration := Some(t.duration))];
      }
    }

    /** `CombineVisitor.visit_mixed`: every element is visited and the last result kept. */
    method VisitAll(t: Tree) returns (id: nat, node: Tree)
      requires Valid() && kind != TreeKind && t.Mixed? && WellFormed(t)
      modifies this
      ensures (State(), id, node) == Walks.VisitAll(old(State()), t, |t.elements|)
      decreases t, 1
    {
      id, node := 0, t;
      var i := 0;
      while i < |t.elements|
        invariant 0 <= i <= |t.elements|
        invariant (State(), id, node) == Walks.VisitAll(old(State()), t, i)
      {
        id, node := VisitAllElement(t, i, old(State()));
        i := i + 1;
      }
    }

    /** One pass of that loop: visit element `i`, keeping what it returns. */
    method VisitAllElement(t: Tree, i: nat, ghost st0: VState) returns (id: nat, node: Tree)
      requires Graph.Valid(st0) && st0.kind != TreeKind && t.Mixed? && WellFormed(t) && i < |t.elements|
      requires State() == Walks.VisitAll(st0, t, i).0
      modifies this
      ensures (State(), id, node) == Walks.VisitAll(st0, t, i + 1)
      decreases t, 0
    {
      id, node := Visit(t.elements[i]);
    }
  }
}
