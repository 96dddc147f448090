# noworkflow trial graphs, modelled in Dafny

This project models the activation-graph engine of noWorkflow
(`capture/noworkflow/now/graphs/trial_graph.py`). Its two halves are:

- **The tree builder.** `generate_graph`, `list_to_call` and `sequence`
  turn the start-ordered activations of one trial into a nested tree of
  `Single`, `Group`, `Call` and `Mixed` elements. The builder keeps a stack
  of sibling lists, one per nesting level, and a level map. An activation's
  level is its parent's level plus one.
- **The visitors.** `TreeVisitor`, `NoMatchVisitor` and `CombineVisitor`
  walk that tree and accumulate the exported graph: a node list, an edge
  list, the id counter `nid`, and the per-trial minimum and maximum
  durations.
  - The no-match visitor also keeps a map of pending ("delegated") edges,
    which the next visited node consumes.
  - The combining visitor merges nodes by a namespace built from a name
    stack. It merges edges by the key `source target type`.
  - `TrialGraph` computes the tree of one trial once, keeps it, and exports
    the three views from it.

Modules:

- `Wrappers`: `Option` and `Result`.
- `Structures`: the tree elements. `capture/noworkflow/now/graphs/structures.py` is not part of this model. The elements are defined here from the way `trial_graph.py` uses them. `Group.add_subelement` is taken to put the previous element in front, so a group keeps the source order.
- `Graph`: the accumulator state `VState` together with the pure operations on it:
  - `add_node` and `add_edge` of each visitor;
  - delegation;
  - `update_edges`, `update_durations` and `update_node`;
  - the export of `to_dict`.
- `Walks`: the recursive visits as functions on `VState`. They are the specification the visitor methods meet.
- `Visitors`: the visitor as a class whose fields the methods update in place. The three Python classes are one Dafny class with a constant `kind`. Every method ensures that the new state, together with what it returns, is the matching `Graph` or `Walks` function of the old state.
- `Builder`: `sequence`, `list_to_call` and `generate_graph`. There is a specification function for each, and methods with the loops of `generate_graph`.
- `TrialGraphs`: the `TrialGraph` class and its cache.

## Model

| member | source | states |
|---|---|---|
| Structures.FromActivation | capture/noworkflow/now/graphs/trial_graph.py:288 | `Single(act)` wraps the activation itself, counts one occurrence and sits at the level given |
| Graph.Init | capture/noworkflow/now/graphs/trial_graph.py:19-28 | a fresh visitor has no nodes and no edges, `nid` is 0, the only pending edge is `initial` from node 0 with count 1, and every visitor invariant holds |
| Graph.BaseAddNode | capture/noworkflow/now/graphs/trial_graph.py:56-60 | the returned id is the old `nid`, `nid` grows by exactly one, exactly one node is appended and its index is that id; nothing else changes |
| Graph.NamespaceExtends | capture/noworkflow/now/graphs/trial_graph.py:218-229 | the namespace `add_node` files a single under is its own name at the top level, and otherwise the namespace of the enclosing callers, a space and its name |
| Graph.JoinAgrees | capture/noworkflow/now/graphs/trial_graph.py:218-219 | the join the model uses is `' '.join`: the first name, and then each further name after a single space |
| Graph.Absorb | capture/noworkflow/now/graphs/trial_graph.py:221-224 | `update_namespace_node` adds the single's count and duration to node `i` and to the totals; no node is added and no other node changes |
| Graph.Register | capture/noworkflow/now/graphs/trial_graph.py:234-239 | a new namespace gets a node appended under the old `nid`, and the namespace index maps it to that node |
| Graph.CombineAddNode | capture/noworkflow/now/graphs/trial_graph.py:226-239 | a namespace seen before returns its stored index and absorbs the single into that node without growing `nodes`; a new namespace is registered; the name stack is the same afterwards; count and duration totals grow by the single's |
| Graph.AddNode | capture/noworkflow/now/graphs/trial_graph.py:56-60 | the dispatch of `add_node` by visitor: the returned id is the index of a node that exists, and the node count total grows by the single's count |
| Graph.BaseAddEdge | capture/noworkflow/now/graphs/trial_graph.py:62-68 | exactly one edge with the given source, target, count and type is appended; nothing else changes |
| Graph.Accumulate | capture/noworkflow/now/graphs/trial_graph.py:249-251 | an edge key seen before adds `count` to the stored edge, keeps its key, and changes neither the edge list's length nor any other edge |
| Graph.RegisterEdge | capture/noworkflow/now/graphs/trial_graph.py:245-248 | a new edge key appends exactly one edge and indexes the key to it |
| Graph.CombineAddEdge | capture/noworkflow/now/graphs/trial_graph.py:241-251 | a known `source target type` key accumulates, an unknown one registers, and both keep the invariants |
| Graph.AddEdge | capture/noworkflow/now/graphs/trial_graph.py:62-68 | the dispatch of `add_edge` by visitor keeps the invariants, including that every edge joins emitted nodes |
| Graph.UseDelegated | capture/noworkflow/now/graphs/trial_graph.py:103-106 | returns the pending map as it was and leaves it empty, changing nothing else |
| Graph.Present | capture/noworkflow/now/graphs/trial_graph.py:114-115 | the types kept are among those looked for and present in the map, and every type looked for that is present is kept |
| Graph.PresentCis | capture/noworkflow/now/graphs/trial_graph.py:112-115 | the types `solve_cis_delegation` acts on are exactly those of `call`, `initial` and `sequence` that are pending, in that order |
| Graph.CisEdges | capture/noworkflow/now/graphs/trial_graph.py:112-117 | one edge per present type among `call`, `initial`, `sequence`, in that order: from the pending node to `node_id`, with count `node_count` and that type |
| Graph.SolveCisOverEdges | capture/noworkflow/now/graphs/trial_graph.py:112-117 | for the visitors that do not merge edges, `solve_cis_delegation` appends exactly those edges |
| Graph.SolveCis | capture/noworkflow/now/graphs/trial_graph.py:112-117 | solving `call`, `initial` and `sequence` delegation changes only the edges and keeps the invariants |
| Graph.SolveRet | capture/noworkflow/now/graphs/trial_graph.py:119-122 | with no pending `return` nothing changes; otherwise one `return` edge is added from `node_id` to the pending node, with the stored count |
| Graph.SolveDelegation | capture/noworkflow/now/graphs/trial_graph.py:108-110 | solving both kinds of delegation changes only the edges and keeps the invariants |
| Graph.SetDuration | capture/noworkflow/now/graphs/trial_graph.py:92 | `self.nodes[i]['duration'] = d` sets the outer `duration` key of node i to d. The inner node that `to_dict` reads keeps its duration, count and mean, no other node changes, and the count and duration totals are unchanged |
| Graph.BlankCallReturn | capture/noworkflow/now/graphs/trial_graph.py:98-101 | the edge list keeps its length; exactly the `call` and `return` edges have their count blanked and every other edge is unchanged |
| Graph.UpdateEdgesOf | capture/noworkflow/now/graphs/trial_graph.py:53-54 | only the no-match visitor blanks edges; the tree and combining visitors leave them as they are |
| Graph.WithMean | capture/noworkflow/now/graphs/trial_graph.py:35 | for a node with a non-zero count, the mean times the count is the duration; no other field changes |
| Graph.WithMeans | capture/noworkflow/now/graphs/trial_graph.py:40-42 | `to_dict` sets the mean of every node, in place and in order |
| Graph.WithMeansValid | capture/noworkflow/now/graphs/trial_graph.py:40-42 | setting the means keeps the visitor invariants |
| Graph.UpdateDurations | capture/noworkflow/now/graphs/trial_graph.py:30-32 | `update_durations` with the minimum's default corrected to the duration itself: only entry `tid` changes; the maximum never decreases and the minimum never increases; afterwards `min ≤ duration ≤ max`; each bound is either the new duration or the bound it replaces |
| Graph.AsWrittenMinDefault | capture/noworkflow/now/graphs/trial_graph.py:26 | the default minimum `1000^10` is 994, because `^` is exclusive or |
| Graph.UpdateDurationsAsWritten | capture/noworkflow/now/graphs/trial_graph.py:26-32 | as written, a new trial's minimum is the smaller of 994 and the duration; the maximum behaves as in `UpdateDurations` |
| Graph.AsWrittenMinNotAttained | capture/noworkflow/now/graphs/trial_graph.py:26-32 | for one node of duration 1000, the as-written minimum is 994, a value no node has; the corrected minimum is 1000 |
| Graph.Extrema | capture/noworkflow/now/graphs/trial_graph.py:39-43 | after the loop of `to_dict`, each node's duration lies between its trial's minimum and maximum |
| Graph.ExtremaStep | capture/noworkflow/now/graphs/trial_graph.py:39-43 | one more turn of the loop of `to_dict` applies `update_durations` to the next node's duration and trial |
| Graph.UpdateDurationsShape | capture/noworkflow/now/graphs/trial_graph.py:30-32 | every bound after one update is either the new node's duration for its trial, or a bound that was already there |
| Graph.AttainsStep | capture/noworkflow/now/graphs/trial_graph.py:39-43 | bounds attained by the first nodes stay attained once one more node is folded in |
| Graph.ExtremaAttained | capture/noworkflow/now/graphs/trial_graph.py:39-43 | every minimum and every maximum `to_dict` reports is the duration of some node of that trial |
| Graph.ExtremaReadsDurations | capture/noworkflow/now/graphs/trial_graph.py:39-43 | the extrema `to_dict` reports depend only on each node's inner duration and trial |
| Graph.OuterDurationUnseen | capture/noworkflow/now/graphs/trial_graph.py:39-43 | what line 92 writes, a node's outer `duration` key changes neither the extrema nor any mean that `to_dict` computes |
| Graph.Export | capture/noworkflow/now/graphs/trial_graph.py:39-51 | with the corrected minimum, the exported document holds the nodes with their means set, the edges as `update_edges` leaves them, and the extrema over all nodes |
| Graph.SumsAppend | capture/noworkflow/now/graphs/trial_graph.py:56-60 | appending a node adds its count and duration to the totals |
| Graph.SumsUpdate | capture/noworkflow/now/graphs/trial_graph.py:221-224 | replacing a node changes the totals by the difference between the new and old node's count and duration |
| Walks.TreeVisit | capture/noworkflow/now/graphs/trial_graph.py:70-93 | an unrolling visit: earlier nodes and edges are kept, one node is added per single in the tree, the returned ids are fresh and increasing from the old `nid`, every new edge is a `call` edge from a node to a later one, the pending map and durations are untouched, an empty tree returns no id, and a single or call returns exactly one |
| Walks.TreeVisitSingle | capture/noworkflow/now/graphs/trial_graph.py:86-87 | a single adds its own node under the old `nid`, adds no edge, and returns that id alone |
| Walks.CallEdges | capture/noworkflow/now/graphs/trial_graph.py:74-77 | the k-th callee id gets a `call` edge from the caller with count k, in order, after the existing edges |
| Walks.TreeVisitCall | capture/noworkflow/now/graphs/trial_graph.py:70-78 | a call returns exactly the caller's id, which is the old `nid` |
| Walks.TreeVisitCallEmits | capture/noworkflow/now/graphs/trial_graph.py:70-78 | the caller is added first; after the callee's nodes and edges comes one `call` edge to each id the callee returns, with counts 1 to k in order |
| Walks.TreeVisitGroup | capture/noworkflow/now/graphs/trial_graph.py:80-84 | a group returns one id per element, fresh and increasing, and adds the nodes of all its elements |
| Walks.TreeVisitMixed | capture/noworkflow/now/graphs/trial_graph.py:89-93 | a mixed element visits its first element like any tree, and the outer `duration` key of the first node then emitted becomes the mixed element's duration |
| Walks.Visit | capture/noworkflow/now/graphs/trial_graph.py:124-169 | a delegating visit keeps the invariants and the name stack. It adds one node per single for the no-match visitor and at most one for the combining visitor. An empty tree changes nothing. Any other tree consumes every pending edge and returns the id of an emitted node. A single or call returns itself as the key its group uses |
| Walks.Resolve | capture/noworkflow/now/graphs/trial_graph.py:161-162 | a delegation left empty changes nothing; any other changes only the edges |
| Walks.VisitSingle | capture/noworkflow/now/graphs/trial_graph.py:156-163 | `visit_single` takes the pending map, adds the single's node and returns its id; afterwards no edge is pending |
| Walks.EnterCall | capture/noworkflow/now/graphs/trial_graph.py:125-133 | just before the callee is visited, exactly `call` and `return` are pending, both from the caller's node with count 1 |
| Walks.NoMatchVisitCall | capture/noworkflow/now/graphs/trial_graph.py:124-136 | a call returns the caller's node id and itself |
| Walks.VisitCall | capture/noworkflow/now/graphs/trial_graph.py:253-257 | the combining visitor's `visit_call` restores the name stack, together with everything `Visit` promises |
| Walks.VisitElements | capture/noworkflow/now/graphs/trial_graph.py:141-144 | every element of the group gets an entry in the node map, naming an emitted node |
| Walks.SequenceEdges | capture/noworkflow/now/graphs/trial_graph.py:149-152 | the `sequence` edges of the group's transitions change only the edges and keep the invariants |
| Walks.VisitGroup | capture/noworkflow/now/graphs/trial_graph.py:138-154 | a group returns the id of its first element's node, and that element as its key |
| Walks.SequenceEdgesOver | capture/noworkflow/now/graphs/trial_graph.py:149-152 | for the visitors that do not merge edges, the loop over the transitions appends, in order, one `sequence` edge per transition, between the nodes of its two elements, with its count |
| Walks.CloseGroupEdges | capture/noworkflow/now/graphs/trial_graph.py:146-152 | for those visitors, closing a group appends the `call`, `initial` and `sequence` edges of the taken delegation into the first element's node, with the group's count, then the `return` edge out of the last element's node, then the `sequence` edges |
| Walks.VisitGroupEdges | capture/noworkflow/now/graphs/trial_graph.py:138-154 | for the no-match visitor, `visit_group` returns the node of the first element and that element; its edges are those the element visits add, followed by exactly the edges `CloseGroupEdges` lists |
| Walks.CloseGroup | capture/noworkflow/now/graphs/trial_graph.py:146-152 | the delegation and sequence edges that close a group change only the edges |
| Walks.VisitAll | capture/noworkflow/now/graphs/trial_graph.py:260-263 | the combining visitor visits every element of a mixed element in order; with elements, it returns an emitted node and leaves nothing pending |
| Walks.VisitMixed | capture/noworkflow/now/graphs/trial_graph.py:165-169 | the no-match visitor visits the first element, and the outer `duration` key of the node it returns becomes the mixed element's duration |
| Visitors.Visitor.constructor | capture/noworkflow/now/graphs/trial_graph.py:19-28 | a fresh visitor of each kind is in the state `Init` gives |
| Visitors.Visitor.UpdateDurations | capture/noworkflow/now/graphs/trial_graph.py:30-32 | the duration maps become those of `Graph.UpdateDurations`, with its corrected minimum; no other field changes |
| Visitors.Visitor.UpdateNode | capture/noworkflow/now/graphs/trial_graph.py:34-37 | node `i` gets its mean and no other field changes |
| Visitors.Visitor.UpdateEdges | capture/noworkflow/now/graphs/trial_graph.py:98-101 | the edge list becomes the one `UpdateEdgesOf` gives for the visitor's kind |
| Visitors.Visitor.ToDict | capture/noworkflow/now/graphs/trial_graph.py:39-51 | the loop over the nodes, then `update_edges`, leaves the state and returns the document that `Export` specifies, with the corrected minimum |
| Visitors.Visitor.ExportNode | capture/noworkflow/now/graphs/trial_graph.py:40-43 | one turn of the loop of `to_dict` sets the next node's mean and folds its duration into the minimum and maximum of its trial |
| Visitors.Visitor.BaseAddNode | capture/noworkflow/now/graphs/trial_graph.py:56-60 | the state and the returned id are those of `Graph.BaseAddNode` |
| Visitors.Visitor.Namespace | capture/noworkflow/now/graphs/trial_graph.py:218-219 | the namespace is the name stack joined with single spaces |
| Visitors.Visitor.UpdateNamespaceNode | capture/noworkflow/now/graphs/trial_graph.py:221-224 | the state becomes that of `Graph.Absorb` |
| Visitors.Visitor.AddNode | capture/noworkflow/now/graphs/trial_graph.py:226-239 | the state and the returned id are those of `Graph.AddNode` for the visitor's kind |
| Visitors.Visitor.BaseAddEdge | capture/noworkflow/now/graphs/trial_graph.py:62-68 | the state becomes that of `Graph.BaseAddEdge` |
| Visitors.Visitor.AddEdge | capture/noworkflow/now/graphs/trial_graph.py:241-251 | the state becomes that of `Graph.AddEdge` for the visitor's kind |
| Visitors.Visitor.UseDelegated | capture/noworkflow/now/graphs/trial_graph.py:103-106 | the state and the returned map are those of `Graph.UseDelegated` |
| Visitors.Visitor.SolveCisDelegation | capture/noworkflow/now/graphs/trial_graph.py:112-117 | the state becomes that of `Graph.SolveCis` |
| Visitors.Visitor.SolveRetDelegation | capture/noworkflow/now/graphs/trial_graph.py:119-122 | the state becomes that of `Graph.SolveRet` |
| Visitors.Visitor.SolveDelegation | capture/noworkflow/now/graphs/trial_graph.py:108-110 | the state becomes that of `Graph.SolveDelegation` |
| Visitors.Visitor.TreeVisit | capture/noworkflow/now/graphs/trial_graph.py:70-93 | the unrolling visit's new state and its ids are those of `Walks.TreeVisit` |
| Visitors.Visitor.TreeVisitSingle | capture/noworkflow/now/graphs/trial_graph.py:86-87 | the new state and the ids are those of `Walks.TreeVisitSingle` |
| Visitors.Visitor.TreeVisitCall | capture/noworkflow/now/graphs/trial_graph.py:70-78 | the loop over the callee ids meets `Walks.TreeVisitCall` |
| Visitors.Visitor.TreeVisitGroup | capture/noworkflow/now/graphs/trial_graph.py:80-84 | the loop over the elements meets `Walks.TreeVisitGroup` |
| Visitors.Visitor.TreeVisitElement | capture/noworkflow/now/graphs/trial_graph.py:82-83 | one turn of that loop visits the next element and appends its ids, as `Walks.TreeVisitGroup` of one more element says |
| Visitors.Visitor.TreeVisitMixed | capture/noworkflow/now/graphs/trial_graph.py:89-93 | the new state and the ids are those of `Walks.TreeVisitMixed` |
| Visitors.Visitor.Visit | capture/noworkflow/now/graphs/trial_graph.py:124-169 | the delegating visit's new state and its results are those of `Walks.Visit` |
| Visitors.Visitor.VisitSingle | capture/noworkflow/now/graphs/trial_graph.py:156-163 | the new state and the results are those of `Walks.VisitSingle` |
| Visitors.Visitor.NoMatchVisitCall | capture/noworkflow/now/graphs/trial_graph.py:124-136 | the new state and the results are those of `Walks.NoMatchVisitCall` |
| Visitors.Visitor.EnterCall | capture/noworkflow/now/graphs/trial_graph.py:125-133 | the state and the caller id before the callee is visited are those of `Walks.EnterCall` |
| Visitors.Visitor.VisitCall | capture/noworkflow/now/graphs/trial_graph.py:253-257 | the new state and the results are those of `Walks.VisitCall` |
| Visitors.Visitor.VisitGroup | capture/noworkflow/now/graphs/trial_graph.py:138-154 | the new state and the results are those of `Walks.VisitGroup` |
| Visitors.Visitor.VisitElements | capture/noworkflow/now/graphs/trial_graph.py:141-144 | the loop that fills the node map meets `Walks.VisitElements` |
| Visitors.Visitor.VisitElement | capture/noworkflow/now/graphs/trial_graph.py:142-144 | one turn of that loop extends the node map by one element |
| Visitors.Visitor.CloseGroup | capture/noworkflow/now/graphs/trial_graph.py:146-152 | the nested loop over the transitions meets `Walks.CloseGroup` |
| Visitors.Visitor.AddSequenceEdges | capture/noworkflow/now/graphs/trial_graph.py:149-152 | the loop over the transitions adds the `sequence` edges `Walks.SequenceEdges` gives |
| Visitors.Visitor.VisitMixed | capture/noworkflow/now/graphs/trial_graph.py:165-169 | the new state and the results are those of `Walks.VisitMixed` |
| Visitors.Visitor.VisitAll | capture/noworkflow/now/graphs/trial_graph.py:259-263 | the loop over the mixed element's elements meets `Walks.VisitAll` |
| Visitors.Visitor.VisitAllElement | capture/noworkflow/now/graphs/trial_graph.py:262-263 | one turn of that loop visits the next element, as `Walks.VisitAll` of one more element says |
| Builder.BumpCounts | capture/noworkflow/now/graphs/trial_graph.py:268 | recording one transition raises the count of that pair by one and leaves every other pair's count as it was |
| Builder.BumpBetween | capture/noworkflow/now/graphs/trial_graph.py:268 | transitions stay among the group's elements when the new pair is among them |
| Builder.PrependBetween | capture/noworkflow/now/graphs/trial_graph.py:268 | prepending an element keeps every transition among the elements |
| Builder.Sequence | capture/noworkflow/now/graphs/trial_graph.py:266-270 | `sequence(previous, next)` is a group whose elements are `previous` followed by `next`'s elements (or `next` itself); it keeps `next`'s level and count |
| Builder.SequenceCounts | capture/noworkflow/now/graphs/trial_graph.py:266-270 | `sequence` counts one more transition from `previous` to the head of `next` and leaves every other pair's count as it was |
| Builder.SequenceBetween | capture/noworkflow/now/graphs/trial_graph.py:266-270 | every transition the new group records joins two of its elements, provided those of `next` did |
| Builder.Fold | capture/noworkflow/now/graphs/trial_graph.py:274-278 | folding a list right to left gives its only element, or a group of exactly those elements in order, at the last one's level, counted once |
| Builder.FoldTransitions | capture/noworkflow/now/graphs/trial_graph.py:274-278 | the transitions of a folded list are those the successive `sequence` calls record, innermost first |
| Builder.FoldTrsCounts | capture/noworkflow/now/graphs/trial_graph.py:274-278 | those recorded transitions count, for every pair, how often the first element is immediately followed by the second |
| Builder.FoldCounts | capture/noworkflow/now/graphs/trial_graph.py:274-278 | the counter of a folded list holds, for every pair, the number of adjacent occurrences of that pair in the list |
| Builder.FoldBetween | capture/noworkflow/now/graphs/trial_graph.py:274-278 | every transition of a folded list joins two of its elements |
| Builder.FoldList | capture/noworkflow/now/graphs/trial_graph.py:274-278 | the inner loop of `list_to_call`, which pops elements from the back and folds each into the next, meets `Fold` |
| Builder.Relevel | capture/noworkflow/now/graphs/trial_graph.py:282 | the element gets the level given |
| Builder.Append | capture/noworkflow/now/graphs/trial_graph.py:303 | the single joins the top list and every other list stays as it was |
| Builder.CloseCall | capture/noworkflow/now/graphs/trial_graph.py:280-283 | the call wraps the caller, at the caller's level, and its called part is one level deeper |
| Builder.CloseTop | capture/noworkflow/now/graphs/trial_graph.py:273-283 | `list_to_call` fails with an index error exactly when there is no list under the top list or one of the two is empty. Otherwise the stack shrinks by one, the lists below are unchanged, and the new top list keeps its length, with its last element replaced by the call of that caller |
| Builder.Place | capture/noworkflow/now/graphs/trial_graph.py:300-312 | a placed single ends the top list of a well-stacked result |
| Builder.PlaceOnce | capture/noworkflow/now/graphs/trial_graph.py:300-312 | the same holds for the as-written placement, which closes one list only |
| Builder.PlaceBy | capture/noworkflow/now/graphs/trial_graph.py:300-312 | the placement of either version ends the top list of a well-stacked result with the single |
| Builder.ParentLevel | capture/noworkflow/now/graphs/trial_graph.py:299 | the level lookup succeeds exactly when the parent is recorded, and then gives the parent's level plus one |
| Builder.LevelMap | capture/noworkflow/now/graphs/trial_graph.py:292-299 | the first activation has level 0 and every later one that is placed has level at least 1 |
| Builder.Scan | capture/noworkflow/now/graphs/trial_graph.py:292-312 | after n activations the stack is well stacked and every list is non-empty; it ends with the n-th activation at its level |
| Builder.CloseAll | capture/noworkflow/now/graphs/trial_graph.py:314-315 | the final loop cannot fail and ends with exactly one list |
| Builder.Finish | capture/noworkflow/now/graphs/trial_graph.py:314-317 | `generate_graph` returns a tree exactly when the loop succeeded |
| Builder.Build | capture/noworkflow/now/graphs/trial_graph.py:286-317 | an empty trace gives an empty element at level 0; any other trace builds exactly when every activation was placed |
| Builder.BuildAsWritten | capture/noworkflow/now/graphs/trial_graph.py:290 | as written, an empty trace raises a name error |
| Builder.FlattenStackSnoc | capture/noworkflow/now/graphs/trial_graph.py:306 | the activations of a stack read list by list, with one more list on top, end with that list's |
| Builder.ShapedTop | capture/noworkflow/now/graphs/trial_graph.py:283 | replacing the top list with one at the right depth keeps the stack's shape |
| Builder.ShapedPush | capture/noworkflow/now/graphs/trial_graph.py:306 | pushing a one-level-deeper single onto a stack whose top ends in a single keeps the stack's shape |
| Builder.ShapedPop | capture/noworkflow/now/graphs/trial_graph.py:274 | dropping the top list keeps the shape of the rest |
| Builder.LevelIsDepth | capture/noworkflow/now/graphs/trial_graph.py:282-283 | an element at depth d has level d, so giving it level d changes nothing |
| Builder.FoldNests | capture/noworkflow/now/graphs/trial_graph.py:274-278 | the folded list nests at the depth of its elements and keeps their activations in order |
| Builder.CloseTopValue | capture/noworkflow/now/graphs/trial_graph.py:273-283 | the stack `list_to_call` leaves: the lists below, then the list under the top with its last element replaced by the call |
| Builder.CallNests | capture/noworkflow/now/graphs/trial_graph.py:280-283 | the call of a well-shaped stack nests at the caller's depth, and its activations are the caller's followed by those of the closed list |
| Builder.CloseTopShaped | capture/noworkflow/now/graphs/trial_graph.py:273-283 | closing the top of a well-shaped stack succeeds and keeps the shape; the new last element is a call at the new top depth |
| Builder.FlattenStackLast | capture/noworkflow/now/graphs/trial_graph.py:283 | the activations of a stack whose top list ends in a given element are read up to it, then from it |
| Builder.CloseTopOrder | capture/noworkflow/now/graphs/trial_graph.py:273-283 | `list_to_call` keeps the activations of the stack and their order |
| Builder.AppendNests | capture/noworkflow/now/graphs/trial_graph.py:303 | adding a sibling keeps the shape and puts its activation last |
| Builder.PushNests | capture/noworkflow/now/graphs/trial_graph.py:306 | opening a deeper list keeps the shape and puts the activation last |
| Builder.ShapedAbove | capture/noworkflow/now/graphs/trial_graph.py:306 | a list holding one single, one level deeper, pushed onto a stack whose top ends in a single keeps the shape |
| Builder.PlaceNests | capture/noworkflow/now/graphs/trial_graph.py:303-312 | the corrected placement of a single of level between 1 and the stack height succeeds. The stack is then exactly one higher than the single's level, keeps its shape, and ends with the single's activation |
| Builder.NestedStep | capture/noworkflow/now/graphs/trial_graph.py:299 | in a nested trace every level is at least one and at most one more than the previous level |
| Builder.OrderStep | capture/noworkflow/now/graphs/trial_graph.py:297-298 | one more placed activation extends the read-off activations by the next one of the trace |
| Builder.ScanStep | capture/noworkflow/now/graphs/trial_graph.py:297-312 | in either version, each turn of the loop places the next activation at its level |
| Builder.StepOk | capture/noworkflow/now/graphs/trial_graph.py:297-312 | a turn whose parent is recorded files the activation one level below its parent and places it as the version's placement says |
| Builder.StepFails | capture/noworkflow/now/graphs/trial_graph.py:299 | a turn whose parent is missing ends the scan with the unknown-parent error |
| Builder.StepStops | capture/noworkflow/now/graphs/trial_graph.py:297-312 | once a turn has failed, the whole loop ends with that failure |
| Builder.FirstHolds | capture/noworkflow/now/graphs/trial_graph.py:292-295 | the initial one-list stack satisfies the loop invariant |
| Builder.FirstOrder | capture/noworkflow/now/graphs/trial_graph.py:292-295 | the stack `generate_graph` starts from holds exactly the first activation |
| Builder.FirstShaped | capture/noworkflow/now/graphs/trial_graph.py:292-295 | the stack `generate_graph` starts from has the nesting shape |
| Builder.BuildValue | capture/noworkflow/now/graphs/trial_graph.py:314-317 | the result is the last element once the stack is closed |
| Builder.RootNests | capture/noworkflow/now/graphs/trial_graph.py:317 | the only element left in a well-shaped one-list stack is a well-formed tree at depth 0 holding all the stack's activations |
| Builder.PlaceHolds | capture/noworkflow/now/graphs/trial_graph.py:297-312 | each turn of the loop keeps the invariant: the stack is shaped, its height is the last level plus one, it ends with the last activation, and it holds the trace read so far in order |
| Builder.ScanNests | capture/noworkflow/now/graphs/trial_graph.py:292-312 | over a nested trace the loop never fails, and the invariant holds after every activation |
| Builder.CloseAllNests | capture/noworkflow/now/graphs/trial_graph.py:314-315 | the final loop keeps the shape and the activations in order |
| Builder.FinishNests | capture/noworkflow/now/graphs/trial_graph.py:314-317 | the returned root is a well-formed tree at depth 0 holding the stack's activations in order |
| Builder.BuildNests | capture/noworkflow/now/graphs/trial_graph.py:286-317 | a nested trace builds to a well-formed tree at level 0, whose singles read in order are exactly the trace's activations |
| Builder.UnknownParentFails | capture/noworkflow/now/graphs/trial_graph.py:299 | an activation whose parent has not been seen makes the build fail |
| Builder.ScanPropagates | capture/noworkflow/now/graphs/trial_graph.py:297-312 | once the loop has failed, its result stays that failure |
| Builder.DropLevels | capture/noworkflow/now/graphs/trial_graph.py:297-299 | the trace of the finding is nested and its levels are 0, 1, 2, 3 down the calls and then 1 |
| Builder.PlaceOnceMisplaces | capture/noworkflow/now/graphs/trial_graph.py:307-312 | as written, a single two or more levels shallower than a well-shaped stack is appended one list too deep: it ends a list whose depth is not its level |
| Builder.DropStack | capture/noworkflow/now/graphs/trial_graph.py:297-306 | the first four activations of the trace stack up four levels deep |
| Builder.PlaceOnceAgrees | capture/noworkflow/now/graphs/trial_graph.py:300-312 | on a well-shaped stack, a single that returns at most one level is placed by the source's code exactly as by the corrected placement |
| Builder.ScanAgrees | capture/noworkflow/now/graphs/trial_graph.py:292-312 | over a nested trace whose level never drops by more than one per activation, the source's loop and the corrected one hold the same stack after every activation |
| Builder.BuildAgrees | capture/noworkflow/now/graphs/trial_graph.py:286-317 | on such a non-empty trace the source's `generate_graph` succeeds and returns exactly the corrected tree: well formed, at depth 0, holding the trace's activations in order |
| Builder.StrayLevels | capture/noworkflow/now/graphs/trial_graph.py:297-299 | the trace where `y` names the finished `b` as its parent has levels 0, 1, 2, 1, 3, 2 and is not nested |
| Builder.StrayScan | capture/noworkflow/now/graphs/trial_graph.py:297-312 | on that trace the corrected loop ends with `main` at the bottom, the calls of `a` and of `x` above it, and `z` on top |
| Builder.StrayBuild | capture/noworkflow/now/graphs/trial_graph.py:314-317 | a trace that scans to a stack of that shape builds, but its tree has a call where a caller belongs, so it is not well formed |
| Builder.StrayMisshapes | capture/noworkflow/now/graphs/trial_graph.py:286-317 | a trace that is not nested can build to a tree that is not well formed |
| Builder.DropMisplaces | capture/noworkflow/now/graphs/trial_graph.py:307-312 | on the nested trace whose level drops from 3 to 1, the as-written loop succeeds but leaves the last activation at a depth that is not its level |
| Builder.ListToCall | capture/noworkflow/now/graphs/trial_graph.py:273-283 | the loops that pop and push the stack meet `CloseTop` |
| Builder.PlaceSingle | capture/noworkflow/now/graphs/trial_graph.py:300-312 | the loop body that places a new single meets the placement of the chosen version, `PlaceOnce` or `Place` |
| Builder.PlaceSingleOnce | capture/noworkflow/now/graphs/trial_graph.py:300-312 | the `if`/`elif`/`else` as the source writes it, with one `list_to_call` for a shallower single, meets `PlaceOnce` |
| Builder.PlaceSingleClosing | capture/noworkflow/now/graphs/trial_graph.py:300-312 | the repaired body, which closes lists until the single's level is reached, meets `Place` |
| Builder.LevelNext | capture/noworkflow/now/graphs/trial_graph.py:299 | the next level lookup fails exactly when the parent is missing, and otherwise records the parent's level plus one |
| Builder.ScanFails | capture/noworkflow/now/graphs/trial_graph.py:299 | a failing level lookup ends the loop with that error |
| Builder.ScanActivations | capture/noworkflow/now/graphs/trial_graph.py:292-312 | the `for` loop of the chosen version leaves the stack `Scan` specifies for that version, or its error |
| Builder.CloseStack | capture/noworkflow/now/graphs/trial_graph.py:314-315 | the `while` loop leaves the stack `CloseAll` specifies |
| Builder.GenerateGraph | capture/noworkflow/now/graphs/trial_graph.py:286-317 | with `AsWritten`, `generate_graph` returns what `BuildAsWritten` specifies, so an empty trace raises a name error; with `Corrected` it returns what `Build` specifies |
| TrialGraphs.Cached | capture/noworkflow/now/graphs/trial_graph.py:331-332 | the tree `graph()` returns: the kept one if there is one, otherwise a fresh build by the builder of the given version, `BuildAsWritten` (the source's `generate_graph`) for `AsWritten` and `Build` for `Corrected` |
| TrialGraphs.View | capture/noworkflow/now/graphs/trial_graph.py:334-357 | a failed build is passed on as that error; a built tree gives a document exactly when it is well formed, the unrolling export for `tree()` and the delegating export for the other views; otherwise the view fails as unvisitable |
| TrialGraphs.NestedViewable | capture/noworkflow/now/graphs/trial_graph.py:286-357 | an empty or nested trace always gives a document, in every view |
| TrialGraphs.AsWrittenViews | capture/noworkflow/now/graphs/trial_graph.py:286-357 | with the source's builder an empty trial fails every view with the name error of line 290, where the corrected builder gives a document; on a non-empty nested trace whose level never drops by two or more, both builders give the same document |
| TrialGraphs.StrayUnviewable | capture/noworkflow/now/graphs/trial_graph.py:286-357 | on the non-nested trace of `Builder.StrayLevels`, every view fails as unvisitable |
| TrialGraphs.TreeViewShape | capture/noworkflow/now/graphs/trial_graph.py:334-338 | the tree view has one node per single in the tree; node i has index i and its mean set; every edge is a `call` edge from a node to a later one |
| TrialGraphs.TrialGraph.constructor | capture/noworkflow/now/graphs/trial_graph.py:322-324 | a new trial graph keeps its trial id and the version of the builder it runs, and has no tree yet |
| TrialGraphs.TrialGraph.Graph | capture/noworkflow/now/graphs/trial_graph.py:326-332 | for any trace, returns the kept tree, or builds with the trial graph's builder version and keeps the tree. With `AsWritten`, the source's builder, an empty trial gives the name error and keeps nothing, and a drop of two levels keeps the misplaced tree. A kept tree is never replaced, and a failed build keeps nothing |
| TrialGraphs.TrialGraph.Tree | capture/noworkflow/now/graphs/trial_graph.py:334-338 | for any trace, `tree()` returns what `View` gives for the unrolling visitor over the cached tree: its document, the build error, or unvisitable, built by the trial graph's builder version |
| TrialGraphs.TrialGraph.NoMatch | capture/noworkflow/now/graphs/trial_graph.py:340-344 | for any trace, `no_match()` returns what `View` gives for the no-match visitor over the cached tree, built by the trial graph's builder version |
| TrialGraphs.TrialGraph.Combine | capture/noworkflow/now/graphs/trial_graph.py:353-357 | for any trace, `combine()` returns what `View` gives for the combining visitor over the cached tree, built by the trial graph's builder version |

## Left out

- `ExactMatchVisitor` and `TrialGraph.exact_match` (lines 172-205 and 346-351). Their `visit_mixed` and `visit_group` reference an undefined name and index a dict view, so they cannot run as written.
- Node `info` objects and the `repr` strings stored in nodes (`update_by_node`, `add_activation`, `repr`, lines 36-37, 72, 126, 158 and 224). These belong to classes that are not part of this model.
- `Mixed.mix_results` (lines 90 and 166) is not part of this model. A mixed element is taken with its elements, first element and duration already combined.
- Loading `Trial(self.trial_id)` from the database (lines 327-329). The trial's activations are a parameter of each `TrialGraph` method.
- The mean is a float division in the source (true division). The model states it over reals, as mean times count equals duration.
- `Structures.NameId`: `name_id()` of a single is not part of this model. It is modelled as the activation's name.
- The tree classes of `capture/noworkflow/now/graphs/structures.py` are not part of this model.
  - A group's transitions are one entry per (previous, next) pair, kept in the order pairs first appear. The source uses a nested dict.
  - `visit_group` iterates `group.nodes.values()`. The model takes that to be the group's elements in order.
  - The no-match node map is keyed by the element value. In the source, equal-valued elements would be distinct objects.
- The empty element `generate_graph` returns for an empty trace is visited as emitting nothing. Its class is not part of this model.
- TrialGraphs.TrialGraph.Tree, TrialGraphs.TrialGraph.NoMatch and TrialGraphs.TrialGraph.Combine return `Unvisitable` where the cached tree is not well formed. The model does not state which traces make the `AsWritten` builder give such a tree. With the corrected builder that happens only on traces that are not nested, where an activation names a finished call as its parent (`Builder.StrayMisshapes`, `TrialGraphs.StrayUnviewable`). A sequential run cannot record such a trace: in start order, every activation's parent is still active, so the level rises by at most one. On those traces the source's own placement, which closes one list at a time, still gives every call a single caller and is visited without error. The model does not follow those runs. Nested traces always give a document (`TrialGraphs.NestedViewable`).
- Builder.PlaceSingle, Builder.ScanActivations and Builder.GenerateGraph take a `Version`. `AsWritten` is the source's code, with both defects of the findings. A `TrialGraph` is given its version when it is constructed. With `AsWritten` its `graph()` and views run the source's builder, misplaced activation and name error included. With `Corrected` they run the repaired one. `Builder.BuildAgrees` and `TrialGraphs.AsWrittenViews` show the two versions agree on every nested trace that never drops by more than one level.
- Graph.UpdateDurations, Graph.Export, Visitors.Visitor.UpdateDurations and Visitors.Visitor.ToDict use the corrected default minimum. The first duration of a trial becomes its minimum. The source's `1000^10` default makes that minimum `min(994, duration)` instead, as `Graph.UpdateDurationsAsWritten` states.
- Graph.SetDuration, Walks.TreeVisitMixed and Walks.VisitMixed write the mixed duration to the outer node dict, which `to_dict` does not read. The exported means and extrema therefore ignore it (`Graph.OuterDurationUnseen`).
- Graph.SolveCis, Graph.SolveDelegation, Walks.CloseGroup, Walks.SequenceEdges and Walks.VisitGroup state, for the combining visitor, only that the invariants are kept and only edges change. The exact merged edges follow from `Graph.CombineAddEdge` one call at a time and are not stated for the whole loop. For the no-match visitor the edges are stated exactly (`Graph.SolveCisOverEdges`, `Walks.SequenceEdgesOver`, `Walks.CloseGroupEdges`, `Walks.VisitGroupEdges`).
- Walks.Visit, for the combining visitor, bounds the node growth by the number of singles. It does not state which namespaces are merged.
- Graph.Export: the total of node counts is not carried through a whole visit, only through each `add_node`.
- The documentation of the tree view speaks of initial and sequence edges. The code of `TreeVisitor` emits only `call` edges, and the model follows the code.

## Findings

| source | as written | input that shows it | evidently intended | confidence | as-written member | corrected member |
|---|---|---|---|---|---|---|
| capture/noworkflow/now/graphs/trial_graph.py:26 | the default minimum duration is `1000^10`, which is exclusive or and equals 994 | one node of trial 0 with duration 1000: the reported minimum is 994, which no node has | a default larger than any duration, so the minimum is the smallest duration of the trial | not executed | Graph.AsWrittenMinNotAttained | Graph.ExtremaAttained |
| capture/noworkflow/now/graphs/trial_graph.py:290 | an empty trace returns `TreeElement(level=0)`, a name the file never imports, so it raises a name error | a trial with no activations | an empty element at level 0 | not executed | Builder.BuildAsWritten | Builder.Build |
| capture/noworkflow/now/graphs/trial_graph.py:307-312 | when the level drops, only one list is closed before the activation is appended | the trace whose levels `Builder.DropLevels` states: main at level 0, a, b, c at levels 1, 2, 3 each called by the previous one, then h called by main at level 1 | close lists until the top list is at the activation's level, so every element sits at the depth of its level | not executed | Builder.DropMisplaces | Builder.BuildNests |
