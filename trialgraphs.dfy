/**
 * `TrialGraph` of `trial_graph.py`: the activation tree of one trial,
 * computed once and kept, and the three graph views a fresh visitor
 * exports from it.  The trial's activations, which the source loads from
 * the database, are a parameter.
 */
module TrialGraphs {
  import opened Wrappers
  import opened Structures
  import opened Graph
  import Walks
  import opened Builder
  import opened Visitors

  /**
   * How a view fails: the build failed, or the tree is not one the visitors
   * can walk (a caller that is not a single, an empty callee or group).
   */
  datatype ViewError = BuildFailed(error: BuildError) | Unvisitable

  /**
   * The tree `graph()` returns: the one it keeps if there is one, a fresh
   * build by the builder of version `v` otherwise (`AsWritten` is the
   * source's `generate_graph`).
   */
  function Cached(cache: Option<Tree>, acts: seq<Activation>, v: Version): (r: Result<Tree, BuildError>)
    ensures cache.Some? ==> r == Ok(cache.value)
    ensures cache.None? && v == AsWritten ==> r == BuildAsWritten(acts)
    ensures cache.None? && v == Corrected ==> r == Build(acts)
  {
    if cache.Some? then Ok(cache.value)
    else if v == Corrected then Build(acts)
    else BuildAsWritten(acts)
  }

  /** The document `to_dict` returns after a fresh unrolling visitor has visited `root`. */
  function TreeView(root: Tree): (doc: GraphDoc)
    requires WellFormed(root)
  {
    Export(Walks.TreeVisit(Init(TreeKind), root).0).1
  }

  /** The document `to_dict` returns after a fresh no-match or combining visitor has visited `root`. */
  function DelegatingView(kind: Kind, root: Tree): (doc: GraphDoc)
    requires kind != TreeKind && WellFormed(root)
  {
    Export(Walks.Visit(Init(kind), root).0).1
  }

  /**
   * What a view method returns for the outcome of `graph()`: the build's
   * error, `Unvisitable` for a tree the visitors cannot walk, or else the
   * document the visitor of `kind` exports.
   */
  function View(kind: Kind, built: Result<Tree, BuildError>): (r: Result<GraphDoc, ViewError>)
    ensures built.Err? ==> r == Err(BuildFailed(built.error))
    ensures built.Ok? ==> (r.Ok? <==> WellFormed(built.value))
    ensures built.Ok? && WellFormed(built.value) ==>
      r.value == if kind == TreeKind then TreeView(built.value) else DelegatingView(kind, built.value)
  {
    match built
    case Err(e) => Err(BuildFailed(e))
    case Ok(root) =>
      if !WellFormed(root) then Err(Unvisitable)
      else if kind == TreeKind then Ok(TreeView(root))
      else Ok(DelegatingView(kind, root))
  }

  /**
   * Every view of an empty trace or of a nested one (each activation starts
   * while its parent is running, so a level rises by at most one) succeeds.
   */
  lemma {:induction false} NestedViewable(kind: Kind, acts: seq<Activation>)
    requires |acts| == 0 || Nested(acts, |acts|)
    ensures View(kind, Build(acts)).Ok?
  {
    if |acts| >= 1 {
      BuildNests(acts);
    }
  }

  /**
   * The views of the source's builder: an empty trial fails with the name
   * error of `generate_graph`, where the corrected builder gives a document;
   * on a non-empty nested trace whose level never drops by two or more, both
   * builders give the same document.
   */
  lemma {:induction false} AsWrittenViews(kind: Kind, acts: seq<Activation>)
    ensures |acts| == 0 ==>
      && View(kind, Cached(None, acts, AsWritten)) == Err(BuildFailed(UndefinedName))
      && View(kind, Cached(None, acts, Corrected)).Ok?
    ensures |acts| >= 1 && Nested(acts, |acts|) && ShallowDrops(acts, |acts|) ==>
      && View(kind, Cached(None, acts, AsWritten)).Ok?
      && View(kind, Cached(None, acts, AsWritten)) == View(kind, Cached(None, acts, Corrected))
  {
    if |acts| == 0 {
      NestedViewable(kind, acts);
    } else if Nested(acts, |acts|) && ShallowDrops(acts, |acts|) {
      BuildAgrees(acts);
    }
  }

  /**
   * Nesting is needed: on a trace where an activation names a finished call
   * as its parent, every view of the built tree fails as unvisitable.
   */
  lemma {:induction false} StrayUnviewable(kind: Kind, acts: seq<Activation>)
    requires acts == StrayTrace()
    ensures !Nested(acts, |acts|) && View(kind, Build(acts)) == Err(Unvisitable)
  {
    StrayMisshapes(acts);
  }

  /**
   * The unrolled view of a tree: one node per single the visitor offers, node
   * `i` at index `i` with its mean set, and only `call` edges, each from a
   * node to a later one.
   */
  lemma {:induction false} TreeViewShape(root: Tree)
    requires WellFormed(root)
    ensures var doc := TreeView(root);
      && |doc.nodes| == Walks.Size(TreeKind, root)
      && (forall i :: 0 <= i < |doc.nodes| ==> doc.nodes[i].index == i && doc.nodes[i].mean.Some?)
      && (forall j :: 0 <= j < |doc.edges| ==> doc.edges[j].typ == CallEdge && doc.edges[j].source < doc.edges[j].target < |doc.nodes|)
  {
    var st := Walks.TreeVisit(Init(TreeKind), root).0;
    assert Walks.CallEdgesWithin(st.edges, 0, 0, st.nid);
    assert TreeView(root).edges == st.edges;
  }

  class TrialGraph {
    const trialId: nat
    /** The builder `graph()` runs: `AsWritten` is the source's `generate_graph`. */
    const version: Version
    /** `_graph`: the tree once computed. */
    var graph: Option<Tree>
    /** The activations the kept tree was built from. */
    ghost var trace: seq<Activation>

    /** A kept tree is what the builder makes of the trace it was built from. */
    ghost predicate Valid()
      reads this
    {
      graph.Some? ==> Cached(None, trace, version) == Ok(graph.value)
    }

    /** `__init__`: nothing computed yet. */
    constructor (trialId: nat, version: Version)
      ensures this.trialId == trialId && this.version == version && graph == None && Valid()
    {
      this.trialId := trialId;
      this.version := version;
      graph := None;
      trace := [];
    }

    /**
     * `graph(trial)`: the kept tree, or else a fresh build of the trial's
     * activations by the builder of `version`, kept when it succeeds; a
     * failed build keeps nothing, so the next call builds again.
     */
    method Graph(acts: seq<Activation>) returns (r: Result<Tree, BuildError>)
      requires Valid()
      modifies this
      ensures r == Cached(old(graph), acts, version)
      ensures graph == (if r.Ok? then Some(r.value) else None)
      ensures old(graph).Some? ==> graph == old(graph) && trace == old(trace)
      ensures old(graph).None? && r.Ok? ==> trace == acts
      ensures Valid()
    {
      if graph.Some? {
        return Ok(graph.value);
      }
      r := GenerateGraph(acts, version);
      if r.Ok? {
        graph := Some(r.value);
        trace := acts;
      }
    }

    /** `tree(trial)`: the tree view, through a fresh `TreeVisitor`. */
    method Tree(acts: seq<Activation>) returns (r: Result<GraphDoc, ViewError>)
      requires Valid()
      modifies this
      ensures graph == (if Cached(old(graph), acts, version).Ok? then Some(Cached(old(graph), acts, version).value) else None)
      ensures Valid()
      ensures r == View(TreeKind, Cached(old(graph), acts, version))
    {
      var g := Graph(acts);
      if g.Err? {
        return Err(BuildFailed(g.error));
      }
      if !WellFormed(g.value) {
        return Err(Unvisitable);
      }
      var v := new Visitor(TreeKind);
      var _ := v.TreeVisit(g.value);
      var doc := v.ToDict();
      r := Ok(doc);
    }

    /** `no_match(trial)`: the view of a fresh `NoMatchVisitor`. */
    method NoMatch(acts: seq<Activation>) returns (r: Result<GraphDoc, ViewError>)
      requires Valid()
      modifies this
      ensures graph == (if Cached(old(graph), acts, version).Ok? then Some(Cached(old(graph), acts, version).value) else None)
      ensures Valid()
      ensures r == View(NoMatchKind, Cached(old(graph), acts, version))
    {
      var g := Graph(acts);
      if g.Err? {
        return Err(BuildFailed(g.error));
      }
      if !WellFormed(g.value) {
        return Err(Unvisitable);
      }
      var v := new Visitor(NoMatchKind);
      var _, _ := v.Visit(g.value);
      var doc := v.ToDict();
      r := Ok(doc);
    }

    /** `combine(trial)`: the view of a fresh `CombineVisitor`. */
    method Combine(acts: seq<Activation>) returns (r: Result<GraphDoc, ViewError>)
      requires Valid()
      modifies this
      ensures graph == (if Cached(old(graph), acts, version).Ok? then Some(Cached(old(graph), acts, version).value) else None)
      ensures Valid()
      ensures r == View(CombineKind, Cached(old(graph), acts, version))
    {
      var g := Graph(acts);
      if g.Err? {
        return Err(BuildFailed(g.error));
      }
      if !WellFormed(g.value) {
        return Err(Unvisitable);
      }
      var v := new Visitor(CombineKind);
      var _, _ := v.Visit(g.value);
      var doc := v.ToDict();
      r := Ok(doc);
    }
  }
}
