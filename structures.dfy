/**
 * The tree elements produced by the activation-tree builder.
 *
 * In the repository these classes (`Single`, `Group`, `Call`, `Mixed` and
 * their base `TreeElement`) live in a `structures` module that is not part of
 * this model; only their use in `trial_graph.py` is visible.  They are given
 * here as one tagged union, with the attributes that `trial_graph.py` reads.
 */
module Structures {
  import opened Wrappers

  /** One recorded function activation, as the trace store supplies it. */
  datatype Activation = Activation(
    id: nat,
    parent: Option<nat>,  // the caller's activation id; `None` for the trial's root
    name: string,
    trialId: nat,
    duration: nat)

  /**
   * A structural node of the call tree.
   * - `Single`: one activation, with its repetition count and duration.
   * - `Group`: ordered siblings; `elements[0]` is the group's `next` (its
   *   first element) and the final element its `last`; `transitions` is the
   *   counter `edges[previous][next]` of consecutive pairs.
   * - `Call`: a caller and the subtree it called.
   * - `Mixed`: equivalent elements collapsed into one, represented by `first`.
   * - `Empty`: the bare `TreeElement` an empty trace stands for.
   * Every element carries the `level` attribute that the builder assigns.
   */
  datatype Tree =
    | Single(act: Activation, level: nat, count: nat, duration: nat)
    | Group(elements: seq<Tree>, transitions: seq<Transition>, count: nat, level: nat)
    | Call(caller: Tree, called: Tree, level: nat)
    | Mixed(elements: seq<Tree>, first: Tree, duration: nat, level: nat)
    | Empty(level: nat)

  /** One entry `edges[previous][next] == count` of a group's transition counter. */
  datatype Transition = Transition(previous: Tree, next: Tree, count: nat)

  /** `Single(act)`: a fresh leaf for an activation, at the given level. */
  function FromActivation(a: Activation, level: nat): (r: Tree)
    ensures r.Single? && r.act == a && r.level == level && r.count == 1
  {
    Single(a, level, 1, a.duration)
  }

  /** `Single.name_id()`, modelled as the activation's name. */
  function NameId(s: Tree): string
    requires s.Single?
  {
    s.act.name
  }

  /**
   * The shape the visitors rely on: a caller is a `Single`, a callee is not
   * empty, a group has elements that are singles or calls and transitions
   * between its own elements, a mixed node has a non-empty representative,
   * and every single counts at least one occurrence.
   */
  predicate WellFormed(t: Tree)
    decreases t
  {
    match t
    case Single(_, _, count, _) => count >= 1
    case Group(es, trs, _, _) =>
      && |es| >= 1
      && (forall i :: 0 <= i < |es| ==> (es[i].Single? || es[i].Call?) && WellFormed(es[i]))
      && (forall j :: 0 <= j < |trs| ==> trs[j].previous in es && trs[j].next in es)
    case Call(caller, called, _) =>
      caller.Single? && WellFormed(caller) && !called.Empty? && WellFormed(called)
    case Mixed(es, first, _, _) =>
      && |es| >= 1
      && !first.Empty? && WellFormed(first)
      && (forall i :: 0 <= i < |es| ==> !es[i].Empty? && WellFormed(es[i]))
    case Empty(_) => true
  }

  /** The singles of a tree in pre-order: a caller before what it called, siblings in order. */
  function Flatten(t: Tree): (r: seq<Tree>)
    ensures forall i :: 0 <= i < |r| ==> r[i].Single?
    decreases t
  {
    match t
    case Single(_, _, _, _) => [t]
    case Group(es, _, _, _) => FlattenAll(es)
    case Call(caller, called, _) => Flatten(caller) + Flatten(called)
    case Mixed(es, _, _, _) => FlattenAll(es)
    case Empty(_) => []
  }

  /** The singles of a sequence of trees, in order. */
  function FlattenAll(ts: seq<Tree>): (r: seq<Tree>)
    ensures forall i :: 0 <= i < |r| ==> r[i].Single?
    decreases ts
  {
    if ts == [] then [] else FlattenAll(ts[..|ts| - 1]) + Flatten(ts[|ts| - 1])
  }

  /** Concatenation regroups. */
  lemma ConcatAssoc<T>(a: seq<T>, b: seq<T>, c: seq<T>)
    ensures a + (b + c) == (a + b) + c
  {
  }

  lemma {:induction false} FlattenAllConcat(a: seq<Tree>, b: seq<Tree>)
    ensures FlattenAll(a + b) == FlattenAll(a) + FlattenAll(b)
    decreases |b|
  {
    if b == [] {
      assert a + b == a;
    } else {
      calc {
        FlattenAll(a + b);
        { assert (a + b)[..|a + b| - 1] == a + b[..|b| - 1]; }
        FlattenAll(a + b[..|b| - 1]) + Flatten(b[|b| - 1]);
        { FlattenAllConcat(a, b[..|b| - 1]); }
        FlattenAll(a) + FlattenAll(b[..|b| - 1]) + Flatten(b[|b| - 1]);
      }
    }
  }

  lemma {:induction false} FlattenAllCons(t: Tree, ts: seq<Tree>)
    ensures FlattenAll([t] + ts) == Flatten(t) + FlattenAll(ts)
  {
    FlattenAllConcat([t], ts);
    assert [t][..0] == [];
  }

  /** The activations of a sequence of singles. */
  function ActsOf(ss: seq<Tree>): (r: seq<Activation>)
    requires forall i :: 0 <= i < |ss| ==> ss[i].Single?
    ensures |r| == |ss| && forall i :: 0 <= i < |ss| ==> r[i] == ss[i].act
  {
    seq(|ss|, i requires 0 <= i < |ss| => ss[i].act)
  }

  lemma {:induction false} ActsOfSnoc(ss: seq<Tree>, s: Tree)
    requires (forall i :: 0 <= i < |ss| ==> ss[i].Single?) && s.Single?
    ensures ActsOf(ss + [s]) == ActsOf(ss) + [s.act]
  {
  }

  /**
   * Every element of `t` records the nesting depth at which it sits in the
   * tree, `t` itself sitting at depth `depth`: a single's level is its depth,
   * a call and its caller share a depth and the callee is one deeper.
   */
  predicate AtDepth(t: Tree, depth: nat)
    decreases t
  {
    match t
    case Single(_, level, _, _) => level == depth
    case Group(es, _, _, level) =>
      level == depth && forall i :: 0 <= i < |es| ==> AtDepth(es[i], depth)
    case Call(caller, called, level) =>
      level == depth && caller.Single? && caller.level == depth && AtDepth(called, depth + 1)
    case Mixed(es, first, _, level) =>
      level == depth && AtDepth(first, depth) && forall i :: 0 <= i < |es| ==> AtDepth(es[i], depth)
    case Empty(level) => level == depth
  }
}
