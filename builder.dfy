/**
 * The activation-tree builder of `trial_graph.py`: `sequence`,
 * `list_to_call` and `generate_graph`.  A flat, start-ordered list of
 * activations becomes a nested call tree through a stack of pending sibling
 * lists, one list per nesting level.
 *
 * The functions below are the specification; the methods at the end
 * (`ListToCall`, `PlaceSingle`, `ScanActivations`, `CloseStack`,
 * `GenerateGraph`) run the source's loops, proved to compute them.  The
 * placement and the whole builder take a `Version`: `AsWritten` is the
 * source's code, `Corrected` the version with the two defects of the empty
 * trace and the level drop repaired, which the tree views use.
 * The source's in-place updates of the stack and of the group passed to
 * `sequence` are modelled on values.
 */
module Builder {
  import opened Wrappers
  import opened Structures

  /**
   * How `generate_graph` fails: `IndexError` from a pop of an empty list,
   * `UnknownParent` from the level lookup of a parent not seen yet (a
   * `KeyError`), `UndefinedName` from the unimported `TreeElement`.
   */
  datatype BuildError = IndexError | UnknownParent | UndefinedName

  /** The builder as the source has it, or with the level-drop branch closing every level it leaves. */
  datatype Version = AsWritten | Corrected

  // ---------------------------------------------------------------------
  // The transition counter of a group and `sequence`
  // ---------------------------------------------------------------------

  /** The count the counter `edges[a][b]` holds. */
  function CountOf(trs: seq<Transition>, a: Tree, b: Tree): nat
    decreases |trs|
  {
    if trs == [] then 0
    else (if trs[0].previous == a && trs[0].next == b then trs[0].count else 0) + CountOf(trs[1..], a, b)
  }

  /** Every transition joins two of the elements `es`. */
  predicate Between(trs: seq<Transition>, es: seq<Tree>)
  {
    forall j :: 0 <= j < |trs| ==> trs[j].previous in es && trs[j].next in es
  }

  /** `edges[p][n] += 1` on the counter. */
  function Bump(trs: seq<Transition>, p: Tree, n: Tree): seq<Transition>
    decreases |trs|
  {
    if trs == [] then [Transition(p, n, 1)]
    else if trs[0].previous == p && trs[0].next == n then
      [trs[0].(count := trs[0].count + 1)] + trs[1..]
    else
      [trs[0]] + Bump(trs[1..], p, n)
  }

  /** The counter read on a transition in front of others. */
  lemma {:induction false} CountOfCons(t: Transition, trs: seq<Transition>, a: Tree, b: Tree)
    ensures CountOf([t] + trs, a, b) == (if t.previous == a && t.next == b then t.count else 0) + CountOf(trs, a, b)
  {
    assert ([t] + trs)[0] == t;
    assert ([t] + trs)[1..] == trs;
  }

  /** Recording one transition raises the count of that pair by one and no other pair's. */
  lemma {:induction false} BumpCounts(trs: seq<Transition>, p: Tree, n: Tree, a: Tree, b: Tree)
    ensures CountOf(Bump(trs, p, n), a, b) == CountOf(trs, a, b) + (if a == p && b == n then 1 else 0)
    decreases |trs|
  {
    if trs == [] {
      CountOfCons(Transition(p, n, 1), [], a, b);
      assert [Transition(p, n, 1)] + [] == Bump(trs, p, n);
    } else if trs[0].previous == p && trs[0].next == n {
      BumpFound(trs, p, n, a, b);
    } else {
      BumpCounts(trs[1..], p, n, a, b);
      BumpPasses(trs, p, n, a, b);
    }
  }

  /** The pair is counted at the front: its count goes up by one. */
  lemma {:induction false} BumpFound(trs: seq<Transition>, p: Tree, n: Tree, a: Tree, b: Tree)
    requires trs != [] && trs[0].previous == p && trs[0].next == n
    ensures CountOf(Bump(trs, p, n), a, b) == CountOf(trs, a, b) + (if a == p && b == n then 1 else 0)
  {
    var t := trs[0];
    assert Bump(trs, p, n) == [t.(count := t.count + 1)] + trs[1..];
    assert [t] + trs[1..] == trs;
    CountOfCons(t, trs[1..], a, b);
    CountOfCons(t.(count := t.count + 1), trs[1..], a, b);
  }

  /** Another pair at the front: the count is raised further on. */
  lemma {:induction false} BumpPasses(trs: seq<Transition>, p: Tree, n: Tree, a: Tree, b: Tree)
    requires trs != [] && !(trs[0].previous == p && trs[0].next == n)
    requires CountOf(Bump(trs[1..], p, n), a, b) == CountOf(trs[1..], a, b) + (if a == p && b == n then 1 else 0)
    ensures CountOf(Bump(trs, p, n), a, b) == CountOf(trs, a, b) + (if a == p && b == n then 1 else 0)
  {
    var t := trs[0];
    assert Bump(trs, p, n) == [t] + Bump(trs[1..], p, n);
    assert [t] + trs[1..] == trs;
    CountOfCons(t, trs[1..], a, b);
    CountOfCons(t, Bump(trs[1..], p, n), a, b);
  }

  lemma {:induction false} BumpBetween(trs: seq<Transition>, p: Tree, n: Tree, es: seq<Tree>)
    requires Between(trs, es) && p in es && n in es
    ensures Between(Bump(trs, p, n), es)
    decreases |trs|
  {
    if trs != [] && !(trs[0].previous == p && trs[0].next == n) {
      BumpBetween(trs[1..], p, n, es);
      var rest := Bump(trs[1..], p, n);
      assert Bump(trs, p, n) == [trs[0]] + rest;
    }
  }

  /** A transition in front of a sequence joins its new first and old first element. */
  lemma {:induction false} PrependBetween(trs: seq<Transition>, es: seq<Tree>, p: Tree)
    requires |es| >= 1
    ensures Between(trs, es) ==> Between(Bump(trs, p, es[0]), [p] + es)
  {
    if Between(trs, es) {
      assert Between(trs, [p] + es);
      BumpBetween(trs, p, es[0], [p] + es);
    }
  }

  /** The first element of the sequence `t` stands for: a group's `next`, or `t` itself. */
  function Head(t: Tree): Tree
  {
    if t.Group? && |t.elements| >= 1 then t.elements[0] else t
  }

  /**
   * `sequence(previous, next)`: a group `next` takes `previous` in front of
   * its elements and counts one more transition from `previous` to its old
   * first element; anything else becomes a fresh two-element group.
   */
  function Sequence(previous: Tree, next: Tree): (r: Tree)
    requires next.Group? ==> |next.elements| >= 1
    ensures r.Group? && r.elements == [previous] + (if next.Group? then next.elements else [next])
    ensures r.level == next.level && r.count == (if next.Group? then next.count else 1)
  {
    if next.Group? then
      next.(elements := [previous] + next.elements, transitions := Bump(next.transitions, previous, next.elements[0]))
    else
      Group([previous, next], [Transition(previous, next, 1)], 1, next.level)
  }

  /** Every transition `sequence` records joins two of its elements. */
  lemma {:induction false} SequenceBetween(previous: Tree, next: Tree)
    requires next.Group? ==> |next.elements| >= 1
    ensures var r := Sequence(previous, next);
      (!next.Group? || Between(next.transitions, next.elements)) ==> Between(r.transitions, r.elements)
  {
    if next.Group? {
      PrependBetween(next.transitions, next.elements, previous);
    }
  }

  /** `sequence` counts one more transition from `previous` to the head of `next` and leaves every other count as it was. */
  lemma {:induction false} SequenceCounts(previous: Tree, next: Tree, a: Tree, b: Tree)
    requires next.Group? ==> |next.elements| >= 1
    ensures CountOf(Sequence(previous, next).transitions, a, b) ==
      CountOf(if next.Group? then next.transitions else [], a, b) + (if a == previous && b == Head(next) then 1 else 0)
  {
    if next.Group? {
      BumpCounts(next.transitions, previous, next.elements[0], a, b);
    } else {
      CountOfCons(Transition(previous, next, 1), [], a, b);
      assert [Transition(previous, next, 1)] + [] == [Transition(previous, next, 1)];
    }
  }

  /** The number of places where `a` is immediately followed by `b` in `g`. */
  function PairCount(g: seq<Tree>, a: Tree, b: Tree): nat
    decreases |g|
  {
    if |g| < 2 then 0
    else (if g[0] == a && g[1] == b then 1 else 0) + PairCount(g[1..], a, b)
  }

  /**
   * The fold of `list_to_call` over a sibling list, from its end:
   * `next = sequence(previous, next)`.  A longer list becomes one group whose
   * elements are the list in order and whose counter holds, for every pair,
   * the number of times the first sibling is immediately followed by the second.
   */
  function Fold(g: seq<Tree>): (r: Tree)
    requires |g| >= 1 && !g[|g| - 1].Group?
    ensures |g| == 1 ==> r == g[0]
    ensures |g| >= 2 ==> r.Group? && r.elements == g && r.count == 1 && r.level == g[|g| - 1].level
    decreases |g|
  {
    if |g| == 1 then g[0]
    else
      var rest := Fold(g[1..]);
      assert [g[0]] + g[1..] == g;
      Sequence(g[0], rest)
  }

  /** Every transition of a folded list joins two of its elements. */
  lemma {:induction false} FoldBetween(g: seq<Tree>)
    requires |g| >= 2 && !g[|g| - 1].Group?
    ensures Between(Fold(g).transitions, Fold(g).elements)
    decreases |g|
  {
    var rest := Fold(g[1..]);
    assert Fold(g) == Sequence(g[0], rest);
    if |g| >= 3 {
      FoldBetween(g[1..]);
    }
    SequenceBetween(g[0], rest);
  }

  /** The transitions the fold records, read off the list alone. */
  function FoldTrs(g: seq<Tree>): seq<Transition>
    requires |g| >= 2
    decreases |g|
  {
    if |g| == 2 then [Transition(g[0], g[1], 1)] else Bump(FoldTrs(g[1..]), g[0], g[1])
  }

  /** The fold of a longer list records exactly those transitions. */
  lemma {:induction false} FoldTransitions(g: seq<Tree>)
    requires |g| >= 2 && !g[|g| - 1].Group?
    ensures Fold(g).transitions == FoldTrs(g)
    decreases |g|
  {
    var rest := Fold(g[1..]);
    assert Fold(g) == Sequence(g[0], rest);
    if |g| == 2 {
      assert rest == g[1];
    } else {
      assert rest.elements[0] == g[1] by { assert rest.elements == g[1..]; }
      FoldTransitions(g[1..]);
    }
  }

  /** Counting the recorded transitions gives the number of adjacent occurrences of each pair. */
  lemma {:induction false} FoldTrsCounts(g: seq<Tree>, a: Tree, b: Tree)
    requires |g| >= 2
    ensures CountOf(FoldTrs(g), a, b) == PairCount(g, a, b)
    decreases |g|
  {
    PairCountStep(g, a, b);
    if |g| == 2 {
      CountOfCons(Transition(g[0], g[1], 1), [], a, b);
      assert [Transition(g[0], g[1], 1)] + [] == FoldTrs(g);
      assert PairCount(g[1..], a, b) == 0;
    } else {
      BumpCounts(FoldTrs(g[1..]), g[0], g[1], a, b);
      FoldTrsCounts(g[1..], a, b);
    }
  }

  /** The counter of a folded list holds, for every pair, the number of times the first is immediately followed by the second. */
  lemma {:induction false} FoldCounts(g: seq<Tree>, a: Tree, b: Tree)
    requires |g| >= 2 && !g[|g| - 1].Group?
    ensures CountOf(Fold(g).transitions, a, b) == PairCount(g, a, b)
  {
    FoldTransitions(g);
    FoldTrsCounts(g, a, b);
  }

  lemma {:induction false} PairCountStep(g: seq<Tree>, a: Tree, b: Tree)
    requires |g| >= 2
    ensures PairCount(g, a, b) == (if g[0] == a && g[1] == b then 1 else 0) + PairCount(g[1..], a, b)
  {
  }

  // ---------------------------------------------------------------------
  // The stack of pending sibling lists and `list_to_call`
  // ---------------------------------------------------------------------

  /** Every pending element is a single or a call: groups exist only below a call. */
  predicate Stacked(stack: seq<seq<Tree>>)
  {
    forall k, j :: 0 <= k < |stack| && 0 <= j < |stack[k]| ==> stack[k][j].Single? || stack[k][j].Call?
  }

  /** The stack and each of its lists are non-empty. */
  predicate Filled(stack: seq<seq<Tree>>)
  {
    |stack| >= 1 && forall k :: 0 <= k < |stack| ==> |stack[k]| >= 1
  }

  /** `t.level = v`. */
  function Relevel(t: Tree, v: nat): (r: Tree)
    ensures r.level == v
  {
    t.(level := v)
  }

  /** `stack[-1][-1]`. */
  function Last(stack: seq<seq<Tree>>): Tree
    requires |stack| >= 1 && |stack[|stack| - 1]| >= 1
  {
    stack[|stack| - 1][|stack[|stack| - 1]| - 1]
  }

  /** `stack[-1].append(s)`. */
  function Append(stack: seq<seq<Tree>>, s: Tree): (r: seq<seq<Tree>>)
    requires |stack| >= 1
    ensures |r| == |stack| && r[..|stack| - 1] == stack[..|stack| - 1] && r[|stack| - 1] == stack[|stack| - 1] + [s]
  {
    stack[..|stack| - 1] + [stack[|stack| - 1] + [s]]
  }

  /** The call `list_to_call` makes of a caller and the list it called. */
  function CloseCall(caller: Tree, group: seq<Tree>): (r: Tree)
    requires |group| >= 1 && forall i :: 0 <= i < |group| ==> group[i].Single? || group[i].Call?
    ensures r.Call? && r.caller == caller && r.level == caller.level && r.called.level == caller.level + 1
  {
    Call(caller, Relevel(Fold(group), caller.level + 1), caller.level)
  }

  /**
   * `list_to_call(stack)`: the top list is folded into one element and
   * becomes the callee of the last element of the list below, which it
   * replaces; the call sits at its caller's level and the callee one level
   * deeper.  It fails exactly when a list it pops is missing or empty.
   */
  function CloseTop(stack: seq<seq<Tree>>): (r: Result<seq<seq<Tree>>, BuildError>)
    requires Stacked(stack)
    ensures r.Ok? <==> |stack| >= 2 && |stack[|stack| - 1]| >= 1 && |stack[|stack| - 2]| >= 1
    ensures r.Err? ==> r.error == IndexError
    ensures r.Ok? ==> |r.value| == |stack| - 1 && Stacked(r.value)
    ensures r.Ok? ==>
      var below := stack[|stack| - 2];
      var top := r.value[|stack| - 2];
      && r.value[..|stack| - 2] == stack[..|stack| - 2]
      && |top| == |below| && top[..|below| - 1] == below[..|below| - 1]
      && top[|below| - 1].Call?
      && top[|below| - 1].caller == below[|below| - 1]
      && top[|below| - 1].level == below[|below| - 1].level
      && top[|below| - 1].called.level == below[|below| - 1].level + 1
  {
    if |stack| == 0 then Err(IndexError)
    else
      var group := stack[|stack| - 1];
      if |group| == 0 then Err(IndexError)
      else
        var rest := stack[..|stack| - 1];
        if |rest| == 0 then Err(IndexError)
        else
          var below := rest[|rest| - 1];
          if |below| == 0 then Err(IndexError)
          else
            var call := CloseCall(below[|below| - 1], group);
            var r := rest[..|rest| - 1] + [below[..|below| - 1] + [call]];
            assert r[..|stack| - 2] == stack[..|stack| - 2];
            Ok(r)
  }

  /**
   * The placement of a new single `s` in the loop of `generate_graph`: at the
   * level of the last element it joins that list, deeper it opens a list of
   * its own, shallower the top list is closed and the comparison repeated.
   */
  function Place(stack: seq<seq<Tree>>, s: Tree): (r: Result<seq<seq<Tree>>, BuildError>)
    requires Stacked(stack) && Filled(stack) && s.Single?
    ensures r.Ok? ==> Stacked(r.value) && Filled(r.value) && Last(r.value) == s
    decreases |stack|
  {
    var last := Last(stack);
    if s.level == last.level then AppendKeeps(stack, s); Ok(Append(stack, s))
    else if s.level > last.level then PushKeeps(stack, s); Ok(stack + [[s]])
    else
      match CloseTop(stack)
      case Err(e) => Err(e)
      case Ok(closed) => Place(closed, s)
  }

  /** Joining the top list keeps every list filled with singles and calls, and ends it in `s`. */
  lemma {:induction false} AppendKeeps(stack: seq<seq<Tree>>, s: Tree)
    requires Stacked(stack) && Filled(stack) && s.Single?
    ensures Stacked(Append(stack, s)) && Filled(Append(stack, s)) && Last(Append(stack, s)) == s
  {
    var r: seq<seq<Tree>> := Append(stack, s);
    var n := |stack|;
    forall k, j | 0 <= k < n && 0 <= j < |r[k]|
      ensures r[k][j].Single? || r[k][j].Call?
    {
      if k < n - 1 {
        assert r[k] == r[..n - 1][k];
      } else if j < |stack[n - 1]| {
        assert r[k][j] == stack[n - 1][j];
      }
    }
    forall k | 0 <= k < n
      ensures |r[k]| >= 1
    {
      if k < n - 1 {
        assert r[k] == r[..n - 1][k];
      }
    }
  }

  /** Opening a list of its own keeps every list filled with singles and calls, and ends the stack in `s`. */
  lemma {:induction false} PushKeeps(stack: seq<seq<Tree>>, s: Tree)
    requires Stacked(stack) && Filled(stack) && s.Single?
    ensures Stacked(stack + [[s]]) && Filled(stack + [[s]]) && Last(stack + [[s]]) == s
  {
    var r: seq<seq<Tree>> := stack + [[s]];
    forall k, j | 0 <= k < |r| && 0 <= j < |r[k]|
      ensures r[k][j].Single? || r[k][j].Call?
    {
      if k < |stack| {
        assert r[k] == stack[k];
      }
    }
  }

  /** The same placement as the source writes it: a shallower single closes one list only. */
  function PlaceOnce(stack: seq<seq<Tree>>, s: Tree): (r: Result<seq<seq<Tree>>, BuildError>)
    requires Stacked(stack) && Filled(stack) && s.Single?
    ensures r.Ok? ==> Stacked(r.value) && Filled(r.value) && Last(r.value) == s
  {
    var last := Last(stack);
    if s.level == last.level then AppendKeeps(stack, s); Ok(Append(stack, s))
    else if s.level > last.level then PushKeeps(stack, s); Ok(stack + [[s]])
    else
      match CloseTop(stack)
      case Err(e) => Err(e)
      case Ok(closed) => AppendKeeps(closed, s); Ok(Append(closed, s))
  }

  /** The placement of the version given. */
  function PlaceBy(v: Version, stack: seq<seq<Tree>>, s: Tree): (r: Result<seq<seq<Tree>>, BuildError>)
    requires Stacked(stack) && Filled(stack) && s.Single?
    ensures r.Ok? ==> Stacked(r.value) && Filled(r.value) && Last(r.value) == s
  {
    if v == Corrected then Place(stack, s) else PlaceOnce(stack, s)
  }

  // ---------------------------------------------------------------------
  // `generate_graph`
  // ---------------------------------------------------------------------

  /** The level of an activation: its parent's level plus one, or a failed lookup. */
  function ParentLevel(m: map<nat, nat>, a: Activation): (r: Result<nat, BuildError>)
    ensures r.Ok? <==> a.parent.Some? && a.parent.value in m
    ensures r.Ok? ==> r.value == m[a.parent.value] + 1
    ensures r.Err? ==> r.error == UnknownParent
  {
    match a.parent
    case None => Err(UnknownParent)
    case Some(p) => if p in m then Ok(m[p] + 1) else Err(UnknownParent)
  }

  /**
   * The `level` dictionary of `generate_graph` once the first `n`
   * activations are read: the first at level 0, every later one at its
   * parent's level plus one.
   */
  function LevelMap(acts: seq<Activation>, n: nat): (r: Result<map<nat, nat>, BuildError>)
    requires n <= |acts|
    ensures n >= 1 && r.Ok? ==> acts[n - 1].id in r.value
    ensures n == 1 ==> r == Ok(map[acts[0].id := 0])
    ensures n >= 2 && r.Ok? ==> r.value[acts[n - 1].id] >= 1
    decreases n
  {
    if n == 0 then Ok(map[])
    else if n == 1 then Ok(map[acts[0].id := 0])
    else
      match LevelMap(acts, n - 1)
      case Err(e) => Err(e)
      case Ok(m) =>
        match ParentLevel(m, acts[n - 1])
        case Err(e) => Err(e)
        case Ok(lv) => Ok(m[acts[n - 1].id := lv])
  }

  /** The level `generate_graph` gives the `n`-th activation. */
  function LevelOf(acts: seq<Activation>, n: nat): nat
    requires 1 <= n <= |acts| && LevelMap(acts, n).Ok?
  {
    LevelMap(acts, n).value[acts[n - 1].id]
  }

  /** The stack once the loop of `generate_graph` has placed the first `n` activations. */
  function Scan(acts: seq<Activation>, n: nat, v: Version): (r: Result<seq<seq<Tree>>, BuildError>)
    requires 1 <= n <= |acts|
    ensures r.Ok? ==> Stacked(r.value) && Filled(r.value) && LevelMap(acts, n).Ok?
    ensures r.Ok? ==> Last(r.value) == FromActivation(acts[n - 1], LevelOf(acts, n))
    decreases n
  {
    if n == 1 then Ok([[FromActivation(acts[0], 0)]])
    else
      match Scan(acts, n - 1, v)
      case Err(e) => Err(e)
      case Ok(stack) =>
        match LevelMap(acts, n)
        case Err(e) => Err(e)
        case Ok(m) =>
          var s := FromActivation(acts[n - 1], m[acts[n - 1].id]);
          PlaceBy(v, stack, s)
  }

  /** The final loop of `generate_graph`: `while len(stack) > 1: list_to_call(stack)`, which cannot fail. */
  function CloseAll(stack: seq<seq<Tree>>): (r: Result<seq<seq<Tree>>, BuildError>)
    requires Stacked(stack) && Filled(stack)
    ensures r.Ok? && Stacked(r.value) && Filled(r.value) && |r.value| == 1
    decreases |stack|
  {
    if |stack| == 1 then Ok(stack)
    else
      match CloseTop(stack)
      case Err(e) => Err(e)
      case Ok(closed) => CloseAll(closed)
  }

  /** The last element of the bottom list once every list is closed. */
  function Finish(scanned: Result<seq<seq<Tree>>, BuildError>): (r: Result<Tree, BuildError>)
    requires scanned.Ok? ==> Stacked(scanned.value) && Filled(scanned.value)
    ensures r.Ok? <==> scanned.Ok?
  {
    match scanned
    case Err(e) => Err(e)
    case Ok(stack) =>
      var closed := CloseAll(stack).value;
      Ok(Last(closed))
  }

  /**
   * `generate_graph` with its two defects corrected: an empty trace yields the
   * bare level-0 element, and a level drop closes every level it leaves.
   */
  function Build(acts: seq<Activation>): (r: Result<Tree, BuildError>)
    ensures |acts| == 0 ==> r == Ok(Empty(0))
    ensures |acts| >= 1 ==> (r.Ok? <==> Scan(acts, |acts|, Corrected).Ok?)
  {
    if |acts| == 0 then Ok(Empty(0)) else Finish(Scan(acts, |acts|, Corrected))
  }

  /** `generate_graph` as the source writes it. */
  function BuildAsWritten(acts: seq<Activation>): (r: Result<Tree, BuildError>)
    ensures |acts| == 0 ==> r == Err(UndefinedName)
    ensures |acts| >= 1 ==> (r.Ok? <==> Scan(acts, |acts|, AsWritten).Ok?)
  {
    if |acts| == 0 then Err(UndefinedName) else Finish(Scan(acts, |acts|, AsWritten))
  }

  // ---------------------------------------------------------------------
  // What the builder preserves
  // ---------------------------------------------------------------------

  /** The singles of the pending lists, bottom list first: the activations read so far in pre-order. */
  function FlattenStack(stack: seq<seq<Tree>>): (r: seq<Tree>)
    ensures forall i :: 0 <= i < |r| ==> r[i].Single?
    decreases |stack|
  {
    if stack == [] then [] else FlattenStack(stack[..|stack| - 1]) + FlattenAll(stack[|stack| - 1])
  }

  /** `FlattenStack` over a stack with one more list on top. */
  lemma {:induction false} FlattenStackSnoc(stack: seq<seq<Tree>>, l: seq<Tree>)
    ensures FlattenStack(stack + [l]) == FlattenStack(stack) + FlattenAll(l)
  {
    assert (stack + [l])[..|stack|] == stack;
  }

  /** The elements of one pending list: well formed, and all at depth `k`. */
  ghost predicate ListAt(l: seq<Tree>, k: nat)
  {
    forall j :: 0 <= j < |l| ==> WellFormed(l[j]) && AtDepth(l[j], k)
  }

  /**
   * The stack's shape between steps: the bottom list holds one element, the
   * elements of list `k` are well formed and sit at depth `k`, and every
   * list but the top ends in the single that called the list above it.
   */
  ghost predicate Shaped(stack: seq<seq<Tree>>)
  {
    && Stacked(stack) && Filled(stack) && |stack[0]| == 1
    && (forall k :: 0 <= k < |stack| ==> ListAt(stack[k], k))
    && (forall k :: 0 <= k < |stack| - 1 ==> stack[k][|stack[k]| - 1].Single?)
  }

  /** Replacing the top list by another list at its depth keeps the shape. */
  lemma {:induction false} ShapedTop(stack: seq<seq<Tree>>, l: seq<Tree>)
    requires Shaped(stack) && |l| >= 1 && ListAt(l, |stack| - 1)
    requires forall j :: 0 <= j < |l| ==> l[j].Single? || l[j].Call?
    requires |stack| == 1 ==> |l| == 1
    ensures Shaped(stack[..|stack| - 1] + [l])
  {
  }

  /** A stack with one more list, a single one level deeper, above a stack whose top ends in a single, has the shape. */
  lemma {:induction false} ShapedAbove(stack: seq<seq<Tree>>, r: seq<seq<Tree>>, s: Tree)
    requires Shaped(stack) && Last(stack).Single?
    requires s.Single? && WellFormed(s) && AtDepth(s, |stack|)
    requires |r| == |stack| + 1 && r[..|stack|] == stack && r[|stack|] == [s]
    ensures Shaped(r)
  {
    var n := |stack|;
    forall k | 0 <= k < n
      ensures r[k] == stack[k]
    {
      assert r[..n][k] == r[k];
    }
    assert stack[n - 1][|stack[n - 1]| - 1] == Last(stack);
  }

  /** Opening a list above a stack whose top ends in a single keeps the shape. */
  lemma {:induction false} ShapedPush(stack: seq<seq<Tree>>, s: Tree)
    requires Shaped(stack) && Last(stack).Single?
    requires s.Single? && WellFormed(s) && AtDepth(s, |stack|)
    ensures Shaped(stack + [[s]])
  {
    var r := stack + [[s]];
    assert r[..|stack|] == stack;
    ShapedAbove(stack, r, s);
  }

  /** Dropping the top list keeps the shape. */
  lemma {:induction false} ShapedPop(stack: seq<seq<Tree>>)
    requires Shaped(stack) && |stack| >= 2
    ensures Shaped(stack[..|stack| - 1])
  {
  }

  /** A tree at depth `d` records level `d`, so setting it to `d` changes nothing. */
  lemma {:induction false} LevelIsDepth(t: Tree, d: nat)
    requires AtDepth(t, d)
    ensures t.level == d && Relevel(t, d) == t
  {
    match t
    case Single(_, _, _, _) =>
    case Group(_, _, _, _) =>
    case Call(_, _, _) =>
    case Mixed(_, _, _, _) =>
    case Empty(_) =>
  }

  lemma {:induction false} FoldNests(g: seq<Tree>, d: nat)
    requires |g| >= 1 && forall i :: 0 <= i < |g| ==> (g[i].Single? || g[i].Call?) && WellFormed(g[i]) && AtDepth(g[i], d)
    ensures WellFormed(Fold(g)) && AtDepth(Fold(g), d) && !Fold(g).Empty?
    ensures Flatten(Fold(g)) == FlattenAll(g)
  {
    if |g| == 1 {
      assert g == [g[0]];
      FlattenAllCons(g[0], []);
    } else {
      var r := Fold(g);
      LevelIsDepth(g[|g| - 1], d);
      FoldBetween(g);
      assert r.elements == g;
    }
  }

  /** The stack `list_to_call` leaves when both lists it pops are there. */
  lemma {:induction false} CloseTopValue(stack: seq<seq<Tree>>)
    requires Stacked(stack) && Filled(stack) && |stack| >= 2
    ensures var n := |stack|; var below := stack[n - 2];
      CloseTop(stack) == Ok(stack[..n - 2] + [below[..|below| - 1] + [CloseCall(below[|below| - 1], stack[n - 1])]])
  {
    var n := |stack|;
    assert stack[..n - 1][..n - 2] == stack[..n - 2];
  }

  /** The call `list_to_call` builds from a shaped stack: well formed, at the caller's depth, over the callee's singles. */
  lemma {:induction false} CallNests(stack: seq<seq<Tree>>)
    requires Shaped(stack) && |stack| >= 2
    ensures var n := |stack|;
      var caller := stack[n - 2][|stack[n - 2]| - 1];
      var call := CloseCall(caller, stack[n - 1]);
      && caller.Single? && WellFormed(call) && AtDepth(call, n - 2)
      && Flatten(call) == Flatten(caller) + FlattenAll(stack[n - 1])
  {
    var n := |stack|;
    var below, group := stack[n - 2], stack[n - 1];
    var caller := below[|below| - 1];
    assert ListAt(below, n - 2) && ListAt(group, n - 1);
    assert WellFormed(caller) && AtDepth(caller, n - 2) && caller.Single?;
    LevelIsDepth(caller, n - 2);
    FoldNests(group, n - 1);
    var called := Fold(group);
    LevelIsDepth(called, n - 1);
    assert CloseCall(caller, group) == Call(caller, called, n - 2);
  }

  /** `list_to_call` keeps the shape. */
  lemma {:induction false} CloseTopShaped(stack: seq<seq<Tree>>)
    requires Shaped(stack) && |stack| >= 2
    ensures CloseTop(stack).Ok?
    ensures var closed := CloseTop(stack).value;
      Shaped(closed) && Last(closed).Call? && Last(closed).level == |closed| - 1
  {
    var n := |stack|;
    var below := stack[n - 2];
    CallNests(stack);
    CloseTopValue(stack);
    var top := below[..|below| - 1] + [CloseCall(below[|below| - 1], stack[n - 1])];
    var rest := stack[..n - 1];
    assert ListAt(below, n - 2);
    forall j | 0 <= j < |top|
      ensures WellFormed(top[j]) && AtDepth(top[j], n - 2) && (top[j].Single? || top[j].Call?)
    {
      if j < |below| - 1 {
        assert top[j] == below[j];
      }
    }
    assert n == 2 ==> |top| == 1;
    ShapedPop(stack);
    ShapedTop(rest, top);
    assert rest[..n - 2] + [top] == stack[..n - 2] + [top];
  }

  /** The singles of a stack whose top list ends in `last`. */
  lemma {:induction false} FlattenStackLast(rest: seq<seq<Tree>>, kept: seq<Tree>, last: Tree)
    ensures FlattenStack(rest + [kept + [last]]) == FlattenStack(rest) + FlattenAll(kept) + Flatten(last)
  {
    assert (kept + [last])[..|kept|] == kept;
    FlattenStackSnoc(rest, kept + [last]);
  }

  /**
   * `list_to_call` keeps the singles in pre-order: the caller's single is
   * followed by its callee's, whenever the call flattens to exactly those.
   */
  lemma {:induction false} CloseTopOrder(stack: seq<seq<Tree>>)
    requires Stacked(stack) && Filled(stack) && |stack| >= 2
    requires var n := |stack|; var caller := stack[n - 2][|stack[n - 2]| - 1];
      Flatten(CloseCall(caller, stack[n - 1])) == Flatten(caller) + FlattenAll(stack[n - 1])
    ensures CloseTop(stack).Ok? && FlattenStack(CloseTop(stack).value) == FlattenStack(stack)
  {
    var n := |stack|;
    var below := stack[n - 2];
    var kept, caller := below[..|below| - 1], below[|below| - 1];
    CloseTopValue(stack);
    FlattenStackLast(stack[..n - 2], kept, CloseCall(caller, stack[n - 1]));
    assert FlattenStack(stack) == FlattenStack(stack[..n - 1]) + FlattenAll(stack[n - 1]);
    assert stack[..n - 1][..n - 2] == stack[..n - 2] && stack[..n - 1][n - 2] == below;
    assert FlattenStack(stack[..n - 1]) == FlattenStack(stack[..n - 2]) + FlattenAll(below);
    assert FlattenAll(below) == FlattenAll(kept) + Flatten(caller);
    ConcatAssoc(FlattenStack(stack[..n - 2]) + FlattenAll(kept), Flatten(caller), FlattenAll(stack[n - 1]));
    ConcatAssoc(FlattenStack(stack[..n - 2]), FlattenAll(kept), Flatten(caller));
  }

  /** A single at the level of the top list joins it. */
  lemma {:induction false} AppendNests(stack: seq<seq<Tree>>, s: Tree)
    requires Shaped(stack) && s.Single? && WellFormed(s) && AtDepth(s, |stack| - 1) && |stack| >= 2
    ensures Shaped(Append(stack, s)) && FlattenStack(Append(stack, s)) == FlattenStack(stack) + [s]
  {
    var top := |stack| - 1;
    var l := stack[top] + [s];
    assert ListAt(l, top) by {
      assert ListAt(stack[top], top);
      forall j | 0 <= j < |l|
        ensures WellFormed(l[j]) && AtDepth(l[j], top)
      {
        if j < |stack[top]| {
          assert l[j] == stack[top][j];
        }
      }
    }
    ShapedTop(stack, l);
    FlattenStackLast(stack[..top], stack[top], s);
    assert FlattenStack(stack) == FlattenStack(stack[..top]) + FlattenAll(stack[top]);
    FlattenAllCons(s, []);
  }

  /** A single one level deeper than the top list opens a list of its own. */
  lemma {:induction false} PushNests(stack: seq<seq<Tree>>, s: Tree)
    requires Shaped(stack) && Last(stack).Single? && s.Single? && WellFormed(s) && AtDepth(s, |stack|)
    ensures Shaped(stack + [[s]]) && FlattenStack(stack + [[s]]) == FlattenStack(stack) + [s]
  {
    ShapedPush(stack, s);
    FlattenStackSnoc(stack, [s]);
    FlattenAllCons(s, []);
  }

  /** One placement keeps the shape, leaves the top at the single's depth and appends it to the pre-order. */
  lemma {:induction false} PlaceNests(stack: seq<seq<Tree>>, s: Tree)
    requires Shaped(stack) && s.Single? && WellFormed(s) && 1 <= s.level <= |stack|
    requires s.level == |stack| ==> Last(stack).Single?
    ensures Place(stack, s).Ok?
    ensures var placed := Place(stack, s).value;
      && Shaped(placed) && |placed| == s.level + 1 && FlattenStack(placed) == FlattenStack(stack) + [s]
    decreases |stack|
  {
    var top := |stack| - 1;
    assert ListAt(stack[top], top);
    LevelIsDepth(Last(stack), top);
    if s.level == top {
      AppendNests(stack, s);
    } else if s.level > top {
      PushNests(stack, s);
    } else {
      CloseTopShaped(stack);
      CallNests(stack);
      CloseTopOrder(stack);
      PlaceNests(CloseTop(stack).value, s);
    }
  }

  /**
   * Every run of activations whose parents come earlier and whose levels
   * rise by at most one from one activation to the next.
   */
  ghost predicate Nested(acts: seq<Activation>, n: nat)
    requires n <= |acts|
    decreases n
  {
    if n <= 1 then n == 1
    else
      && Nested(acts, n - 1)
      && LevelMap(acts, n - 1).Ok? && LevelMap(acts, n).Ok?
      && LevelOf(acts, n) <= LevelOf(acts, n - 1) + 1
  }

  /** One step of a nested run: the level is at least one and rises by at most one. */
  lemma {:induction false} NestedStep(acts: seq<Activation>, n: nat)
    requires 2 <= n <= |acts| && Nested(acts, n)
    ensures Nested(acts, n - 1) && LevelMap(acts, n - 1).Ok? && LevelMap(acts, n).Ok?
    ensures 1 <= LevelOf(acts, n) <= LevelOf(acts, n - 1) + 1
  {
  }

  /** Appending the `n`-th activation's single to the singles of the first `n - 1`. */
  lemma {:induction false} OrderStep(acts: seq<Activation>, n: nat, prev: seq<Tree>, s: Tree)
    requires 1 <= n <= |acts| && (forall i :: 0 <= i < |prev| ==> prev[i].Single?) && s.Single?
    requires ActsOf(prev) == acts[..n - 1] && s.act == acts[n - 1]
    ensures ActsOf(prev + [s]) == acts[..n]
  {
    ActsOfSnoc(prev, s);
    assert acts[..n - 1] + [acts[n - 1]] == acts[..n];
  }

  /** One turn of the loop of `generate_graph`, once the level lookup succeeds. */
  lemma {:induction false} ScanStep(acts: seq<Activation>, n: nat, v: Version)
    requires 2 <= n <= |acts| && Scan(acts, n - 1, v).Ok? && LevelMap(acts, n).Ok?
    ensures Scan(acts, n, v) == PlaceBy(v, Scan(acts, n - 1, v).value, FromActivation(acts[n - 1], LevelOf(acts, n)))
  {
  }

  /** What the loop of `generate_graph` keeps after `n` activations of a nested run. */
  ghost predicate Holds(acts: seq<Activation>, n: nat, stack: seq<seq<Tree>>)
    requires 1 <= n <= |acts|
  {
    && LevelMap(acts, n).Ok? && Shaped(stack) && |stack| == LevelOf(acts, n) + 1
    && Last(stack) == FromActivation(acts[n - 1], LevelOf(acts, n))
    && ActsOf(FlattenStack(stack)) == acts[..n]
  }

  /** The singles of a one-list stack holding one single are that single. */
  lemma {:induction false} FlattenOne(s: Tree)
    requires s.Single?
    ensures FlattenStack([[s]]) == [s]
  {
    assert FlattenAll([s]) == [s] by { assert [s][..0] == []; }
    assert [[s]][..0] == [];
  }

  /** The activation of a one-single list is the first of the trace. */
  lemma {:induction false} ActsOfOne(acts: seq<Activation>, s: Tree)
    requires |acts| >= 1 && s.Single? && s.act == acts[0]
    ensures ActsOf([s]) == acts[..1]
  {
    var r := ActsOf([s]);
    assert |r| == 1 && r[0] == acts[0];
    assert |acts[..1]| == 1 && acts[..1][0] == acts[0];
  }

  /** The stack `generate_graph` starts from holds exactly the first activation. */
  lemma {:induction false} FirstOrder(acts: seq<Activation>)
    requires |acts| >= 1
    ensures ActsOf(FlattenStack([[FromActivation(acts[0], 0)]])) == acts[..1]
  {
    FlattenOne(FromActivation(acts[0], 0));
    ActsOfOne(acts, FromActivation(acts[0], 0));
  }

  /** The stack `generate_graph` starts from has the shape. */
  lemma {:induction false} FirstShaped(a: Activation)
    ensures Shaped([[FromActivation(a, 0)]])
  {
    var s := FromActivation(a, 0);
    assert ListAt([[s]][0], 0);
  }

  /** The stack `generate_graph` starts from holds the first activation at level 0. */
  lemma {:induction false} FirstHolds(acts: seq<Activation>)
    requires |acts| >= 1
    ensures Holds(acts, 1, [[FromActivation(acts[0], 0)]])
  {
    FirstOrder(acts);
    FirstShaped(acts[0]);
    assert LevelOf(acts, 1) == 0;
  }

  /** `generate_graph` returns the last element once the pending lists are closed. */
  lemma {:induction false} BuildValue(acts: seq<Activation>)
    requires |acts| >= 1 && Scan(acts, |acts|, Corrected).Ok?
    ensures Build(acts) == Ok(Last(CloseAll(Scan(acts, |acts|, Corrected).value).value))
  {
  }

  /** A shaped stack of one list holds one well-formed root at depth 0 and nothing else. */
  lemma {:induction false} RootNests(closed: seq<seq<Tree>>)
    requires Shaped(closed) && |closed| == 1
    ensures WellFormed(closed[0][0]) && AtDepth(closed[0][0], 0) && FlattenStack(closed) == Flatten(closed[0][0])
  {
    assert ListAt(closed[0], 0);
    assert closed[..0] == [] && closed[0][..0] == [];
    assert FlattenAll(closed[0]) == Flatten(closed[0][0]);
  }

  /** Placing the next activation of a nested run keeps `Holds`. */
  lemma {:induction false} PlaceHolds(acts: seq<Activation>, n: nat, stack: seq<seq<Tree>>)
    requires 2 <= n <= |acts| && Nested(acts, n) && Holds(acts, n - 1, stack)
    ensures var s := FromActivation(acts[n - 1], LevelOf(acts, n));
      Place(stack, s).Ok? && Holds(acts, n, Place(stack, s).value)
  {
    NestedStep(acts, n);
    var s := FromActivation(acts[n - 1], LevelOf(acts, n));
    PlaceNests(stack, s);
    OrderStep(acts, n, FlattenStack(stack), s);
  }

  /** The loop of `generate_graph` over a nested run: the stack is shaped, its top at the last level, and holds the run in order. */
  lemma {:induction false} ScanNests(acts: seq<Activation>, n: nat)
    requires 1 <= n <= |acts| && Nested(acts, n)
    ensures Scan(acts, n, Corrected).Ok? && Holds(acts, n, Scan(acts, n, Corrected).value)
    decreases n
  {
    if n == 1 {
      FirstHolds(acts);
      assert Scan(acts, 1, Corrected) == Ok([[FromActivation(acts[0], 0)]]);
    } else {
      NestedStep(acts, n);
      ScanNests(acts, n - 1);
      PlaceHolds(acts, n, Scan(acts, n - 1, Corrected).value);
      ScanStep(acts, n, Corrected);
    }
  }

  /** The final loop keeps the shape and the pre-order and leaves one list. */
  lemma {:induction false} CloseAllNests(stack: seq<seq<Tree>>)
    requires Shaped(stack)
    ensures Shaped(CloseAll(stack).value) && FlattenStack(CloseAll(stack).value) == FlattenStack(stack)
    decreases |stack|
  {
    if |stack| > 1 {
      CloseTopShaped(stack);
      CallNests(stack);
      CloseTopOrder(stack);
      CloseAllNests(CloseTop(stack).value);
    }
  }

  /**
   * The builder's promise: for a trace whose parents come before their
   * children and whose levels rise by at most one at a time, the result is a
   * well-formed tree with every element at its own level that holds every
   * activation once, in start order.
   */
  lemma {:induction false} BuildNests(acts: seq<Activation>)
    requires |acts| >= 1 && Nested(acts, |acts|)
    ensures Build(acts).Ok?
    ensures var root := Build(acts).value;
      WellFormed(root) && AtDepth(root, 0) && ActsOf(Flatten(root)) == acts
  {
    ScanNests(acts, |acts|);
    FinishNests(Scan(acts, |acts|, Corrected).value);
    BuildValue(acts);
    assert acts[..|acts|] == acts;
  }

  /** Closing a shaped stack leaves one well-formed root at depth 0 over the same singles. */
  lemma {:induction false} FinishNests(stack: seq<seq<Tree>>)
    requires Shaped(stack)
    ensures var root := Last(CloseAll(stack).value);
      WellFormed(root) && AtDepth(root, 0) && Flatten(root) == FlattenStack(stack)
  {
    CloseAllNests(stack);
    var closed := CloseAll(stack).value;
    RootNests(closed);
    assert Last(closed) == closed[0][0];
  }

  /** A parent lookup that fails after a nested run makes the whole build fail with it. */
  lemma {:induction false} UnknownParentFails(acts: seq<Activation>, n: nat)
    requires 2 <= n <= |acts| && Nested(acts, n - 1) && LevelMap(acts, n).Err?
    ensures Build(acts) == Err(UnknownParent)
  {
    ScanNests(acts, n - 1);
    assert LevelMap(acts, n).error == UnknownParent;
    assert Scan(acts, n, Corrected) == Err(UnknownParent);
    ScanPropagates(acts, n, |acts|, Corrected);
  }

  lemma {:induction false} ScanPropagates(acts: seq<Activation>, n: nat, m: nat, v: Version)
    requires 1 <= n <= m <= |acts| && Scan(acts, n, v).Err?
    ensures Scan(acts, m, v) == Scan(acts, n, v)
    decreases m
  {
    if m > n {
      ScanPropagates(acts, n, m - 1, v);
    }
  }

  // ---------------------------------------------------------------------
  // The level drop of `generate_graph` as the source writes it
  // ---------------------------------------------------------------------

  /**
   * A trace whose last activation returns two levels at once: `main` calls
   * `a`, `a` calls `b`, `b` calls `c`, and then `main` calls `h`.
   */
  function DropTrace(): seq<Activation>
  {
    [ Activation(0, None, "main", 1, 5), Activation(1, Some(0), "a", 1, 4), Activation(2, Some(1), "b", 1, 3),
      Activation(3, Some(2), "c", 1, 2), Activation(4, Some(0), "h", 1, 1) ]
  }

  /**
   * The source's placement, on a shaped stack, of a single that returns two
   * or more levels at once: one list is closed and the single joins the list
   * above, which sits deeper than the single's own level.
   */
  lemma {:induction false} PlaceOnceMisplaces(stack: seq<seq<Tree>>, s: Tree)
    requires Shaped(stack) && s.Single? && s.level + 2 <= |stack| - 1
    ensures PlaceOnce(stack, s).Ok?
    ensures var placed := PlaceOnce(stack, s).value;
      && |placed| == |stack| - 1 && Last(placed) == s && !AtDepth(Last(placed), |placed| - 1)
  {
    LevelIsDepth(Last(stack), |stack| - 1) by {
      assert ListAt(stack[|stack| - 1], |stack| - 1);
    }
    CloseTopShaped(stack);
  }

  /**
   * On that trace, which is nested, `h` returns from level 3 to level 1, and
   * the source's loop, having pushed one list per call, leaves `h` in a list
   * at depth 2.
   */
  lemma {:induction false} DropMisplaces()
    ensures var acts := DropTrace();
      && Nested(acts, 5) && LevelOf(acts, 4) == 3 && LevelOf(acts, 5) == 1
      && Scan(acts, 5, AsWritten).Ok?
      && var stack := Scan(acts, 5, AsWritten).value; Last(stack) == FromActivation(acts[4], 1) && !AtDepth(Last(stack), |stack| - 1)
  {
    var acts := DropTrace();
    DropLevels(acts);
    DropStack(acts);
    var stack := Scan(acts, 4, AsWritten).value;
    var h := FromActivation(acts[4], 1);
    assert Scan(acts, 5, AsWritten) == PlaceOnce(stack, h);
    PlaceOnceMisplaces(stack, h);
  }

  /** The levels `generate_graph` gives that trace: 0, 1, 2, 3 down the calls, then 1 for `h`. */
  lemma {:induction false} DropLevels(acts: seq<Activation>)
    requires acts == DropTrace()
    ensures Nested(acts, 5)
    ensures LevelMap(acts, 2).Ok? && LevelOf(acts, 2) == 1
    ensures LevelMap(acts, 3).Ok? && LevelOf(acts, 3) == 2
    ensures LevelMap(acts, 4).Ok? && LevelOf(acts, 4) == 3
    ensures LevelMap(acts, 5).Ok? && LevelOf(acts, 5) == 1
  {
    var m1, m2, m3, m4 := map[0 := 0], map[0 := 0, 1 := 1], map[0 := 0, 1 := 1, 2 := 2], map[0 := 0, 1 := 1, 2 := 2, 3 := 3];
    assert LevelMap(acts, 1) == Ok(m1);
    assert ParentLevel(m1, acts[1]) == Ok(1) && m1[1 := 1] == m2;
    assert LevelMap(acts, 2) == Ok(m2);
    assert ParentLevel(m2, acts[2]) == Ok(2) && m2[2 := 2] == m3;
    assert LevelMap(acts, 3) == Ok(m3);
    assert ParentLevel(m3, acts[3]) == Ok(3) && m3[3 := 3] == m4;
    assert LevelMap(acts, 4) == Ok(m4);
    assert ParentLevel(m4, acts[4]) == Ok(1);
    assert LevelMap(acts, 5) == Ok(m4[4 := 1]);
  }

  /** The stack the source's loop holds on that trace before `h`: one list per call, at its depth. */
  lemma {:induction false} DropStack(acts: seq<Activation>)
    requires acts == DropTrace()
    requires LevelMap(acts, 2).Ok? && LevelOf(acts, 2) == 1
    requires LevelMap(acts, 3).Ok? && LevelOf(acts, 3) == 2
    requires LevelMap(acts, 4).Ok? && LevelOf(acts, 4) == 3
    ensures Scan(acts, 4, AsWritten).Ok? && Shaped(Scan(acts, 4, AsWritten).value) && |Scan(acts, 4, AsWritten).value| == 4
  {
    var s0, s1, s2, s3 := FromActivation(acts[0], 0), FromActivation(acts[1], 1), FromActivation(acts[2], 2), FromActivation(acts[3], 3);
    var k0 := [[s0]];
    assert Shaped(k0) by {
      assert k0[..0] == [] && ListAt(k0[0], 0);
    }
    assert Scan(acts, 1, AsWritten) == Ok(k0);
    ShapedPush(k0, s1);
    assert Scan(acts, 2, AsWritten) == Ok(k0 + [[s1]]);
    ShapedPush(k0 + [[s1]], s2);
    assert Scan(acts, 3, AsWritten) == Ok(k0 + [[s1]] + [[s2]]);
    ShapedPush(k0 + [[s1]] + [[s2]], s3);
    assert Scan(acts, 4, AsWritten) == Ok(k0 + [[s1]] + [[s2]] + [[s3]]);
  }

  /**
   * Where the defect does not bite: a single that returns at most one level
   * is placed by the source exactly as by the corrected placement.
   */
  lemma {:induction false} PlaceOnceAgrees(stack: seq<seq<Tree>>, s: Tree)
    requires Shaped(stack) && s.Single? && s.level + 2 >= |stack|
    ensures PlaceOnce(stack, s) == Place(stack, s)
  {
    assert ListAt(stack[|stack| - 1], |stack| - 1);
    LevelIsDepth(Last(stack), |stack| - 1);
    if s.level < Last(stack).level {
      CloseTopShaped(stack);
    }
  }

  /** Along the first `n` activations of a nested run, no level drops by two or more at once. */
  ghost predicate ShallowDrops(acts: seq<Activation>, n: nat)
    requires 1 <= n <= |acts| && Nested(acts, n)
    decreases n
  {
    n == 1 || (ShallowDrops(acts, n - 1) && LevelOf(acts, n - 1) <= LevelOf(acts, n) + 1)
  }

  /** Over such a run the loop of `generate_graph` as written leaves the corrected loop's stack. */
  lemma {:induction false} ScanAgrees(acts: seq<Activation>, n: nat)
    requires 1 <= n <= |acts| && Nested(acts, n) && ShallowDrops(acts, n)
    ensures Scan(acts, n, AsWritten) == Scan(acts, n, Corrected)
    decreases n
  {
    if n >= 2 {
      NestedStep(acts, n);
      ScanAgrees(acts, n - 1);
      ScanNests(acts, n - 1);
      var stack := Scan(acts, n - 1, Corrected).value;
      var s := FromActivation(acts[n - 1], LevelOf(acts, n));
      PlaceOnceAgrees(stack, s);
      ScanStep(acts, n, AsWritten);
      ScanStep(acts, n, Corrected);
    }
  }

  /**
   * `generate_graph` as written, on a non-empty nested trace that never
   * returns two levels at once, is the corrected builder: it builds a
   * well-formed tree at level 0 that holds every activation once, in order.
   */
  lemma {:induction false} BuildAgrees(acts: seq<Activation>)
    requires |acts| >= 1 && Nested(acts, |acts|) && ShallowDrops(acts, |acts|)
    ensures BuildAsWritten(acts) == Build(acts)
    ensures BuildAsWritten(acts).Ok?
    ensures var root := BuildAsWritten(acts).value;
      WellFormed(root) && AtDepth(root, 0) && ActsOf(Flatten(root)) == acts
  {
    ScanAgrees(acts, |acts|);
    BuildNests(acts);
  }

  /**
   * A trace that is not nested: `main` calls `a`, `a` calls `b`, `main`
   * calls `x`, then `y` names the finished `b` as its parent and `z` the
   * finished `a`.
   */
  function StrayTrace(): seq<Activation>
  {
    [ Activation(0, None, "main", 1, 6), Activation(1, Some(0), "a", 1, 5), Activation(2, Some(1), "b", 1, 4),
      Activation(3, Some(0), "x", 1, 3), Activation(4, Some(2), "y", 1, 2), Activation(5, Some(1), "z", 1, 1) ]
  }

  /** The levels of that trace are 0, 1, 2, 1, 3, 2, so it rises by two at `y` and is not nested. */
  lemma {:induction false} StrayLevels(acts: seq<Activation>)
    requires acts == StrayTrace()
    ensures LevelMap(acts, 2).Ok? && LevelOf(acts, 2) == 1
    ensures LevelMap(acts, 3).Ok? && LevelOf(acts, 3) == 2
    ensures LevelMap(acts, 4).Ok? && LevelOf(acts, 4) == 1
    ensures LevelMap(acts, 5).Ok? && LevelOf(acts, 5) == 3
    ensures LevelMap(acts, 6).Ok? && LevelOf(acts, 6) == 2
    ensures !Nested(acts, 6)
  {
    var m1, m2, m3 := map[0 := 0], map[0 := 0, 1 := 1], map[0 := 0, 1 := 1, 2 := 2];
    var m4 := m3[3 := 1];
    var m5 := m4[4 := 3];
    assert LevelMap(acts, 1) == Ok(m1);
    assert ParentLevel(m1, acts[1]) == Ok(1) && m1[1 := 1] == m2;
    assert LevelMap(acts, 2) == Ok(m2);
    assert ParentLevel(m2, acts[2]) == Ok(2) && m2[2 := 2] == m3;
    assert LevelMap(acts, 3) == Ok(m3);
    assert ParentLevel(m3, acts[3]) == Ok(1);
    assert LevelMap(acts, 4) == Ok(m4);
    assert ParentLevel(m4, acts[4]) == Ok(3);
    assert LevelMap(acts, 5) == Ok(m5);
    assert ParentLevel(m5, acts[5]) == Ok(2);
    assert LevelMap(acts, 6) == Ok(m5[5 := 2]);
    assert !Nested(acts, 5);
  }

  /** `list_to_call` on three one-element lists makes the middle element call the top one. */
  lemma {:induction false} CloseTopSingle(a: Tree, b: Tree, c: Tree)
    requires a.Single? && b.Single? && c.Single?
    ensures CloseTop([[a], [b], [c]]) == Ok([[a], [CloseCall(b, [c])]])
  {
    var k: seq<seq<Tree>> := [[a], [b], [c]];
    assert k[..2] == [[a], [b]] && k[..2][..1] == [[a]] && [b][..0] == [];
    assert [] + [CloseCall(b, [c])] == [CloseCall(b, [c])];
    assert [[a]] + [[CloseCall(b, [c])]] == [[a], [CloseCall(b, [c])]];
  }

  /** `list_to_call` under a two-element list makes its second element call the top list. */
  lemma {:induction false} CloseTopPair(a: Tree, p: Tree, q: Tree, r: Tree)
    requires a.Single? && (p.Single? || p.Call?) && (q.Single? || q.Call?) && r.Single?
    ensures CloseTop([[a], [p, q], [r]]) == Ok([[a], [p, CloseCall(q, [r])]])
  {
    var k: seq<seq<Tree>> := [[a], [p, q], [r]];
    assert k[..2] == [[a], [p, q]] && k[..2][..1] == [[a]] && [p, q][..1] == [p];
    assert [p] + [CloseCall(q, [r])] == [p, CloseCall(q, [r])];
    assert [[a]] + [[p, CloseCall(q, [r])]] == [[a], [p, CloseCall(q, [r])]];
  }

  /** A single at the level of the last element joins the top list. */
  lemma {:induction false} JoinPlace(stack: seq<seq<Tree>>, s: Tree)
    requires Stacked(stack) && Filled(stack) && s.Single? && s.level == Last(stack).level
    ensures Place(stack, s) == Ok(Append(stack, s))
  {
  }

  /** A single deeper than the last element opens a list of its own. */
  lemma {:induction false} PushPlace(stack: seq<seq<Tree>>, s: Tree)
    requires Stacked(stack) && Filled(stack) && s.Single? && Last(stack).level < s.level
    ensures Place(stack, s) == Ok(stack + [[s]])
  {
  }

  /** A single one level up from the top list closes it and joins the call it becomes. */
  lemma {:induction false} CloseAndJoin(a: Tree, b: Tree, c: Tree, s: Tree)
    requires a.Single? && b.Single? && c.Single? && s.Single? && b.level == s.level < c.level
    ensures Place([[a], [b], [c]], s) == Ok([[a], [CloseCall(b, [c]), s]])
  {
    CloseOnce(a, b, c, s);
    JoinTwo(a, CloseCall(b, [c]), s);
  }

  /** A single shallower than the top of three one-element lists is placed as on the stack `list_to_call` leaves. */
  lemma {:induction false} CloseOnce(a: Tree, b: Tree, c: Tree, s: Tree)
    requires a.Single? && b.Single? && c.Single? && s.Single? && s.level < c.level
    ensures Place([[a], [b], [c]], s) == Place([[a], [CloseCall(b, [c])]], s)
  {
    CloseTopSingle(a, b, c);
  }

  /** The same under a two-element list. */
  lemma {:induction false} CloseOncePair(a: Tree, p: Tree, q: Tree, r: Tree, s: Tree)
    requires a.Single? && (p.Single? || p.Call?) && q.Single? && r.Single? && s.Single? && s.level < r.level
    ensures Place([[a], [p, q], [r]], s) == Place([[a], [p, CloseCall(q, [r])]], s)
  {
    CloseTopPair(a, p, q, r);
  }

  /** A single at the level of the last element of a two-list stack joins the top list. */
  lemma {:induction false} JoinTwo(a: Tree, p: Tree, s: Tree)
    requires a.Single? && (p.Single? || p.Call?) && s.Single? && p.level == s.level
    ensures Place([[a], [p]], s) == Ok([[a], [p, s]])
  {
    var k: seq<seq<Tree>> := [[a], [p]];
    JoinPlace(k, s);
    assert k[..1] == [[a]] && k[1] + [s] == [p, s];
    assert Append(k, s) == [[a]] + [[p, s]] == [[a], [p, s]];
    assert Place(k, s) == Ok([[a], [p, s]]);
  }

  /** A single between the levels of the two top lists closes the top one and opens a list of its own. */
  lemma {:induction false} CloseAndPush(a: Tree, p: Tree, q: Tree, r: Tree, s: Tree)
    requires a.Single? && (p.Single? || p.Call?) && q.Single? && r.Single? && s.Single?
    requires q.level < s.level < r.level
    ensures Place([[a], [p, q], [r]], s) == Ok([[a], [p, CloseCall(q, [r])], [s]])
  {
    CloseOncePair(a, p, q, r, s);
    PushPlace([[a], [p, CloseCall(q, [r])]], s);
    assert [[a], [p, CloseCall(q, [r])]] + [[s]] == [[a], [p, CloseCall(q, [r])], [s]];
  }

  /** Closing two lists makes the last caller of the bottom one call the top one. */
  lemma {:induction false} CloseTwo(a: Tree, top: seq<Tree>)
    requires a.Single? && |top| >= 1 && forall i :: 0 <= i < |top| ==> top[i].Single? || top[i].Call?
    ensures CloseAll([[a], top]) == Ok([[CloseCall(a, top)]])
  {
    var k: seq<seq<Tree>> := [[a], top];
    var root := CloseCall(a, top);
    assert k[..1] == [[a]] && [[a]][..0] == [] && [a][..0] == [];
    assert [] + [root] == [root] && [] + [[root]] == [[root]];
    assert CloseTop(k) == Ok([[root]]);
  }

  /** Closing that stack nests the last call under the caller that opened its list. */
  lemma {:induction false} CloseThree(a: Tree, p: Tree, q: Tree, r: Tree)
    requires a.Single? && (p.Single? || p.Call?) && q.Call? && r.Single?
    ensures CloseAll([[a], [p, q], [r]]) == Ok([[CloseCall(a, [p, CloseCall(q, [r])])]])
  {
    CloseTopPair(a, p, q, r);
    CloseTwo(a, [p, CloseCall(q, [r])]);
  }

  /** That stack finishes with the call it closes into. */
  lemma {:induction false} FinishThree(a: Tree, p: Tree, q: Tree, r: Tree)
    requires a.Single? && (p.Single? || p.Call?) && q.Call? && r.Single?
    ensures Finish(Ok([[a], [p, q], [r]])) == Ok(CloseCall(a, [p, CloseCall(q, [r])]))
  {
    CloseThree(a, p, q, r);
  }

  /** A caller whose list holds a call made by a call is not well formed. */
  lemma {:induction false} CallerIsCall(a: Tree, p: Tree, c: Tree)
    requires a.Single? && (p.Single? || p.Call?) && c.Call? && c.caller.Call?
    ensures !WellFormed(CloseCall(a, [p, c]))
  {
    var called := CloseCall(a, [p, c]).called;
    assert called.Group? && called.elements == [p, c];
    assert called.elements[1] == c && !WellFormed(c);
  }

  /** The stack the corrected placement holds on that trace after its last activation. */
  lemma {:induction false} StrayScan(acts: seq<Activation>)
    requires acts == StrayTrace()
    ensures var s0, s3 := FromActivation(acts[0], 0), FromActivation(acts[3], 1);
      var s1, s5 := FromActivation(acts[1], 1), FromActivation(acts[5], 2);
      var s2, s4 := FromActivation(acts[2], 2), FromActivation(acts[4], 3);
      Scan(acts, 6, Corrected) == Ok([[s0], [CloseCall(s1, [s2]), CloseCall(s3, [s4])], [s5]])
  {
    StrayLevels(acts);
    var s0, s1, s2 := FromActivation(acts[0], 0), FromActivation(acts[1], 1), FromActivation(acts[2], 2);
    var s3, s4, s5 := FromActivation(acts[3], 1), FromActivation(acts[4], 3), FromActivation(acts[5], 2);
    var k1: seq<seq<Tree>> := [[s0]];
    assert Scan(acts, 1, Corrected) == Ok(k1);
    ScanStep(acts, 2, Corrected);
    PushPlace(k1, s1);
    var k2 := k1 + [[s1]];
    ScanStep(acts, 3, Corrected);
    PushPlace(k2, s2);
    assert k2 + [[s2]] == [[s0], [s1], [s2]];
    ScanStep(acts, 4, Corrected);
    CloseAndJoin(s0, s1, s2, s3);
    var k4: seq<seq<Tree>> := [[s0], [CloseCall(s1, [s2]), s3]];
    ScanStep(acts, 5, Corrected);
    PushPlace(k4, s4);
    assert k4 + [[s4]] == [[s0], [CloseCall(s1, [s2]), s3], [s4]];
    ScanStep(acts, 6, Corrected);
    CloseAndPush(s0, CloseCall(s1, [s2]), s3, s4, s5);
  }

  /**
   * The stack of that shape, once closed, makes the call `x` made the caller
   * of `z`, inside `main`'s group: a call where a single belongs.
   */
  lemma {:induction false} StrayFinish(a: Tree, p: Tree, q: Tree, r: Tree)
    requires a.Single? && p.Call? && q.Call? && r.Single?
    ensures Finish(Ok([[a], [p, q], [r]])).Ok? && !WellFormed(Finish(Ok([[a], [p, q], [r]])).value)
  {
    FinishThree(a, p, q, r);
    CallerIsCall(a, p, CloseCall(q, [r]));
  }

  /** A trace that scans to a stack of that shape builds to a tree that is not well formed. */
  lemma {:induction false} StrayBuild(acts: seq<Activation>, a: Tree, p: Tree, q: Tree, r: Tree)
    requires a.Single? && p.Call? && q.Call? && r.Single?
    requires |acts| >= 1 && Scan(acts, |acts|, Corrected) == Ok([[a], [p, q], [r]])
    ensures Build(acts).Ok? && !WellFormed(Build(acts).value)
  {
    StrayFinish(a, p, q, r);
  }

  /**
   * On that trace the corrected builder succeeds but places the call `x`
   * made where a caller belongs: the tree it returns is not well formed.
   */
  lemma {:induction false} StrayMisshapes(acts: seq<Activation>)
    requires acts == StrayTrace()
    ensures !Nested(acts, |acts|)
    ensures Build(acts).Ok? && !WellFormed(Build(acts).value)
  {
    StrayLevels(acts);
    StrayScan(acts);
    var s0, s3 := FromActivation(acts[0], 0), FromActivation(acts[3], 1);
    var s1, s5 := FromActivation(acts[1], 1), FromActivation(acts[5], 2);
    var s2, s4 := FromActivation(acts[2], 2), FromActivation(acts[4], 3);
    StrayBuild(acts, s0, CloseCall(s1, [s2]), CloseCall(s3, [s4]), s5);
  }



  // ---------------------------------------------------------------------
  // The source's loops
  // ---------------------------------------------------------------------

  /** `list_to_call(stack)`, on a value of the stack. */
  method ListToCall(stack: seq<seq<Tree>>) returns (r: Result<seq<seq<Tree>>, BuildError>)
    requires Stacked(stack)
    ensures r == CloseTop(stack)
  {
    if |stack| == 0 {
      return Err(IndexError);
    }
    var group := stack[|stack| - 1];
    var rest := stack[..|stack| - 1];
    if |group| == 0 {
      return Err(IndexError);
    }
    var next := FoldList(group);
    if |rest| == 0 {
      return Err(IndexError);
    }
    var below := rest[|rest| - 1];
    if |below| == 0 {
      return Err(IndexError);
    }
    var caller := below[|below| - 1];
    var call := Call(caller, Relevel(next, caller.level + 1), caller.level);
    assert call == CloseCall(caller, group);
    r := Ok(rest[..|rest| - 1] + [below[..|below| - 1] + [call]]);
  }

  /** The inner loop of `list_to_call`: pop the list from the back, folding each element into the next with `sequence`. */
  method FoldList(group: seq<Tree>) returns (next: Tree)
    requires |group| >= 1 && forall i :: 0 <= i < |group| ==> group[i].Single? || group[i].Call?
    ensures next == Fold(group)
  {
    var pending := group[..|group| - 1];
    next := group[|group| - 1];
    assert group[|group| - 1..] == [next];
    while |pending| > 0
      invariant pending == group[..|pending|]
      invariant next == Fold(group[|pending|..])
    {
      var previous := pending[|pending| - 1];
      assert group[|pending| - 1..][1..] == group[|pending|..];
      pending := pending[..|pending| - 1];
      next := Sequence(previous, next);
    }
    assert group[0..] == group;
  }

  /**
   * The branches of the loop of `generate_graph` that place a new single:
   * as written, a shallower single closes one list and joins the list below;
   * corrected, lists are closed until the top one is at the single's level.
   */
  method PlaceSingle(stack: seq<seq<Tree>>, s: Tree, v: Version) returns (r: Result<seq<seq<Tree>>, BuildError>)
    requires Stacked(stack) && Filled(stack) && s.Single?
    ensures r == PlaceBy(v, stack, s)
  {
    if v == AsWritten {
      r := PlaceSingleOnce(stack, s);
    } else {
      r := PlaceSingleClosing(stack, s);
    }
  }

  /** The `if`/`elif`/`else` of that loop as the source writes it. */
  method PlaceSingleOnce(stack: seq<seq<Tree>>, s: Tree) returns (r: Result<seq<seq<Tree>>, BuildError>)
    requires Stacked(stack) && Filled(stack) && s.Single?
    ensures r == PlaceOnce(stack, s)
  {
    var last := Last(stack);
    if s.level == last.level {
      r := Ok(Append(stack, s));
    } else if s.level > last.level {
      r := Ok(stack + [[s]]);
    } else {
      var closed := ListToCall(stack);
      if closed.Err? {
        return Err(closed.error);
      }
      r := Ok(Append(closed.value, s));
    }
  }

  /** The corrected body: close lists while the single is shallower than the last element. */
  method PlaceSingleClosing(stack: seq<seq<Tree>>, s: Tree) returns (r: Result<seq<seq<Tree>>, BuildError>)
    requires Stacked(stack) && Filled(stack) && s.Single?
    ensures r == Place(stack, s)
  {
    var current := stack;
    while s.level < Last(current).level
      invariant Stacked(current) && Filled(current)
      invariant Place(current, s) == Place(stack, s)
      decreases |current|
    {
      var closed := ListToCall(current);
      if closed.Err? {
        return Err(closed.error);
      }
      current := closed.value;
    }
    if s.level == Last(current).level {
      r := Ok(Append(current, s));
    } else {
      r := Ok(current + [[s]]);
    }
  }

  /** The `level` lookup of the next activation, as the loop of `generate_graph` does it. */
  lemma {:induction false} LevelNext(acts: seq<Activation>, n: nat)
    requires 1 <= n < |acts| && LevelMap(acts, n).Ok?
    ensures var m := LevelMap(acts, n).value; var a := acts[n];
      if a.parent.None? || a.parent.value !in m then LevelMap(acts, n + 1) == Err(UnknownParent)
      else LevelMap(acts, n + 1) == Ok(m[a.id := m[a.parent.value] + 1])
  {
  }

  /** A failed lookup ends the loop of `generate_graph` with that failure. */
  lemma {:induction false} ScanFails(acts: seq<Activation>, n: nat, v: Version)
    requires 1 <= n < |acts| && Scan(acts, n, v).Ok? && LevelMap(acts, n + 1).Err?
    ensures Scan(acts, n + 1, v) == Err(LevelMap(acts, n + 1).error)
  {
  }

  /** A turn of the loop of `generate_graph` whose parent is recorded places the activation one level below it. */
  lemma {:induction false} StepOk(acts: seq<Activation>, i: nat, stack: seq<seq<Tree>>, level: map<nat, nat>, s: Tree, v: Version)
    requires 1 <= i < |acts| && Scan(acts, i, v) == Ok(stack) && LevelMap(acts, i) == Ok(level)
    requires acts[i].parent.Some? && acts[i].parent.value in level
    requires s == FromActivation(acts[i], level[acts[i].parent.value] + 1)
    ensures LevelMap(acts, i + 1) == Ok(level[acts[i].id := s.level])
    ensures Scan(acts, i + 1, v) == PlaceBy(v, stack, s)
  {
    LevelNext(acts, i);
    ScanStep(acts, i + 1, v);
  }

  /** A turn of the loop of `generate_graph` whose parent is not recorded fails with that error. */
  lemma {:induction false} StepFails(acts: seq<Activation>, i: nat, level: map<nat, nat>, v: Version)
    requires 1 <= i < |acts| && Scan(acts, i, v).Ok? && LevelMap(acts, i) == Ok(level)
    requires acts[i].parent.None? || acts[i].parent.value !in level
    ensures Scan(acts, i + 1, v) == Err(UnknownParent)
  {
    assert LevelMap(acts, i + 1) == Err(UnknownParent) by { LevelNext(acts, i); }
    ScanFails(acts, i, v);
  }

  /** A turn of the loop of `generate_graph` that fails to place its activation ends the build with that failure. */
  lemma {:induction false} StepStops(acts: seq<Activation>, i: nat, placed: Result<seq<seq<Tree>>, BuildError>, v: Version)
    requires 1 <= i < |acts| && Scan(acts, i + 1, v) == placed && placed.Err?
    ensures Scan(acts, |acts|, v) == placed
  {
    ScanPropagates(acts, i + 1, |acts|, v);
  }

  /** The loop of `generate_graph` over the activations after the first. */
  method ScanActivations(acts: seq<Activation>, v: Version) returns (r: Result<seq<seq<Tree>>, BuildError>)
    requires |acts| >= 1
    ensures r == Scan(acts, |acts|, v)
  {
    var stack := [[FromActivation(acts[0], 0)]];
    var level := map[acts[0].id := 0];
    for i := 1 to |acts|
      invariant Scan(acts, i, v) == Ok(stack)
      invariant LevelMap(acts, i) == Ok(level)
      invariant Stacked(stack) && Filled(stack)
    {
      var act := acts[i];
      if act.parent.None? || act.parent.value !in level {
        StepFails(acts, i, level, v);
        StepStops(acts, i, Err(UnknownParent), v);
        return Err(UnknownParent);
      }
      var single := FromActivation(act, level[act.parent.value] + 1);
      StepOk(acts, i, stack, level, single, v);
      level := level[act.id := single.level];
      var placed := PlaceSingle(stack, single, v);
      if placed.Err? {
        StepStops(acts, i, placed, v);
        return placed;
      }
      stack := placed.value;
    }
    r := Ok(stack);
  }

  /** The final loop of `generate_graph`: `while len(stack) > 1: list_to_call(stack)`. */
  method CloseStack(stack: seq<seq<Tree>>) returns (r: seq<seq<Tree>>)
    requires Stacked(stack) && Filled(stack)
    ensures Ok(r) == CloseAll(stack)
  {
    r := stack;
    while |r| > 1
      invariant Stacked(r) && Filled(r)
      invariant CloseAll(r) == CloseAll(stack)
      decreases |r|
    {
      var closed := ListToCall(r);
      r := closed.value;
    }
  }

  /** `generate_graph` over the list of activations, as written or with its two defects corrected. */
  method GenerateGraph(acts: seq<Activation>, v: Version) returns (r: Result<Tree, BuildError>)
    ensures r == (if v == Corrected then Build(acts) else BuildAsWritten(acts))
  {
    if |acts| == 0 {
      if v == Corrected {
        return Ok(Empty(0));
      }
      return Err(UndefinedName);
    }
    var scanned := ScanActivations(acts, v);
    if scanned.Err? {
      return Err(scanned.error);
    }
    var closed := CloseStack(scanned.value);
    r := Ok(Last(closed));
  }
}
