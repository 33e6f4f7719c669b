/** The flame graph: a tree of frames, shared pointers and all, that counts added stacks, and its
    flattening into folded stacks. The tree is specified by the list of stacks that were added. */
module FlameGraph {

  type Stack = seq<string>

  /** A stack as it was added, with its value. */
  datatype Sample = Sample(stack: Stack, value: int)

  // Reference: weights of paths ------------------------------------------------------------------

  /** The total value of the samples that begin with `p`. */
  function PrefixWeight(added: seq<Sample>, p: Stack): int {
    if added == [] then 0
    else PrefixWeight(added[..|added| - 1], p) + (if p <= added[|added| - 1].stack then added[|added| - 1].value else 0)
  }

  /** The total value of the samples that are exactly `p`. */
  function Ends(added: seq<Sample>, p: Stack): int {
    if added == [] then 0
    else Ends(added[..|added| - 1], p) + (if p == added[|added| - 1].stack then added[|added| - 1].value else 0)
  }

  function Total(added: seq<Sample>): int {
    if added == [] then 0 else Total(added[..|added| - 1]) + added[|added| - 1].value
  }

  predicate Occurs(added: seq<Sample>, p: Stack) {
    exists i :: 0 <= i < |added| && p <= added[i].stack
  }

  /** The sum of the weights of `p` extended by each of the names. */
  function ChildWeights(added: seq<Sample>, p: Stack, names: seq<string>): int {
    if names == [] then 0
    else ChildWeights(added, p, names[..|names| - 1]) + PrefixWeight(added, p + [names[|names| - 1]])
  }

  predicate Distinct<T(==)>(s: seq<T>) {
    forall i, j :: 0 <= i < j < |s| ==> s[i] != s[j]
  }

  lemma {:induction false} NotOccurring(added: seq<Sample>, p: Stack)
    requires !Occurs(added, p)
    ensures PrefixWeight(added, p) == 0
  {
    if added != [] {
      var front := added[..|added| - 1];
      assert forall i :: 0 <= i < |front| ==> front[i] == added[i];
      assert !(p <= added[|added| - 1].stack);
      NotOccurring(front, p);
    }
  }

  /** A sample is counted below at most one of several distinct children. */
  lemma {:induction false} ChildWeightsStep(added: seq<Sample>, p: Stack, names: seq<string>)
    requires added != [] && Distinct(names)
    ensures var last := added[|added| - 1];
            ChildWeights(added, p, names) ==
            ChildWeights(added[..|added| - 1], p, names) +
            (if p < last.stack && last.stack[|p|] in names then last.value else 0)
  {
    var last := added[|added| - 1].stack;
    if names != [] {
      var n := |names| - 1;
      ChildWeightsStep(added, p, names[..n]);
      var child := p + [names[n]];
      assert child <= last <==> p < last && last[|p|] == names[n] by {
        if p < last && last[|p|] == names[n] {
          assert child == last[..|p| + 1];
        }
      }
      assert p < last && last[|p|] == names[n] ==> last[|p|] !in names[..n];
    }
  }

  /** The value of a node is the sum of its children plus the weight of the stacks that end there. */
  lemma {:induction false} WeightSplits(added: seq<Sample>, p: Stack, names: seq<string>)
    requires Distinct(names)
    requires forall i :: 0 <= i < |added| && p < added[i].stack ==> added[i].stack[|p|] in names
    ensures PrefixWeight(added, p) == Ends(added, p) + ChildWeights(added, p, names)
  {
    if added == [] {
      NoChildWeights(p, names);
    } else {
      var front, last := added[..|added| - 1], added[|added| - 1].stack;
      assert forall i :: 0 <= i < |front| ==> front[i] == added[i];
      WeightSplits(front, p, names);
      ChildWeightsStep(added, p, names);
      assert p <= last <==> p == last || p < last;
    }
  }

  lemma {:induction false} NoChildWeights(p: Stack, names: seq<string>)
    ensures ChildWeights([], p, names) == 0
  {
    if names != [] {
      NoChildWeights(p, names[..|names| - 1]);
    }
  }

  /** The weights at the ends of distinct paths. */
  function EndsOf(added: seq<Sample>, paths: seq<Stack>): int {
    if paths == [] then 0 else EndsOf(added, paths[..|paths| - 1]) + Ends(added, paths[|paths| - 1])
  }

  lemma {:induction false} EndsOfStep(added: seq<Sample>, paths: seq<Stack>)
    requires added != [] && Distinct(paths)
    ensures EndsOf(added, paths) ==
            EndsOf(added[..|added| - 1], paths) + (if added[|added| - 1].stack in paths then added[|added| - 1].value else 0)
  {
    if paths != [] {
      var n := |paths| - 1;
      EndsOfStep(added, paths[..n]);
      assert paths[n] !in paths[..n];
    }
  }

  /** Whether the last frame of a stack is named like the root of the tree. */
  predicate EndsInRoot(p: Stack) {
    p != [] && p[|p| - 1] == "root"
  }

  /** The total of the samples whose last frame is not named like the root. */
  function ShownTotal(added: seq<Sample>): int {
    if added == [] then 0
    else ShownTotal(added[..|added| - 1]) + (if EndsInRoot(added[|added| - 1].stack) then 0 else added[|added| - 1].value)
  }

  /** Distinct paths that include every shown stack and no other account for the shown total. */
  lemma {:induction false} EndsTotal(added: seq<Sample>, paths: seq<Stack>)
    requires Distinct(paths) && forall i :: 0 <= i < |added| ==> (added[i].stack in paths <==> !EndsInRoot(added[i].stack))
    ensures EndsOf(added, paths) == ShownTotal(added)
  {
    if added == [] {
      NoEnds(paths);
    } else {
      var front := added[..|added| - 1];
      assert forall i :: 0 <= i < |front| ==> front[i] == added[i];
      EndsTotal(front, paths);
      EndsOfStep(added, paths);
    }
  }

  lemma {:induction false} ShownTotalIff(added: seq<Sample>)
    requires forall i :: 0 <= i < |added| ==> added[i].value > 0
    ensures ShownTotal(added) <= Total(added)
    ensures ShownTotal(added) == Total(added) <==> forall i :: 0 <= i < |added| ==> !EndsInRoot(added[i].stack)
  {
    if added != [] {
      var front := added[..|added| - 1];
      assert forall i :: 0 <= i < |front| ==> front[i] == added[i];
      ShownTotalIff(front);
    }
  }

  lemma {:induction false} NoEnds(paths: seq<Stack>)
    ensures EndsOf([], paths) == 0
  {
    if paths != [] {
      NoEnds(paths[..|paths| - 1]);
    }
  }

  lemma {:induction false} EndsPositive(added: seq<Sample>, p: Stack)
    requires forall i :: 0 <= i < |added| ==> added[i].value > 0
    ensures Ends(added, p) >= 0
    ensures Ends(added, p) > 0 <==> exists i :: 0 <= i < |added| && added[i].stack == p
  {
    if added != [] {
      var front := added[..|added| - 1];
      assert forall i :: 0 <= i < |front| ==> front[i] == added[i];
      EndsPositive(front, p);
      if Ends(front, p) > 0 {
        var i :| 0 <= i < |front| && front[i].stack == p;
        assert added[i].stack == p;
      }
      if Ends(added, p) > 0 && Ends(front, p) == 0 {
        assert added[|added| - 1].stack == p;
      }
      forall i | 0 <= i < |added| && added[i].stack == p
        ensures Ends(added, p) > 0
      {
        if i < |front| {
          assert front[i].stack == p;
        }
      }
    }
  }

  /** A path as it is printed: frames named like the root are left out. */
  function ShownPath(p: Stack): Stack {
    if p == [] then []
    else ShownPath(p[..|p| - 1]) + (if EndsInRoot(p) then [] else [p[|p| - 1]])
  }

  // The tree -------------------------------------------------------------------------------------

  class StackFrame {
    const name: string
    var value: int
    var children: seq<StackFrame>

    constructor (name: string, value: int)
      ensures this.name == name && this.value == value && children == []
    {
      this.name := name;
      this.value := value;
      children := [];
    }
  }

  /** The names below every path: every path is listed once below the path it extends. */
  ghost predicate NameTree(kids: map<Stack, seq<string>>) {
    && [] in kids
    && (forall p {:trigger kids[p]} :: p in kids ==> Distinct(kids[p]) && forall n :: n in kids[p] ==> p + [n] in kids)
    && (forall p {:trigger p in kids} :: p in kids && p != [] ==> p[..|p| - 1] in kids && p[|p| - 1] in kids[p[..|p| - 1]])
  }

  /** A new name below the path `p`. */
  function Grafted(kids: map<Stack, seq<string>>, p: Stack, n: string): map<Stack, seq<string>>
    requires p in kids
  {
    kids[p := kids[p] + [n]][p + [n] := []]
  }

  lemma {:induction false} NameTreeGrows(kids: map<Stack, seq<string>>, p: Stack, n: string)
    requires NameTree(kids) && p in kids && p + [n] !in kids
    ensures NameTree(Grafted(kids, p, n))
  {
    var q := p + [n];
    var kids' := Grafted(kids, p, n);
    assert q != p && q[..|q| - 1] == p && q[|q| - 1] == n;
    assert kids'[p] == kids[p] + [n] && n !in kids[p];
    forall x | x in kids'
      ensures Distinct(kids'[x]) && forall m :: m in kids'[x] ==> x + [m] in kids'
    {
      if x != p && x != q {
        assert kids'[x] == kids[x];
      }
    }
    forall x | x in kids' && x != []
      ensures x[..|x| - 1] in kids' && x[|x| - 1] in kids'[x[..|x| - 1]]
    {
      if x != q {
        assert x in kids;
      }
    }
  }

  /** One frame for every path; `lists` are the frames of the longer paths, in order. */
  ghost predicate Linked(kids: map<Stack, seq<string>>, nodes: map<Stack, StackFrame>,
                         lists: map<Stack, seq<StackFrame>>) {
    && nodes.Keys == kids.Keys == lists.Keys
    && (forall p, q {:trigger nodes[p], nodes[q]} :: p in nodes && q in nodes && nodes[p] == nodes[q] ==> p == q)
    && (forall p {:trigger nodes[p]} :: p in nodes && p != [] ==> nodes[p].name == p[|p| - 1])
    && (forall p {:trigger lists[p]} :: p in kids ==> |lists[p]| == |kids[p]|)
    && (forall p, i {:trigger lists[p][i]} :: p in kids && 0 <= i < |kids[p]| ==>
          p + [kids[p][i]] in nodes && lists[p][i] == nodes[p + [kids[p][i]]])
  }

  lemma {:induction false} LinkedGrows(kids: map<Stack, seq<string>>, nodes: map<Stack, StackFrame>,
                                       lists: map<Stack, seq<StackFrame>>, p: Stack, c: StackFrame)
    requires Linked(kids, nodes, lists) && p in kids && p + [c.name] !in kids && c !in nodes.Values
    ensures Linked(Grafted(kids, p, c.name), nodes[p + [c.name] := c], lists[p := lists[p] + [c]][p + [c.name] := []])
  {
    var q := p + [c.name];
    var kids', nodes', lists' := Grafted(kids, p, c.name), nodes[q := c], lists[p := lists[p] + [c]][q := []];
    forall x, i | x in kids' && 0 <= i < |kids'[x]|
      ensures x + [kids'[x][i]] in nodes' && lists'[x][i] == nodes'[x + [kids'[x][i]]]
    {
      ListEntry(kids, nodes, lists, p, c, x, i);
    }
    forall x, y | x in nodes' && y in nodes' && nodes'[x] == nodes'[y]
      ensures x == y
    {
      assert x in nodes ==> nodes[x] in nodes.Values;
      assert y in nodes ==> nodes[y] in nodes.Values;
    }
    assert q != p;
  }

  lemma {:induction false} ListEntry(kids: map<Stack, seq<string>>, nodes: map<Stack, StackFrame>,
                                     lists: map<Stack, seq<StackFrame>>, p: Stack, c: StackFrame, x: Stack, i: nat)
    requires Linked(kids, nodes, lists) && p in kids && p + [c.name] !in kids
    requires x in Grafted(kids, p, c.name) && i < |Grafted(kids, p, c.name)[x]|
    ensures var q, kids' := p + [c.name], Grafted(kids, p, c.name);
            var nodes', lists' := nodes[q := c], lists[p := lists[p] + [c]][q := []];
            && i < |lists'[x]| && x + [kids'[x][i]] in nodes' && lists'[x][i] == nodes'[x + [kids'[x][i]]]
  {
    var q := p + [c.name];
    assert q != p;
    if x == p && i == |kids[p]| {
      assert Grafted(kids, p, c.name)[p][i] == c.name;
    } else {
      var l := lists[x][i];
      assert x + [kids[x][i]] in nodes && l == nodes[x + [kids[x][i]]];
    }
  }

  /** Exactly the prefixes of added stacks have frames, and those that begin `stack` up to `k` names. */
  ghost predicate Grown(kids: map<Stack, seq<string>>, added: seq<Sample>, stack: Stack, k: nat) {
    forall p {:trigger p in kids} :: p in kids <==> p == [] || Occurs(added, p) || (p <= stack && |p| <= k)
  }

  /** What a frame counts while a stack is being added. */
  function HalfWeight(added: seq<Sample>, p: Stack, stack: Stack, value: int, k: nat): int {
    PrefixWeight(added, p) + (if p <= stack && |p| <= k then value else 0)
  }

  /** What going one name further changes: the frame of that prefix, and no other. */
  lemma {:induction false} HalfStep(added: seq<Sample>, stack: Stack, value: int, k: nat, p: Stack)
    requires k < |stack|
    ensures var q := stack[..k + 1];
            && HalfWeight(added, p, stack, value, k + 1) ==
               (if p == q then PrefixWeight(added, q) + value else HalfWeight(added, p, stack, value, k))
            && HalfWeight(added, q, stack, value, k) == PrefixWeight(added, q)
            && (p <= stack && |p| <= k + 1 <==> p == q || (p <= stack && |p| <= k))
  {
    if p <= stack && |p| == k + 1 {
      assert p == stack[..k + 1];
    }
  }

  lemma {:induction false} WholeStack(added: seq<Sample>, stack: Stack, value: int, p: Stack)
    ensures PrefixWeight(added + [Sample(stack, value)], p) == HalfWeight(added, p, stack, value, |stack|)
    ensures Occurs(added + [Sample(stack, value)], p) <==> Occurs(added, p) || p <= stack
  {
    var after := added + [Sample(stack, value)];
    assert after[..|after| - 1] == added;
    assert after[|added|].stack == stack;
    if Occurs(added, p) {
      var i :| 0 <= i < |added| && p <= added[i].stack;
      assert after[i] == added[i];
    }
  }

  /** Lines and the paths they stand for. */
  ghost predicate Lines(added: seq<Sample>, lines: seq<Sample>, paths: seq<Stack>) {
    |lines| == |paths| && forall i :: 0 <= i < |paths| ==> lines[i] == Sample(ShownPath(paths[i]), Ends(added, paths[i]))
  }

  lemma {:induction false} LinesJoin(added: seq<Sample>, lines: seq<Sample>, paths: seq<Stack>, more: seq<Sample>,
                                     morePaths: seq<Stack>)
    requires Lines(added, lines, paths) && Lines(added, more, morePaths)
    ensures Lines(added, lines + more, paths + morePaths)
  {
    hide ShownPath, Ends;
  }

  predicate IsAdded(added: seq<Sample>, q: Stack) {
    exists i :: 0 <= i < |added| && added[i].stack == q
  }

  predicate NoFrameIsRoot(added: seq<Sample>) {
    forall i :: 0 <= i < |added| ==> "root" !in added[i].stack
  }

  predicate AllPositive(added: seq<Sample>) {
    forall i :: 0 <= i < |added| ==> added[i].value > 0
  }

  /** One line for every added stack that is shown. */
  ghost predicate Folded(added: seq<Sample>, lines: seq<Sample>, paths: seq<Stack>) {
    Lines(added, lines, paths) && Distinct(paths) && forall q :: q in paths <==> IsAdded(added, q) && !EndsInRoot(q)
  }

  lemma {:induction false} LinesTotal(added: seq<Sample>, lines: seq<Sample>, paths: seq<Stack>)
    requires Lines(added, lines, paths)
    ensures Total(lines) == EndsOf(added, paths)
  {
    hide ShownPath, Ends;
    if lines != [] {
      LinesTotal(added, lines[..|lines| - 1], paths[..|paths| - 1]);
    }
  }

  /** The folded stacks account for the whole total exactly when no added stack ends in a frame named
      like the root; such stacks lose their weight. */
  lemma {:induction false} FoldedTotalIff(added: seq<Sample>, lines: seq<Sample>, paths: seq<Stack>)
    requires AllPositive(added) && Folded(added, lines, paths)
    ensures Total(lines) == ShownTotal(added) <= Total(added)
    ensures Total(lines) == Total(added) <==> forall i :: 0 <= i < |added| ==> !EndsInRoot(added[i].stack)
  {
    hide EndsInRoot, Lines;
    LinesTotal(added, lines, paths);
    forall i | 0 <= i < |added|
      ensures added[i].stack in paths <==> !EndsInRoot(added[i].stack)
    {
      assert IsAdded(added, added[i].stack);
    }
    EndsTotal(added, paths);
    ShownTotalIff(added);
  }

  lemma {:induction false} NoRootShown(p: Stack)
    requires "root" !in p
    ensures ShownPath(p) == p
  {
    if p != [] {
      NoRootShown(p[..|p| - 1]);
    }
  }

  lemma {:induction false} NeverRootShown(p: Stack)
    ensures "root" !in ShownPath(p)
  {
    if p != [] {
      NeverRootShown(p[..|p| - 1]);
    }
  }

  /** The lines are the distinct added stacks, each once and with its total value. */
  ghost predicate Exactly(added: seq<Sample>, lines: seq<Sample>) {
    && (forall q, v :: Sample(q, v) in lines <==> IsAdded(added, q) && v == Ends(added, q))
    && (forall i, j :: 0 <= i < j < |lines| ==> lines[i].stack != lines[j].stack)
  }

  /** The lines are exactly the added stacks if and only if no frame of them is named like the root. */
  lemma {:induction false} FoldedStacks(added: seq<Sample>, lines: seq<Sample>, paths: seq<Stack>)
    requires AllPositive(added) && Folded(added, lines, paths)
    ensures Exactly(added, lines) <==> NoFrameIsRoot(added)
    ensures NoFrameIsRoot(added) ==> Total(lines) == Total(added)
  {
    hide Ends, ShownPath;
    FoldedTotalIff(added, lines, paths);
    if NoFrameIsRoot(added) {
      WholeStacks(added, lines, paths);
    } else {
      var i :| 0 <= i < |added| && "root" in added[i].stack;
      assert IsAdded(added, added[i].stack);
      forall k | 0 <= k < |lines|
        ensures lines[k].stack != added[i].stack
      {
        NeverRootShown(paths[k]);
      }
      assert Sample(added[i].stack, Ends(added, added[i].stack)) !in lines;
    }
  }

  lemma {:induction false} WholeStacks(added: seq<Sample>, lines: seq<Sample>, paths: seq<Stack>)
    requires AllPositive(added) && Folded(added, lines, paths) && NoFrameIsRoot(added)
    ensures Exactly(added, lines)
  {
    hide Ends, ShownPath;
    forall i | 0 <= i < |paths|
      ensures ShownPath(paths[i]) == paths[i]
    {
      assert paths[i] in paths;
      NoRootShown(paths[i]);
    }
    forall q, v
      ensures Sample(q, v) in lines <==> IsAdded(added, q) && v == Ends(added, q)
    {
      if IsAdded(added, q) {
        assert q in paths;
        var i :| 0 <= i < |paths| && paths[i] == q;
        assert lines[i] == Sample(q, Ends(added, q));
      }
    }
  }

  /** The path itself, or one that goes on with one of the names. */
  predicate Under(q: Stack, p: Stack, names: seq<string>) {
    q == p || (p < q && q[|p|] in names)
  }

  /** The paths below one more child, after those below the children before it. */
  lemma {:induction false} PathsJoin(all: set<Stack>, p: Stack, names: seq<string>, i: nat, paths: seq<Stack>,
                                     more: seq<Stack>)
    requires i < |names| && Distinct(names) && Distinct(paths) && Distinct(more)
    requires forall q :: q in paths <==> q in all && Under(q, p, names[..i])
    requires forall q :: q in more <==> q in all && p + [names[i]] <= q
    ensures Distinct(paths + more)
    ensures forall q :: q in paths + more <==> q in all && Under(q, p, names[..i + 1])
  {
    var n := names[i];
    forall q
      ensures p + [n] <= q <==> p < q && q[|p|] == n
      ensures Under(q, p, names[..i + 1]) <==> Under(q, p, names[..i]) || p + [n] <= q
      ensures !(Under(q, p, names[..i]) && p + [n] <= q)
    {
      if p < q && q[|p|] == n {
        assert q[..|p| + 1] == p + [n];
      }
      assert names[..i + 1] == names[..i] + [n];
    }
    forall j, k | 0 <= j < |paths| && 0 <= k < |more|
      ensures paths[j] != more[k]
    {
      assert paths[j] in paths && more[k] in more;
    }
  }

  /** Every added stack that goes on from `p` does so with one of the names below it. */
  lemma {:induction false} NamesCover(kids: map<Stack, seq<string>>, added: seq<Sample>, p: Stack)
    requires NameTree(kids) && Grown(kids, added, [], 0) && p in kids
    ensures Distinct(kids[p])
    ensures forall i :: 0 <= i < |added| && p < added[i].stack ==> added[i].stack[|p|] in kids[p]
  {
    forall i | 0 <= i < |added| && p < added[i].stack
      ensures added[i].stack[|p|] in kids[p]
    {
      NameCovered(kids, added, p, i);
    }
  }

  lemma {:induction false} NameCovered(kids: map<Stack, seq<string>>, added: seq<Sample>, p: Stack, i: nat)
    requires NameTree(kids) && Grown(kids, added, [], 0) && p in kids
    requires i < |added| && p < added[i].stack
    ensures added[i].stack[|p|] in kids[p]
  {
    var q := added[i].stack[..|p| + 1];
    assert q <= added[i].stack;
    assert Occurs(added, q);
    hide Occurs;
    assert q in kids;
    assert q[..|q| - 1] == p;
  }

  /** A longer path goes on with one of the names below. */
  lemma {:induction false} BelowName(kids: map<Stack, seq<string>>, added: seq<Sample>, p: Stack, q: Stack)
    requires NameTree(kids) && Grown(kids, added, [], 0) && p in kids && q in kids && p <= q
    ensures Under(q, p, kids[p])
  {
    if p != q {
      assert Occurs(added, q);
      var i :| 0 <= i < |added| && q <= added[i].stack;
      assert p < added[i].stack && added[i].stack[|p|] == q[|p|];
      NamesCover(kids, added, p);
    }
  }

  lemma {:induction false} RootAlone(root: StackFrame)
    ensures NameTree(map[[] := []]) && Linked(map[[] := []], map[[] := root], map[[] := []])
    ensures Grown(map[[] := []], [], [], 0)
  {
  }

  class FlameGraph {
    const rootFrame: StackFrame
    var totalValue: int
    /** All frames, the frame of every path, the names and the frames below it, and the samples so far. */
    ghost var frames: set<StackFrame>
    ghost var nodes: map<Stack, StackFrame>
    ghost var kids: map<Stack, seq<string>>
    ghost var lists: map<Stack, seq<StackFrame>>
    ghost var added: seq<Sample>

    ghost predicate Mirrored()
      reads this`nodes, this`kids, this`lists, this`frames, frames
    {
      forall p {:trigger nodes[p]} :: p in nodes ==> nodes[p] in frames && p in lists && nodes[p].children == lists[p]
    }

    ghost predicate Shaped()
      reads this`nodes, this`kids, this`lists, this`frames, frames
    {
      && NameTree(kids) && Linked(kids, nodes, lists) && Mirrored()
      && nodes[[]] == rootFrame && rootFrame.name == "root"
    }

    /** Exactly the prefixes of `added` have frames, and every frame counts the samples that begin with
        its path. */
    ghost predicate Counts(added: seq<Sample>)
      reads this`nodes, this`kids, this`frames, this`lists, frames
      requires Shaped()
    {
      && Grown(kids, added, [], 0)
      && (forall p {:trigger nodes[p]} :: p in nodes ==> nodes[p].value == PrefixWeight(added, p))
      && (forall i :: 0 <= i < |added| ==> added[i].stack != [])
    }

    ghost predicate Valid()
      reads this, frames
    {
      Shaped() && Counts(added) && totalValue == Total(added)
    }

    constructor ()
      ensures Valid() && added == [] && frames == {rootFrame} && fresh(rootFrame)
    {
      hide NameTree, Linked;
      rootFrame := new StackFrame("root", 0);
      totalValue := 0;
      new;
      frames := {rootFrame};
      nodes := map[[] := rootFrame];
      kids := map[[] := []];
      lists := map[[] := []];
      added := [];
      RootAlone(rootFrame);
    }

    method FindChild(children: seq<StackFrame>, name: string) returns (i: nat)
      ensures i <= |children| && (i < |children| ==> children[i].name == name)
      ensures forall j :: 0 <= j < i ==> children[j].name != name
    {
      i := 0;
      while i < |children| && children[i].name != name
        invariant i <= |children| && forall j :: 0 <= j < i ==> children[j].name != name
      {
        i := i + 1;
      }
    }

    /** One step down: the child of that name counts the value, and is made if there is none. */
    method Descend(current: StackFrame, ghost p: Stack, frame: string, value: int) returns (child: StackFrame)
      requires Shaped() && p in nodes && nodes[p] == current
      modifies frames, this`nodes, this`kids, this`lists, this`frames
      ensures Shaped() && fresh(frames - old(frames)) && old(frames) <= frames
      ensures var q := p + [frame];
              && nodes.Keys == old(nodes).Keys + {q} && nodes[q] == child
              && (forall x {:trigger nodes[x]} :: x in old(nodes) ==> nodes[x] == old(nodes)[x])
              && child.value == (if q in old(nodes) then old(nodes[q].value) else 0) + value
              && (forall x {:trigger nodes[x]} :: x in old(nodes) && x != q ==> nodes[x].value == old(nodes[x].value))
    {
      hide NameTree, Linked, Mirrored;
      NamesBelow(p);
      var i := FindChild(current.children, frame);
      if i < |current.children| {
        assert kids[p][i] == frame;
        child := current.children[i];
        Count(child, p + [frame], value);
      } else {
        child := NewChild(current, p, frame, value);
      }
    }

    method Count(child: StackFrame, ghost q: Stack, value: int)
      requires Shaped() && q in nodes && nodes[q] == child
      modifies child`value
      ensures Shaped() && child.value == old(child.value) + value
      ensures forall x {:trigger nodes[x]} :: x in nodes && x != q ==> nodes[x].value == old(nodes[x].value)
    {
      child.value := child.value + value;
    }

    method NewChild(current: StackFrame, ghost p: Stack, frame: string, value: int) returns (child: StackFrame)
      requires Shaped() && p in nodes && nodes[p] == current && p + [frame] !in nodes
      modifies current`children, this`nodes, this`kids, this`lists, this`frames
      ensures Shaped() && fresh(child) && frames == old(frames) + {child}
      ensures nodes == old(nodes)[p + [frame] := child] && child.value == value
    {
      child := new StackFrame(frame, value);
      Attach(current, p, child);
    }

    method Attach(current: StackFrame, ghost p: Stack, child: StackFrame)
      requires Shaped() && p in nodes && nodes[p] == current && p + [child.name] !in nodes
      requires child !in frames && child.children == []
      modifies current`children, this`nodes, this`kids, this`lists, this`frames
      ensures Shaped() && frames == old(frames) + {child} && nodes == old(nodes)[p + [child.name] := child]
    {
      hide NameTree, Linked, Grafted;
      ghost var q := p + [child.name];
      Separate(p, child);
      NameTreeGrows(kids, p, child.name);
      LinkedGrows(kids, nodes, lists, p, child);
      current.children := current.children + [child];
      ghost var nodes0 := nodes;
      nodes := nodes[q := child];
      lists := lists[p := lists[p] + [child]][q := []];
      kids := Grafted(kids, p, child.name);
      frames := frames + {child};
      forall x | x in nodes
        ensures nodes[x] in frames && x in lists && nodes[x].children == lists[x]
      {
        if x != q && x != p {
          assert nodes[x] == nodes0[x] != current;
        }
      }
    }

    /** Frames of different paths are different objects, and a new object is none of them. */
    lemma {:induction false} Separate(p: Stack, child: StackFrame)
      requires Shaped() && p in nodes && child !in frames
      ensures kids.Keys == nodes.Keys == lists.Keys && [] in nodes && child !in nodes.Values
      ensures forall x {:trigger nodes[x]} :: x in nodes && x != p ==> nodes[x] != nodes[p]
      ensures forall x {:trigger nodes[x]} :: x in nodes ==> nodes[x] != child
    {
    }

    /** The names of the children are the names below the path. */
    lemma {:induction false} NamesBelow(p: Stack)
      requires Shaped() && p in nodes
      ensures p in kids && |nodes[p].children| == |kids[p]|
      ensures forall x {:trigger nodes[x]} :: x in nodes ==> nodes[x] in frames
      ensures forall i {:trigger nodes[p].children[i]} {:trigger kids[p][i]} :: 0 <= i < |kids[p]| ==>
                nodes[p].children[i].name == kids[p][i] && p + [kids[p][i]] in nodes && nodes[p].children[i] == nodes[p + [kids[p][i]]]
      ensures forall n :: p + [n] in nodes <==> n in kids[p]
    {
      forall i | 0 <= i < |kids[p]|
        ensures nodes[p].children[i].name == kids[p][i] && p + [kids[p][i]] in nodes && nodes[p].children[i] == nodes[p + [kids[p][i]]]
      {
        assert lists[p][i] == nodes[p + [kids[p][i]]];
      }
      forall n | p + [n] in nodes
        ensures n in kids[p]
      {
        assert (p + [n])[..|p|] == p;
      }
    }

    /** While a stack is being added: `k` of its names are done. */
    ghost predicate Adding(stack: Stack, value: int, k: nat)
      reads this`nodes, this`kids, this`lists, this`frames, this`added, frames
    {
      && Shaped() && Grown(kids, added, stack, k)
      && (forall p {:trigger nodes[p]} :: p in nodes ==> nodes[p].value == HalfWeight(added, p, stack, value, k))
    }

    method AddStack(stack: Stack, value: int)
      requires Valid()
      modifies this, frames
      ensures Valid() && fresh(frames - old(frames)) && old(frames) <= frames
      ensures added == if stack == [] then old(added) else old(added) + [Sample(stack, value)]
    {
      hide Shaped, Counts, Total;
      if |stack| == 0 {
        return;
      }
      totalValue := totalValue + value;
      CountStack(stack, value);
      added := added + [Sample(stack, value)];
    }

    method CountStack(stack: Stack, value: int)
      requires Shaped() && Counts(added) && stack != []
      modifies frames, this`nodes, this`kids, this`lists, this`frames
      ensures Shaped() && Counts(added + [Sample(stack, value)])
      ensures Total(added + [Sample(stack, value)]) == Total(added) + value
      ensures fresh(frames - old(frames)) && old(frames) <= frames
    {
      hide Shaped, Adding, Counts;
      NoneEmpty();
      CountRoot(stack, value);
      Walk(stack, value);
      StackDone(stack, value);
    }

    lemma {:induction false} NoneEmpty()
      requires Shaped() && Counts(added)
      ensures forall i :: 0 <= i < |added| ==> added[i].stack != []
    {
    }

    /** The walk from the root along the names of the stack. */
    method Walk(stack: Stack, value: int)
      requires Adding(stack, value, 0) && [] in nodes && nodes[[]] == rootFrame
      modifies frames, this`nodes, this`kids, this`lists, this`frames
      ensures Adding(stack, value, |stack|) && fresh(frames - old(frames)) && old(frames) <= frames
    {
      hide Adding;
      var current := rootFrame;
      var k := 0;
      while k < |stack|
        invariant k <= |stack| && Adding(stack, value, k)
        invariant stack[..k] in nodes && nodes[stack[..k]] == current
        invariant fresh(frames - old(frames)) && old(frames) <= frames
      {
        current := Step(current, stack, value, k);
        k := k + 1;
      }
    }

    method CountRoot(stack: Stack, value: int)
      requires Shaped() && Counts(added)
      modifies frames
      ensures Adding(stack, value, 0) && [] in nodes && nodes[[]] == rootFrame
    {
      SameDomain();
      assert [] in kids;
      Count(rootFrame, [], value);
      RootCounted(stack, value);
    }

    method Step(current: StackFrame, stack: Stack, value: int, k: nat) returns (child: StackFrame)
      requires k < |stack| && Adding(stack, value, k) && stack[..k] in nodes && nodes[stack[..k]] == current
      modifies frames, this`nodes, this`kids, this`lists, this`frames
      ensures Adding(stack, value, k + 1) && stack[..k + 1] in nodes && nodes[stack[..k + 1]] == child
      ensures fresh(frames - old(frames)) && old(frames) <= frames
    {
      hide NameTree, Linked, Mirrored, HalfWeight, Occurs;
      ghost var p, q := stack[..k], stack[..k + 1];
      assert p + [stack[k]] == q;
      SameDomain();
      child := Descend(current, p, stack[k], value);
      SameDomain();
      forall x | x in nodes
        ensures nodes[x].value == HalfWeight(added, x, stack, value, k + 1)
      {
        HalfStep(added, stack, value, k, x);
        if x == q && q !in old(nodes) {
          NotOccurring(added, q);
        }
      }
      forall x
        ensures x in kids <==> x == [] || Occurs(added, x) || (x <= stack && |x| <= k + 1)
      {
        HalfStep(added, stack, value, k, x);
      }
    }

    lemma {:induction false} SameDomain()
      requires Shaped()
      ensures kids.Keys == nodes.Keys
    {
    }

    lemma {:induction false} RootCounted(stack: Stack, value: int)
      requires Shaped() && Grown(kids, added, [], 0)
      requires forall p {:trigger nodes[p]} :: p in nodes ==>
                 nodes[p].value == PrefixWeight(added, p) + (if p == [] then value else 0)
      ensures Adding(stack, value, 0)
    {
      hide Shaped, Occurs;
    }

    lemma {:induction false} StackDone(stack: Stack, value: int)
      requires Adding(stack, value, |stack|) && stack != [] && forall i :: 0 <= i < |added| ==> added[i].stack != []
      ensures Shaped() && Counts(added + [Sample(stack, value)])
      ensures Total(added + [Sample(stack, value)]) == Total(added) + value
    {
      hide Shaped, Occurs, HalfWeight, PrefixWeight;
      var after := added + [Sample(stack, value)];
      assert after[..|after| - 1] == added;
      forall p
        ensures p in kids <==> p == [] || Occurs(after, p) || (p <= [] && |p| <= 0)
      {
        WholeStack(added, stack, value, p);
      }
      forall p | p in nodes
        ensures nodes[p].value == PrefixWeight(after, p)
      {
        WholeStack(added, stack, value, p);
      }
    }

    // Folded stacks ------------------------------------------------------------------------------

    /** A path gets a line if stacks end there, unless its last frame is named like the root. */
    ghost function Emitted(): set<Stack>
      reads this`nodes, this`added
    {
      set q | q in nodes && q != [] && !EndsInRoot(q) && Ends(added, q) > 0
    }

    ghost function Below(p: Stack): set<Stack>
      reads this`nodes
    {
      set q | q in nodes && p <= q
    }

    /** The value of a frame without its children is the weight of the stacks that end there. */
    method SelfValue(frame: StackFrame, ghost p: Stack) returns (selfValue: int)
      requires Valid() && p in nodes && nodes[p] == frame
      ensures selfValue == Ends(added, p)
    {
      NamesBelow(p);
      SameDomain();
      selfValue := frame.value;
      for i := 0 to |frame.children|
        invariant selfValue == PrefixWeight(added, p) - ChildWeights(added, p, kids[p][..i])
      {
        assert frame.children[i] == nodes[p + [kids[p][i]]];
        ghost var names := kids[p][..i + 1];
        assert names[..i] == kids[p][..i] && names[i] == kids[p][i];
        selfValue := selfValue - frame.children[i].value;
      }
      assert kids[p][..|kids[p]|] == kids[p];
      NamesCover(kids, added, p);
      WeightSplits(added, p, kids[p]);
    }

    /** The lines of the frames from `frame` down, and the paths they stand for. */
    method Traverse(frame: StackFrame, ghost p: Stack, path: Stack)
      returns (lines: seq<Sample>, ghost paths: seq<Stack>)
      requires Valid() && p in nodes && nodes[p] == frame
      requires path == if p == [] then [] else ShownPath(p[..|p| - 1])
      ensures Lines(added, lines, paths)
      ensures Distinct(paths) && forall q :: q in paths <==> q in Emitted() && p <= q
      decreases Below(p), 1
    {
      var currentPath;
      ghost var own;
      lines, currentPath, own := OwnLine(frame, p, path);
      lines, paths := TraverseChildren(frame, p, currentPath, lines, own);
    }

    /** The line of one frame, and its path as it is printed; the root frame has neither. */
    method OwnLine(frame: StackFrame, ghost p: Stack, path: Stack)
      returns (lines: seq<Sample>, currentPath: Stack, ghost paths: seq<Stack>)
      requires Valid() && p in nodes && nodes[p] == frame
      requires path == if p == [] then [] else ShownPath(p[..|p| - 1])
      ensures currentPath == ShownPath(p)
      ensures Lines(added, lines, paths) && Distinct(paths) && forall q :: q in paths <==> q == p && q in Emitted()
    {
      hide Shaped, Counts;
      lines, paths, currentPath := [], [], path;
      FrameName(p);
      if frame.name != "root" {
        currentPath := path + [frame.name];
        var selfValue := SelfValue(frame, p);
        if selfValue > 0 {
          lines, paths := [Sample(currentPath, selfValue)], [p];
        }
      }
    }

    method TraverseChildren(frame: StackFrame, ghost p: Stack, currentPath: Stack, lines0: seq<Sample>,
                            ghost paths0: seq<Stack>)
      returns (lines: seq<Sample>, ghost paths: seq<Stack>)
      requires Valid() && p in nodes && nodes[p] == frame && currentPath == ShownPath(p)
      requires Lines(added, lines0, paths0) && Distinct(paths0) && forall q :: q in paths0 <==> q == p && q in Emitted()
      ensures Lines(added, lines, paths)
      ensures Distinct(paths) && forall q :: q in paths <==> q in Emitted() && p <= q
      decreases Below(p), 0
    {
      hide Emitted, Lines, ShownPath;
      lines, paths := lines0, paths0;
      NamesBelow(p);
      SameDomain();
      KidsDistinct(p);
      for i := 0 to |frame.children|
        invariant Lines(added, lines, paths)
        invariant Distinct(paths) && forall q :: q in paths <==> q in Emitted() && Under(q, p, kids[p][..i])
      {
        ghost var n := kids[p][i];
        assert frame.children[i] == nodes[p + [n]];
        assert (p + [n])[..|p|] == p;
        Smaller(p, n);
        var more;
        ghost var morePaths;
        more, morePaths := Traverse(frame.children[i], p + [n], currentPath);
        LinesJoin(added, lines, paths, more, morePaths);
        PathsJoin(Emitted(), p, kids[p], i, paths, morePaths);
        lines, paths := lines + more, paths + morePaths;
      }
      assert kids[p][..|kids[p]|] == kids[p];
      EmittedUnder(p);
    }

    lemma {:induction false} EmittedUnder(p: Stack)
      requires Valid() && p in nodes
      ensures p in kids && forall q :: q in Emitted() && Under(q, p, kids[p]) <==> q in Emitted() && p <= q
    {
      hide Emitted;
      SameDomain();
      forall q | q in Emitted() && p <= q
        ensures Under(q, p, kids[p])
      {
        EmittedKnown(q);
        BelowName(kids, added, p, q);
      }
    }

    lemma {:induction false} EmittedKnown(q: Stack)
      requires Shaped() && q in Emitted()
      ensures q in kids
    {
    }

    lemma {:induction false} KidsDistinct(p: Stack)
      requires Shaped() && p in nodes
      ensures Distinct(kids[p])
    {
    }

    lemma {:induction false} FrameName(p: Stack)
      requires Shaped() && p in nodes
      ensures nodes[p].name == if p == [] then "root" else p[|p| - 1]
    {
    }

    lemma {:induction false} Smaller(p: Stack, n: string)
      requires p in nodes
      ensures Below(p + [n]) < Below(p)
    {
      assert p in Below(p) && p !in Below(p + [n]);
    }

    /** The lines of the whole tree, with the paths they stand for: for positive values one line for
        every distinct stack that was added and does not end in a frame named like the root. */
    method GenerateFoldedStacks() returns (lines: seq<Sample>, ghost paths: seq<Stack>)
      requires Valid()
      ensures Lines(added, lines, paths) && Distinct(paths) && forall q :: q in paths <==> q in Emitted()
      ensures AllPositive(added) ==> Folded(added, lines, paths)
      ensures AllPositive(added) ==> Total(lines) == ShownTotal(added) <= totalValue
      ensures AllPositive(added) ==> (Exactly(added, lines) <==> NoFrameIsRoot(added))
    {
      hide Emitted, Lines, Exactly, NoFrameIsRoot;
      SameDomain();
      RootKnown();
      lines, paths := Traverse(rootFrame, [], []);
      if AllPositive(added) {
        forall q
          ensures q in Emitted() <==> IsAdded(added, q) && !EndsInRoot(q)
        {
          EmittedIs(q);
        }
        FoldedTotalIff(added, lines, paths);
        FoldedStacks(added, lines, paths);
      }
    }

    lemma {:induction false} RootKnown()
      requires Shaped()
      ensures [] in nodes && nodes[[]] == rootFrame
    {
    }

    lemma {:induction false} EmittedIs(q: Stack)
      requires Valid() && AllPositive(added)
      ensures q in Emitted() <==> IsAdded(added, q) && !EndsInRoot(q)
    {
      hide Ends, EndsInRoot;
      SameDomain();
      EndsPositive(added, q);
      if IsAdded(added, q) {
        var i :| 0 <= i < |added| && added[i].stack == q;
        assert Occurs(added, q);
        assert q in kids;
      }
    }
  }
}
