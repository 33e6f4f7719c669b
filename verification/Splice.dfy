/** Splicing of subprograms: a program is a list of instructions in which symbols open subprograms; a
    stub is replaced by generated code, or removed together with the calls to it. */
module Splice {
  /** An instruction with its metadata: the symbol it defines and the symbol it refers to, or "". */
  datatype Insn = Insn(sym: string, ref: string, code: Code)

  datatype Code = MovR0(imm: int) | Other(bits: int)

  /** `r0 = b`, without metadata. */
  function MoveResult(isFilter: bool): Insn {
    Insn("", "", MovR0(if isFilter then 1 else 0))
  }

  // Reference: subprograms -----------------------------------------------------------------------

  /** No instruction but the first defines a symbol. */
  predicate Plain(block: seq<Insn>) {
    forall i :: 0 < i < |block| ==> block[i].sym == ""
  }

  predicate LabelFree(code: seq<Insn>) {
    forall i :: 0 <= i < |code| ==> code[i].sym == ""
  }

  predicate OpensBlock(p: seq<Insn>) {
    p == [] || p[0].sym != ""
  }

  /** `p` is `pre`, the subprogram `block` of the stub, and `post`. */
  predicate SplitsAt(p: seq<Insn>, stub: string, pre: seq<Insn>, block: seq<Insn>, post: seq<Insn>) {
    && p == pre + block + post
    && (forall i :: 0 <= i < |pre| ==> pre[i].sym != stub)
    && block != [] && block[0].sym == stub && Plain(block) && OpensBlock(post)
  }

  /** The subprograms in order: a list of runs, each but perhaps the first opened by a symbol. */
  function Blocks(p: seq<Insn>): (bs: seq<seq<Insn>>)
    ensures p != [] ==> bs != [] && bs[|bs| - 1] != []
  {
    if p == [] then []
    else
      var last := p[|p| - 1];
      var bs := Blocks(p[..|p| - 1]);
      if last.sym != "" || bs == [] then bs + [[last]] else bs[|bs| - 1 := bs[|bs| - 1] + [last]]
  }

  /** What opens a block starts a new run. */
  lemma {:induction false} BlocksConcat(a: seq<Insn>, b: seq<Insn>)
    requires OpensBlock(b)
    ensures Blocks(a + b) == Blocks(a) + Blocks(b)
  {
    if b == [] {
      assert a + b == a && Blocks(a) + Blocks(b) == Blocks(a);
    } else {
      var n := |b| - 1;
      assert (a + b)[..|a + b| - 1] == a + b[..n];
      BlocksConcat(a, b[..n]);
      if n > 0 && b[n].sym == "" {
        var bs := Blocks(b[..n]);
        assert (Blocks(a) + bs)[|Blocks(a) + bs| - 1] == bs[|bs| - 1];
      }
    }
  }

  lemma {:induction false} BlocksOfOne(block: seq<Insn>)
    requires block != [] && Plain(block)
    ensures Blocks(block) == [block]
  {
    var n := |block| - 1;
    if n == 0 {
      assert block[..0] == [] && block == [block[0]];
    } else {
      BlocksOfOne(block[..n]);
      assert block[..n] + [block[n]] == block;
    }
  }

  // Splicing -------------------------------------------------------------------------------------

  /** The injected code takes over the metadata of the first instruction of the stub. */
  function Adopted(insns: seq<Insn>, first: Insn): seq<Insn> {
    if insns == [] then [] else [Insn(first.sym, first.ref, insns[0].code)] + insns[1..]
  }

  class Program {
    var insns: seq<Insn>

    constructor (insns: seq<Insn>)
      ensures this.insns == insns
    {
      this.insns := insns;
    }

    method FindStartIndex(stub: string) returns (i: nat, ok: bool)
      ensures ok <==> exists j :: 0 <= j < |insns| && insns[j].sym == stub
      ensures ok ==> i < |insns| && insns[i].sym == stub && forall j :: 0 <= j < i ==> insns[j].sym != stub
    {
      i := 0;
      while i < |insns|
        invariant i <= |insns| && forall j :: 0 <= j < i ==> insns[j].sym != stub
      {
        if insns[i].sym == stub {
          return i, true;
        }
        i := i + 1;
      }
      return 0, false;
    }

    method FindEndIndex(start: nat) returns (end: nat)
      requires start < |insns|
      ensures start <= end < |insns| && Plain(insns[start..end + 1]) && OpensBlock(insns[end + 1..])
    {
      var idx := start + 1;
      while idx < |insns|
        invariant start < idx <= |insns| && forall j :: start < j < idx ==> insns[j].sym == ""
      {
        if insns[idx].sym != "" {
          break;
        }
        idx := idx + 1;
      }
      end := idx - 1;
    }

    method InjectInsns(stub: string, code: seq<Insn>)
      modifies this
      ensures insns == Injected(old(insns), stub, code)
    {
      var start, ok := FindStartIndex(stub);
      if !ok {
        return;
      }
      var end := FindEndIndex(start);
      SplitUnique(insns, stub, insns[..start], insns[start..end + 1], insns[end + 1..], code);
      insns := insns[..start] + (Adopted(code, insns[start]) + insns[end + 1..]);
    }

    method ClearSubprog(stub: string, isFilter: bool)
      modifies this
      ensures insns == Cleared(old(insns), stub, isFilter)
    {
      InjectInsns(stub, []);
      ghost var injected := insns;
      var i := 0;
      while i < |insns|
        invariant i <= |insns| == |injected|
        invariant forall j :: 0 <= j < i ==> insns[j] == Rewritten(injected[j], stub, isFilter)
        invariant forall j :: i <= j < |insns| ==> insns[j] == injected[j]
      {
        if insns[i].ref == stub {
          insns := insns[i := MoveResult(isFilter)];
        }
        i := i + 1;
      }
    }
  }

  /** The place of the first definition of the stub. */
  function StartOf(p: seq<Insn>, stub: string): (i: nat)
    ensures i <= |p| && forall j :: 0 <= j < i ==> p[j].sym != stub
    ensures i < |p| ==> p[i].sym == stub
  {
    if p == [] then 0 else if p[0].sym == stub then 0 else 1 + StartOf(p[1..], stub)
  }

  /** The length of the subprogram that `p` begins with. */
  function BlockLength(p: seq<Insn>): (n: nat)
    requires p != []
    ensures 0 < n <= |p| && Plain(p[..n]) && OpensBlock(p[n..])
  {
    if |p| == 1 || p[1].sym != "" then 1
    else
      var n := BlockLength(p[1..]);
      assert p[..n + 1] == [p[0]] + p[1..][..n] && p[n + 1..] == p[1..][n..];
      n + 1
  }

  function Injected(p: seq<Insn>, stub: string, code: seq<Insn>): seq<Insn> {
    var i := StartOf(p, stub);
    if i == |p| then p
    else
      var n := BlockLength(p[i..]);
      p[..i] + (Adopted(code, p[i]) + p[i + n..])
  }

  function Rewritten(insn: Insn, stub: string, isFilter: bool): Insn {
    if insn.ref == stub then MoveResult(isFilter) else insn
  }

  function RewrittenAll(p: seq<Insn>, stub: string, isFilter: bool): (r: seq<Insn>)
    ensures |r| == |p|
  {
    seq(|p|, i requires 0 <= i < |p| => Rewritten(p[i], stub, isFilter))
  }

  function Cleared(p: seq<Insn>, stub: string, isFilter: bool): seq<Insn> {
    RewrittenAll(Injected(p, stub, []), stub, isFilter)
  }

  // Properties -----------------------------------------------------------------------------------

  lemma {:induction false} BlockLengthIs(block: seq<Insn>, post: seq<Insn>)
    requires block != [] && Plain(block) && OpensBlock(post)
    ensures BlockLength(block + post) == |block|
  {
    if |block| > 1 {
      assert (block + post)[1..] == block[1..] + post;
      BlockLengthIs(block[1..], post);
    }
  }

  lemma {:induction false} StartIs(pre: seq<Insn>, stub: string, rest: seq<Insn>)
    requires rest != [] && rest[0].sym == stub && forall i :: 0 <= i < |pre| ==> pre[i].sym != stub
    ensures StartOf(pre + rest, stub) == |pre|
  {
    if pre == [] {
      assert pre + rest == rest;
    } else {
      assert (pre + rest)[1..] == pre[1..] + rest;
      StartIs(pre[1..], stub, rest);
    }
  }

  /** A defined stub splits the program in one way. */
  lemma {:induction false} SplitUnique(p: seq<Insn>, stub: string, pre: seq<Insn>, block: seq<Insn>,
                                       post: seq<Insn>, code: seq<Insn>)
    requires SplitsAt(p, stub, pre, block, post)
    ensures StartOf(p, stub) == |pre| && BlockLength(p[|pre|..]) == |block|
    ensures Injected(p, stub, code) == pre + (Adopted(code, block[0]) + post)
  {
    hide Adopted;
    assert p == pre + (block + post);
    StartIs(pre, stub, block + post);
    BlockLengthIs(block, post);
    assert p[|pre|..] == block + post && p[|pre|] == block[0];
    assert p[..|pre|] == pre && p[|pre| + |block|..] == post;
  }

  lemma {:induction false} SplitExists(p: seq<Insn>, stub: string)
    returns (pre: seq<Insn>, block: seq<Insn>, post: seq<Insn>)
    requires exists j :: 0 <= j < |p| && p[j].sym == stub
    ensures SplitsAt(p, stub, pre, block, post)
  {
    var i := StartOf(p, stub);
    var n := BlockLength(p[i..]);
    pre, block, post := p[..i], p[i..][..n], p[i..][n..];
    assert p == pre + block + post;
  }

  lemma {:induction false} AdoptedPlain(code: seq<Insn>, first: Insn)
    requires LabelFree(code) && code != []
    ensures Plain(Adopted(code, first)) && Adopted(code, first) != [] && Adopted(code, first)[0].sym == first.sym
  {
    var a := Adopted(code, first);
    assert forall i :: 0 < i < |a| ==> a[i] == code[i];
  }

  /** Injecting code without labels replaces exactly one subprogram, which keeps its symbol; all others
      and their order stay. */
  lemma {:induction false} InjectReplacesOne(p: seq<Insn>, stub: string, code: seq<Insn>, pre: seq<Insn>,
                                             block: seq<Insn>, post: seq<Insn>)
    requires stub != "" && SplitsAt(p, stub, pre, block, post) && LabelFree(code) && code != []
    ensures Blocks(p) == Blocks(pre) + [block] + Blocks(post)
    ensures Blocks(Injected(p, stub, code)) == Blocks(pre) + [Adopted(code, block[0])] + Blocks(post)
    ensures var a := Adopted(code, block[0]);
            && |a| == |code| && a[0] == Insn(stub, block[0].ref, code[0].code)
            && forall i :: 0 < i < |code| ==> a[i] == code[i]
  {
    var a := Adopted(code, block[0]);
    AdoptedPlain(code, block[0]);
    AdoptedTwice(code, [], block[0]);
    SplitAgain(p, stub, code, pre, block, post);
    hide Blocks, Injected, Adopted;
    ThreeParts(pre, block, post);
    ThreeParts(pre, a, post);
  }

  lemma {:induction false} ThreeParts(pre: seq<Insn>, block: seq<Insn>, post: seq<Insn>)
    requires block != [] && block[0].sym != "" && Plain(block) && OpensBlock(post)
    ensures Blocks(pre + block + post) == Blocks(pre) + [block] + Blocks(post)
  {
    BlocksConcat(pre + block, post);
    BlocksConcat(pre, block);
    BlocksOfOne(block);
  }

  /** A second injection overwrites the first one exactly when the first code brought no labels beyond
      its first instruction; otherwise what follows the first label stays behind. */
  lemma {:induction false} InjectTwiceIff(p: seq<Insn>, stub: string, a: seq<Insn>, b: seq<Insn>, pre: seq<Insn>,
                                          block: seq<Insn>, post: seq<Insn>)
    requires stub != "" && SplitsAt(p, stub, pre, block, post) && a != []
    ensures Injected(Injected(p, stub, a), stub, b) == Injected(p, stub, b) <==> Plain(a)
  {
    if Plain(a) {
      PlainOverwritten(p, stub, a, b, pre, block, post);
    } else {
      LabelStays(p, stub, a, b, pre, block, post);
    }
  }

  lemma {:induction false} AdoptedTwice(a: seq<Insn>, b: seq<Insn>, first: Insn)
    requires a != []
    ensures Adopted(b, Adopted(a, first)[0]) == Adopted(b, first)
    ensures |Adopted(a, first)| == |a| && forall i :: 0 < i < |a| ==> Adopted(a, first)[i] == a[i]
  {
  }

  /** After an injection of plain code the program splits at the same places. */
  lemma {:induction false} SplitAgain(p: seq<Insn>, stub: string, a: seq<Insn>, pre: seq<Insn>, block: seq<Insn>,
                                      post: seq<Insn>)
    requires SplitsAt(p, stub, pre, block, post) && a != [] && Plain(a)
    ensures SplitsAt(Injected(p, stub, a), stub, pre, Adopted(a, block[0]), post)
  {
    SplitUnique(p, stub, pre, block, post, a);
    AdoptedTwice(a, [], block[0]);
    hide Adopted, Injected;
    assert pre + (Adopted(a, block[0]) + post) == pre + Adopted(a, block[0]) + post;
  }

  lemma {:induction false} PlainOverwritten(p: seq<Insn>, stub: string, a: seq<Insn>, b: seq<Insn>, pre: seq<Insn>,
                                            block: seq<Insn>, post: seq<Insn>)
    requires stub != "" && SplitsAt(p, stub, pre, block, post) && a != [] && Plain(a)
    ensures Injected(Injected(p, stub, a), stub, b) == Injected(p, stub, b)
  {
    SplitAgain(p, stub, a, pre, block, post);
    SplitUnique(p, stub, pre, block, post, b);
    AdoptedTwice(a, b, block[0]);
    hide Injected, SplitsAt, Plain;
    SplitUnique(Injected(p, stub, a), stub, pre, Adopted(a, block[0]), post, b);
  }

  lemma {:induction false} LabelStays(p: seq<Insn>, stub: string, a: seq<Insn>, b: seq<Insn>, pre: seq<Insn>,
                                      block: seq<Insn>, post: seq<Insn>)
    requires stub != "" && SplitsAt(p, stub, pre, block, post) && a != [] && !Plain(a)
    ensures |Injected(Injected(p, stub, a), stub, b)| > |Injected(p, stub, b)|
  {
    var adopted := Adopted(a, block[0]);
    var n := BlockLength(adopted);
    LabelCuts(a, block[0], n);
    var head, tail := adopted[..n], adopted[n..] + post;
    SplitAtLabel(p, stub, a, pre, block, post, n);
    SplitUnique(p, stub, pre, block, post, b);
    AdoptedTwice(a, b, block[0]);
    hide Injected, SplitsAt, Plain;
    SplitUnique(Injected(p, stub, a), stub, pre, head, tail, b);
  }

  lemma {:induction false} SplitAtLabel(p: seq<Insn>, stub: string, a: seq<Insn>, pre: seq<Insn>, block: seq<Insn>,
                                        post: seq<Insn>, n: nat)
    requires SplitsAt(p, stub, pre, block, post) && a != []
    requires 0 < n < |a| && Plain(Adopted(a, block[0])[..n]) && OpensBlock(Adopted(a, block[0])[n..])
    ensures SplitsAt(Injected(p, stub, a), stub, pre, Adopted(a, block[0])[..n], Adopted(a, block[0])[n..] + post)
  {
    SplitUnique(p, stub, pre, block, post, a);
    AdoptedTwice(a, [], block[0]);
    hide Injected, Plain;
    MakeSplit(pre, Adopted(a, block[0]), n, post, stub);
  }

  lemma {:induction false} MakeSplit(pre: seq<Insn>, body: seq<Insn>, n: nat, post: seq<Insn>, stub: string)
    requires (forall i :: 0 <= i < |pre| ==> pre[i].sym != stub) && 0 < n < |body| && body[0].sym == stub
    requires Plain(body[..n]) && OpensBlock(body[n..])
    ensures SplitsAt(pre + (body + post), stub, pre, body[..n], body[n..] + post)
  {
    var head, tail := body[..n], body[n..];
    assert body == head + tail;
    assert head[0] == body[0] && (tail + post)[0] == tail[0];
    hide Plain;
    Regrouped(pre, head, tail, post);
  }

  lemma {:induction false} Regrouped(a: seq<Insn>, b: seq<Insn>, c: seq<Insn>, d: seq<Insn>)
    ensures a + ((b + c) + d) == a + b + (c + d)
  {
  }

  lemma {:induction false} LabelCuts(a: seq<Insn>, first: Insn, n: nat)
    requires a != [] && !Plain(a) && n == BlockLength(Adopted(a, first))
    ensures n < |a| && Plain(Adopted(a, first)[..n]) && OpensBlock(Adopted(a, first)[n..])
  {
    var adopted := Adopted(a, first);
    AdoptedTwice(a, [], first);
    var i :| 0 < i < |a| && a[i].sym != "";
    forall m | i < m <= |adopted|
      ensures !Plain(adopted[..m])
    {
      LabelInside(adopted, m, i);
    }
  }

  lemma {:induction false} LabelInside(s: seq<Insn>, m: nat, i: nat)
    requires 0 < i < m <= |s| && s[i].sym != ""
    ensures !Plain(s[..m])
  {
    assert s[..m][i] == s[i];
  }

  predicate UniqueSymbols(p: seq<Insn>) {
    forall i, j :: 0 <= i < j < |p| && p[i].sym != "" ==> p[i].sym != p[j].sym
  }

  /** No instruction but the first both defines a symbol and refers to the stub. */
  predicate CallsInside(p: seq<Insn>, stub: string) {
    forall i :: 0 < i < |p| && p[i].ref == stub ==> p[i].sym == ""
  }

  /** After clearing, nothing defines or calls the stub. */
  lemma {:induction false} ClearRemoves(p: seq<Insn>, stub: string, isFilter: bool)
    requires stub != "" && UniqueSymbols(p)
    ensures forall i :: 0 <= i < |Cleared(p, stub, isFilter)| ==>
              Cleared(p, stub, isFilter)[i].sym != stub && Cleared(p, stub, isFilter)[i].ref != stub
  {
    var q := Injected(p, stub, []);
    var i := StartOf(p, stub);
    forall j | 0 <= j < |q|
      ensures q[j].sym != stub
    {
      if i < |p| && j >= i {
        var n := BlockLength(p[i..]);
        assert q[j] == p[j + n];
      }
    }
  }

  /** After clearing the stub of a filter every call of it that is left loads 1, after clearing an output stub
      0, without symbol and reference; every other instruction stays. */
  lemma {:induction false} ClearLoads(p: seq<Insn>, stub: string, isFilter: bool, pre: seq<Insn>, block: seq<Insn>, post: seq<Insn>,
                                      i: nat)
    requires SplitsAt(p, stub, pre, block, post) && i < |pre + post|
    ensures |Cleared(p, stub, isFilter)| == |pre + post|
    ensures Cleared(p, stub, isFilter)[i] ==
            if (pre + post)[i].ref != stub then (pre + post)[i]
            else if isFilter then Insn("", "", MovR0(1))
            else Insn("", "", MovR0(0))
  {
    InjectNothing(p, stub, pre, block, post);
    hide Injected;
  }

  /** After clearing, every other subprogram is left with its place, its length and its instructions,
      but for calls of the stub, which become a move, so that the relative jumps inside it stay valid: exactly
      when none of them but the first of all begins with a reference to the stub. */
  lemma {:induction false} ClearKeepsOthers(p: seq<Insn>, stub: string, isFilter: bool, pre: seq<Insn>,
                                            block: seq<Insn>, post: seq<Insn>)
    requires stub != "" && SplitsAt(p, stub, pre, block, post)
    ensures Blocks(p) == Blocks(pre) + [block] + Blocks(post)
    ensures Blocks(Cleared(p, stub, isFilter)) ==
            RewrittenBlocks(Blocks(pre), stub, isFilter) + RewrittenBlocks(Blocks(post), stub, isFilter)
            <==> CallsInside(pre + post, stub)
  {
    ThreeParts(pre, block, post);
    InjectNothing(p, stub, pre, block, post);
    hide Injected, Blocks;
    if CallsInside(pre + post, stub) {
      RewrittenBlocksIs(pre + post, stub, isFilter);
    } else {
      BordersLost(pre + post, stub, isFilter);
    }
    BlocksConcat(pre, post);
    RewrittenConcat(Blocks(pre), Blocks(post), stub, isFilter);
  }

  /** A subprogram that begins with a reference to the stub loses its symbol, and with it its border. */
  lemma {:induction false} BordersLost(p: seq<Insn>, stub: string, isFilter: bool)
    ensures |Blocks(RewrittenAll(p, stub, isFilter))| <= |Blocks(p)|
    ensures !CallsInside(p, stub) ==> |Blocks(RewrittenAll(p, stub, isFilter))| < |Blocks(p)|
  {
    if p != [] {
      var n, r := |p| - 1, RewrittenAll(p, stub, isFilter);
      assert r[..n] == RewrittenAll(p[..n], stub, isFilter) && r[n] == Rewritten(p[n], stub, isFilter);
      BlockCount(p);
      BlockCount(r);
      hide RewrittenAll, Blocks;
      BordersLost(p[..n], stub, isFilter);
    }
  }

  lemma {:induction false} BlockCount(p: seq<Insn>)
    requires p != []
    ensures |Blocks(p)| == |Blocks(p[..|p| - 1])| + if |p| == 1 || p[|p| - 1].sym != "" then 1 else 0
  {
  }

  /** Every remaining symbol stays on its instruction exactly when no instruction at all both defines one and
      refers to the stub. */
  lemma {:induction false} ClearKeepsSymbolsIff(p: seq<Insn>, stub: string, isFilter: bool, pre: seq<Insn>,
                                                block: seq<Insn>, post: seq<Insn>)
    requires stub != "" && SplitsAt(p, stub, pre, block, post)
    ensures var q, r := pre + post, Cleared(p, stub, isFilter);
            && |r| == |q|
            && ((forall i :: 0 <= i < |q| ==> r[i].sym == q[i].sym) <==>
                (forall i :: 0 <= i < |q| && q[i].ref == stub ==> q[i].sym == ""))
  {
    InjectNothing(p, stub, pre, block, post);
    var q, r := pre + post, Cleared(p, stub, isFilter);
    assert forall i :: 0 <= i < |q| ==> r[i] == Rewritten(q[i], stub, isFilter);
  }

  /** `main`, a wrapper that consists of a call of the stub, and the stub. */
  const Wrapped: seq<Insn> :=
    [Insn("main", "", Other(1)), Insn("wrap", "stub", Other(2)), Insn("", "", Other(3)),
     Insn("stub", "", MovR0(0)), Insn("", "", Other(3))]

  /** Clearing the stub merges the wrapper into `main`: its symbol is gone and `main` runs on into it. */
  lemma {:induction false} WrapperMerges(isFilter: bool)
    ensures UniqueSymbols(Wrapped)
    ensures |Blocks(Wrapped)| == 3
    ensures Cleared(Wrapped, "stub", isFilter) ==
            [Insn("main", "", Other(1)), MoveResult(isFilter), Insn("", "", Other(3))]
    ensures Blocks(Cleared(Wrapped, "stub", isFilter)) == [Cleared(Wrapped, "stub", isFilter)]
  {
    WrappedParts();
    WrappedCleared(isFilter);
    hide Cleared, Blocks;
    var pre := Wrapped[..3];
    ThreeParts(pre, Wrapped[3..], []);
    BlocksConcat(pre[..1], pre[1..]);
    BlocksOfOne(pre[..1]);
    BlocksOfOne(pre[1..]);
    BlocksOfOne(Cleared(Wrapped, "stub", isFilter));
    assert Blocks([]) == [] by { NoBlocks(); }
  }

  lemma {:induction false} WrappedCleared(isFilter: bool)
    ensures Cleared(Wrapped, "stub", isFilter) == [Insn("main", "", Other(1)), MoveResult(isFilter), Insn("", "", Other(3))]
  {
    WrappedParts();
    InjectNothing(Wrapped, "stub", Wrapped[..3], Wrapped[3..], []);
    hide Injected;
  }

  lemma {:induction false} NoBlocks()
    ensures Blocks([]) == []
  {
  }

  lemma {:induction false} WrappedParts()
    ensures UniqueSymbols(Wrapped) && SplitsAt(Wrapped, "stub", Wrapped[..3], Wrapped[3..], [])
    ensures Wrapped[..3] == Wrapped[..1] + Wrapped[1..3]
    ensures "main" != "stub" && "wrap" != "stub" && "wrap" != "main"
  {
    assert |"main"| == 4 && "main"[0] == 'm' && "stub"[0] == 's' && "wrap"[0] == 'w';
  }

  lemma {:induction false} InjectNothing(p: seq<Insn>, stub: string, pre: seq<Insn>, block: seq<Insn>, post: seq<Insn>)
    requires SplitsAt(p, stub, pre, block, post)
    ensures Injected(p, stub, []) == pre + post
  {
    SplitUnique(p, stub, pre, block, post, []);
    assert [] + post == post;
    hide Injected;
  }

  function RewrittenBlocks(bs: seq<seq<Insn>>, stub: string, isFilter: bool): (r: seq<seq<Insn>>)
    ensures |r| == |bs| && forall i :: 0 <= i < |bs| ==> |r[i]| == |bs[i]|
  {
    seq(|bs|, i requires 0 <= i < |bs| => RewrittenAll(bs[i], stub, isFilter))
  }

  lemma {:induction false} RewrittenConcat(a: seq<seq<Insn>>, b: seq<seq<Insn>>, stub: string, isFilter: bool)
    ensures RewrittenBlocks(a + b, stub, isFilter) == RewrittenBlocks(a, stub, isFilter) + RewrittenBlocks(b, stub, isFilter)
  {
  }

  /** Rewriting calls does not move the borders of subprograms. */
  lemma {:induction false} RewrittenBlocksIs(p: seq<Insn>, stub: string, isFilter: bool)
    requires CallsInside(p, stub)
    ensures Blocks(RewrittenAll(p, stub, isFilter)) == RewrittenBlocks(Blocks(p), stub, isFilter)
  {
    var r := RewrittenAll(p, stub, isFilter);
    if p == [] {
      assert Blocks(r) == [] == RewrittenBlocks(Blocks(p), stub, isFilter);
    } else {
      var n := |p| - 1;
      assert r[..n] == RewrittenAll(p[..n], stub, isFilter) && r[n] == Rewritten(p[n], stub, isFilter);
      hide RewrittenBlocks, RewrittenAll, Rewritten;
      RewrittenBlocksIs(p[..n], stub, isFilter);
      NextBlocks(p, n, Blocks(p[..n]), stub, isFilter);
    }
  }

  lemma {:induction false} NextBlocks(p: seq<Insn>, n: nat, bs: seq<seq<Insn>>, stub: string, isFilter: bool)
    requires CallsInside(p, stub) && n < |p|
    ensures var x := p[n]; var y := Rewritten(x, stub, isFilter);
            var rs := RewrittenBlocks(bs, stub, isFilter);
            && (n > 0 ==> (x.sym != "" <==> y.sym != ""))
            && RewrittenBlocks(bs + [[x]], stub, isFilter) == rs + [[y]]
            && (bs != [] ==> RewrittenBlocks(bs[|bs| - 1 := bs[|bs| - 1] + [x]], stub, isFilter) ==
                             rs[|bs| - 1 := rs[|bs| - 1] + [y]])
  {
    var x := p[n];
    assert RewrittenAll([x], stub, isFilter) == [Rewritten(x, stub, isFilter)];
    if bs != [] {
      var last := bs[|bs| - 1];
      assert RewrittenAll(last + [x], stub, isFilter) == RewrittenAll(last, stub, isFilter) + [Rewritten(x, stub, isFilter)];
    }
  }
}
