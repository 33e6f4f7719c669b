/** Branch records: the last branches of a CPU, newest first, are turned around and grouped into runs
    in which one branch ends in the function the next one starts in, with the column widths of each
    run kept on the way. */
module Lbr {

  datatype Endpoint = Endpoint(funcName: string, nameLen: nat, infoLen: nat)

  datatype Entry = Entry(from: Endpoint, to: Endpoint)

  datatype Widths = Widths(fromName: nat, fromInfo: nat, toName: nat, toInfo: nat)

  // Reference ------------------------------------------------------------------------------------

  /** The second branch starts in the function the first one has gone to. */
  predicate Linked(a: Entry, b: Entry) {
    a.to.funcName == b.from.funcName
  }

  function Reversed(es: seq<Entry>): (r: seq<Entry>)
    ensures |r| == |es| && forall i :: 0 <= i < |es| ==> r[i] == es[|es| - 1 - i]
  {
    if es == [] then [] else [es[|es| - 1]] + Reversed(es[..|es| - 1])
  }

  function Flat(runs: seq<seq<Entry>>): seq<Entry> {
    if runs == [] then [] else Flat(runs[..|runs| - 1]) + runs[|runs| - 1]
  }

  /** The entry goes on in the last run. */
  predicate Joins(runs: seq<seq<Entry>>, e: Entry) {
    runs != [] && runs[|runs| - 1] != [] && Linked(runs[|runs| - 1][|runs[|runs| - 1]| - 1], e)
  }

  function Pushed(runs: seq<seq<Entry>>, e: Entry): seq<seq<Entry>> {
    if Joins(runs, e) then runs[|runs| - 1 := runs[|runs| - 1] + [e]] else runs + [[e]]
  }

  /** The grouping, one entry at a time. */
  function Grouped(es: seq<Entry>): seq<seq<Entry>> {
    if es == [] then [] else Pushed(Grouped(es[..|es| - 1]), es[|es| - 1])
  }

  predicate Chain(run: seq<Entry>) {
    run != [] && forall i :: 0 <= i < |run| - 1 ==> run[i].to.funcName == run[i + 1].from.funcName
  }

  /** Runs that cannot be made longer: each one is a chain, and none goes on in the next one. */
  predicate MaximalRuns(runs: seq<seq<Entry>>) {
    && (forall i :: 0 <= i < |runs| ==> Chain(runs[i]))
    && (forall i :: 0 <= i < |runs| - 1 ==> runs[i][|runs[i]| - 1].to.funcName != runs[i + 1][0].from.funcName)
  }

  lemma {:induction false} PushedFlat(runs: seq<seq<Entry>>, e: Entry)
    ensures Flat(Pushed(runs, e)) == Flat(runs) + [e]
  {
    var after := Pushed(runs, e);
    if Joins(runs, e) {
      var n := |runs| - 1;
      assert after[..n] == runs[..n];
      assert Flat(runs[..n]) + (runs[n] + [e]) == Flat(runs[..n]) + runs[n] + [e];
    } else {
      assert after[..|runs|] == runs;
    }
  }

  lemma {:induction false} PushedMaximal(runs: seq<seq<Entry>>, e: Entry)
    requires MaximalRuns(runs)
    ensures MaximalRuns(Pushed(runs, e))
  {
    var after := Pushed(runs, e);
    if Joins(runs, e) {
      var run := runs[|runs| - 1];
      assert Chain(run + [e]);
      assert forall i :: 0 <= i < |runs| - 1 ==> after[i] == runs[i];
    } else {
      assert forall i :: 0 <= i < |runs| ==> after[i] == runs[i];
      assert Chain([e]);
    }
  }

  /** The grouping loses nothing and its runs are maximal. */
  lemma {:induction false} GroupedIs(es: seq<Entry>)
    ensures Flat(Grouped(es)) == es && MaximalRuns(Grouped(es))
  {
    if es != [] {
      var n := |es| - 1;
      GroupedIs(es[..n]);
      PushedFlat(Grouped(es[..n]), es[n]);
      PushedMaximal(Grouped(es[..n]), es[n]);
    }
  }

  /** Maximal runs come from maximal runs with one entry less. */
  lemma {:induction false} LastPushed(runs: seq<seq<Entry>>) returns (prev: seq<seq<Entry>>, e: Entry)
    requires runs != [] && MaximalRuns(runs)
    ensures MaximalRuns(prev) && Pushed(prev, e) == runs
  {
    var n := |runs| - 1;
    var run := runs[n];
    var m := |run| - 1;
    assert Chain(run);
    e := run[m];
    assert run[..m] + [e] == run;
    if m == 0 {
      prev := runs[..n];
      assert prev + [run] == runs;
      assert n > 0 ==> prev[n - 1] == runs[n - 1];
    } else {
      prev := runs[..n] + [run[..m]];
      assert forall i :: 0 <= i < n ==> prev[i] == runs[i];
      assert Chain(run[..m]);
      assert prev[n := run] == runs;
    }
  }

  /** There is only one way to split a list into maximal runs. */
  lemma {:induction false} MaximalUnique(runs: seq<seq<Entry>>)
    requires MaximalRuns(runs)
    ensures Grouped(Flat(runs)) == runs
    decreases |Flat(runs)|
  {
    if runs != [] {
      var prev, e := LastPushed(runs);
      PushedFlat(prev, e);
      assert Flat(runs)[..|Flat(runs)| - 1] == Flat(prev);
      MaximalUnique(prev);
    }
  }

  // Widths ---------------------------------------------------------------------------------------

  function Max(a: nat, b: nat): nat {
    if a < b then b else a
  }

  function Wider(w: Widths, v: Widths): Widths {
    Widths(Max(w.fromName, v.fromName), Max(w.fromInfo, v.fromInfo), Max(w.toName, v.toName), Max(w.toInfo, v.toInfo))
  }

  function WidthsOf(e: Entry): Widths {
    Widths(e.from.nameLen, e.from.infoLen, e.to.nameLen, e.to.infoLen)
  }

  /** The widths kept while entries are added. */
  function WidthsOfAll(es: seq<Entry>): Widths {
    if es == [] then Widths(0, 0, 0, 0) else Wider(WidthsOfAll(es[..|es| - 1]), WidthsOf(es[|es| - 1]))
  }

  /** The kept widths are the exact maxima: nothing is wider, and each is the width of some entry. */
  lemma {:induction false} WidthsExact(es: seq<Entry>)
    ensures forall e :: e in es ==> Wider(WidthsOfAll(es), WidthsOf(e)) == WidthsOfAll(es)
    ensures es != [] ==>
              && (exists e :: e in es && e.from.nameLen == WidthsOfAll(es).fromName)
              && (exists e :: e in es && e.from.infoLen == WidthsOfAll(es).fromInfo)
              && (exists e :: e in es && e.to.nameLen == WidthsOfAll(es).toName)
              && (exists e :: e in es && e.to.infoLen == WidthsOfAll(es).toInfo)
  {
    if es != [] {
      var front, last := es[..|es| - 1], es[|es| - 1];
      WidthsExact(front);
      assert last in es && forall e :: e in front ==> e in es;
      assert forall e :: e in es ==> e in front || e == last;
    }
  }

  lemma {:induction false} WidthsJoin(a: seq<Entry>, b: seq<Entry>)
    ensures WidthsOfAll(a + b) == Wider(WidthsOfAll(a), WidthsOfAll(b))
  {
    if b == [] {
      assert a + b == a;
    } else {
      assert (a + b)[..|a + b| - 1] == a + b[..|b| - 1];
      WidthsJoin(a, b[..|b| - 1]);
    }
  }

  // In the form of the program -------------------------------------------------------------------

  class BranchRecord {
    var entries: seq<Entry>
    var last: int
    var widths: Widths

    ghost predicate Valid()
      reads this
    {
      entries != [] && last == |entries| - 1 && widths == WidthsOfAll(entries)
    }

    constructor (e: Entry)
      ensures Valid() && entries == [e]
    {
      entries, last, widths := [], -1, Widths(0, 0, 0, 0);
      new;
      AddEntry(e);
    }

    method AddEntry(e: Entry)
      requires last == |entries| - 1 && widths == WidthsOfAll(entries)
      modifies this
      ensures Valid() && entries == old(entries) + [e]
    {
      entries := entries + [e];
      last := last + 1;
      widths := Wider(widths, WidthsOf(e));
    }
  }

  ghost function RunsOf(records: seq<BranchRecord>): (runs: seq<seq<Entry>>)
    reads set r | r in records
    ensures |runs| == |records| && forall i :: 0 <= i < |records| ==> runs[i] == records[i].entries
  {
    if records == [] then [] else RunsOf(records[..|records| - 1]) + [records[|records| - 1].entries]
  }

  class LbrStack {
    var last: int
    var stack: seq<BranchRecord>

    ghost function Records(): set<BranchRecord>
      reads this
    {
      set r | r in stack
    }

    /** Different records, whose indices point at their last entries. */
    ghost predicate Valid()
      reads this, Records()
    {
      && (stack == [] ==> last == 0) && (stack != [] ==> last == |stack| - 1)
      && (forall i, j :: 0 <= i < j < |stack| ==> stack[i] != stack[j])
      && (forall i :: 0 <= i < |stack| ==> stack[i].Valid())
    }

    /** The entries of the records. */
    ghost function Runs(): seq<seq<Entry>>
      reads this, Records()
    {
      RunsOf(stack)
    }

    constructor ()
      ensures Valid() && stack == []
    {
      last, stack := 0, [];
    }

    method PushFirstEntry(e: Entry)
      requires Valid() && stack == []
      modifies this
      ensures Valid() && Runs() == [[e]] && fresh(Records())
    {
      var r := new BranchRecord(e);
      stack := stack + [r];
    }

    method PushEntry(e: Entry)
      requires Valid() && stack != []
      modifies this, Records()
      ensures Valid() && stack != [] && fresh(Records() - old(Records()))
      ensures Runs() == Pushed(old(Runs()), e)
    {
      var lastRecord := stack[last];
      var lastEntry := lastRecord.entries[lastRecord.last];
      ghost var runs := Runs();
      assert runs[last] == lastRecord.entries;
      if Linked(lastEntry, e) {
        AddToLast(lastRecord, e);
      } else {
        NewRecord(e);
      }
    }

    method AddToLast(lastRecord: BranchRecord, e: Entry)
      requires Valid() && stack != [] && lastRecord == stack[last]
      modifies lastRecord
      ensures Valid() && Runs() == old(Runs())[last := old(Runs())[last] + [e]]
    {
      lastRecord.AddEntry(e);
    }

    method NewRecord(e: Entry)
      requires Valid() && stack != []
      modifies this
      ensures Valid() && stack != [] && fresh(Records() - old(Records())) && Runs() == old(Runs()) + [[e]]
    {
      var r := new BranchRecord(e);
      ghost var stack0 := stack;
      stack := stack + [r];
      last := last + 1;
      assert stack[..|stack| - 1] == stack0;
    }

    /** The entries come newest first; the records are their maximal runs, oldest first. */
    method Get(lbrEntries: seq<Entry>)
      requires Valid() && stack == [] && lbrEntries != []
      modifies this
      ensures Valid() && Runs() == Grouped(Reversed(lbrEntries))
    {
      hide Grouped, Pushed, Reversed;
      ghost var rev := Reversed(lbrEntries);
      var end := |lbrEntries| - 1;
      PushFirstEntry(lbrEntries[end]);
      var i := end - 1;
      FirstGrouped(rev);
      while i >= 0
        invariant -1 <= i < end && Valid() && stack != []
        invariant fresh(Records())
        invariant Runs() == Grouped(rev[..|lbrEntries| - 1 - i])
      {
        NextGrouped(rev, |lbrEntries| - 1 - i);
        PushEntry(lbrEntries[i]);
        i := i - 1;
      }
      assert rev[..|lbrEntries|] == rev;
    }

    lemma {:induction false} FirstGrouped(es: seq<Entry>)
      requires es != []
      ensures Grouped(es[..1]) == [[es[0]]]
    {
      assert es[..1][..0] == [];
      assert Grouped([]) == [];
    }

    lemma {:induction false} NextGrouped(es: seq<Entry>, n: nat)
      requires n < |es|
      ensures Grouped(es[..n + 1]) == Pushed(Grouped(es[..n]), es[n])
    {
      assert es[..n + 1][..n] == es[..n];
    }

    /** The column widths of the whole output. */
    method GetFmt() returns (w: Widths)
      requires Valid()
      ensures w == WidthsOfAll(Flat(Runs()))
    {
      w := Widths(0, 0, 0, 0);
      ghost var runs := Runs();
      assert runs[..0] == [];
      for i := 0 to |stack|
        invariant w == WidthsOfAll(Flat(runs[..i]))
      {
        assert runs[..i + 1][..i] == runs[..i];
        WidthsJoin(Flat(runs[..i]), runs[i]);
        w := Wider(w, stack[i].widths);
      }
      assert runs[..|stack|] == runs;
    }
  }
}
