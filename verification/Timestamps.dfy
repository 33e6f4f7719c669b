/** The timestamp stack of a call-graph session: entries push their time, exits pop it, and the time
    shown for an exit is the time since the entry that it closes. */
module Timestamps {
  import opened Words

  /** A kernel time as 32 bits. */
  type Stamp = t: int | 0 <= t < TWO32

  datatype GraphEvent = Entry(at: Stamp) | Exit(at: Stamp)

  // The session ----------------------------------------------------------------------------------

  class Session {
    const started: Stamp
    var tstamps: seq<Stamp>
    var lastidx: int

    /** The index points at the last timestamp, and there always is one. */
    ghost predicate Valid()
      reads this
    {
      lastidx >= 0 && |tstamps| == lastidx + 1
    }

    constructor (started: Stamp)
      ensures Valid() && this.started == started && tstamps == [started]
    {
      this.started := started;
      tstamps, lastidx := [started], 0;
    }

    method LastTstamp() returns (t: Stamp)
      requires Valid()
      ensures t == tstamps[|tstamps| - 1]
    {
      t := tstamps[lastidx];
    }

    method PushTstamp(t: Stamp)
      requires Valid()
      modifies this`tstamps, this`lastidx
      ensures Valid() && tstamps == old(tstamps) + [t]
    {
      tstamps := tstamps + [t];
      lastidx := lastidx + 1;
    }

    method PopTstamp()
      requires Valid()
      modifies this`tstamps, this`lastidx
      ensures Valid() && tstamps == Popped(old(tstamps))
    {
      if lastidx == 0 {
        return;
      }
      tstamps := tstamps[..lastidx];
      lastidx := lastidx - 1;
    }

    /** One graph event: its cost is taken before the stack moves. */
    method OutputGraphEvent(e: GraphEvent) returns (cost: Stamp)
      requires Valid()
      modifies this`tstamps, this`lastidx
      ensures Valid() && (cost, tstamps) == Handle(old(tstamps), e)
    {
      var last := LastTstamp();
      cost := Elapsed(last, e.at);
      if e.Entry? {
        PushTstamp(e.at);
      } else {
        PopTstamp();
      }
    }

    /** All events of a session; the stack never runs empty, whatever comes. */
    method OutputGraphEvents(events: seq<GraphEvent>) returns (costs: seq<Stamp>)
      requires Valid()
      modifies this`tstamps, this`lastidx
      ensures Valid() && (costs, tstamps) == HandleAll(old(tstamps), events)
    {
      costs := [];
      assert events[..0] == [];
      for i := 0 to |events|
        invariant Valid() && (costs, tstamps) == HandleAll(old(tstamps), events[..i])
      {
        assert events[..i + 1][..i] == events[..i];
        var cost := OutputGraphEvent(events[i]);
        costs := costs + [cost];
      }
      assert events[..|events|] == events;
    }
  }

  // As functions ---------------------------------------------------------------------------------

  /** The bottom of the stack, the start of the session, is never popped. */
  function Popped(stack: seq<Stamp>): (r: seq<Stamp>)
    requires stack != []
    ensures r != []
  {
    if |stack| == 1 then stack else stack[..|stack| - 1]
  }

  function Handle(stack: seq<Stamp>, e: GraphEvent): (r: (Stamp, seq<Stamp>))
    requires stack != []
    ensures r.1 != []
  {
    (Elapsed(stack[|stack| - 1], e.at), if e.Entry? then stack + [e.at] else Popped(stack))
  }

  function HandleAll(stack: seq<Stamp>, events: seq<GraphEvent>): (r: (seq<Stamp>, seq<Stamp>))
    requires stack != []
    ensures r.1 != [] && |r.0| == |events|
  {
    if events == [] then ([], stack)
    else
      var (costs, before) := HandleAll(stack, events[..|events| - 1]);
      var (cost, after) := Handle(before, events[|events| - 1]);
      (costs + [cost], after)
  }

  lemma {:induction false} HandleThen(stack: seq<Stamp>, a: seq<GraphEvent>, b: seq<GraphEvent>)
    requires stack != []
    ensures var (ca, sa) := HandleAll(stack, a);
            var (cb, sb) := HandleAll(sa, b);
            HandleAll(stack, a + b) == (ca + cb, sb)
  {
    if b == [] {
      assert a + b == a;
      assert HandleAll(stack, a).0 + [] == HandleAll(stack, a).0;
    } else {
      var n := |b| - 1;
      HandleThen(stack, a, b[..n]);
      assert (a + b)[..|a + b| - 1] == a + b[..n];
      var (ca, sa) := HandleAll(stack, a);
      var (cb, sb) := HandleAll(sa, b[..n]);
      assert (ca + cb) + [Handle(sb, b[n]).0] == ca + (cb + [Handle(sb, b[n]).0]);
    }
  }

  // Balanced sessions ----------------------------------------------------------------------------

  /** Calls, each with the calls made inside it. */
  datatype Calls = NoCalls | Call(enter: Stamp, inner: Calls, leave: Stamp, next: Calls)

  function Events(c: Calls): seq<GraphEvent> {
    match c
    case NoCalls => []
    case Call(enter, inner, leave, next) => [Entry(enter)] + Events(inner) + [Exit(leave)] + Events(next)
  }

  /** The costs to show: an entry shows the time since the timestamp below it, an exit the time of its
      own call. */
  function Costs(c: Calls, below: Stamp): seq<Stamp> {
    match c
    case NoCalls => []
    case Call(enter, inner, leave, next) =>
      [Elapsed(below, enter)] + Costs(inner, enter) + [Elapsed(enter, leave)] + Costs(next, below)
  }

  /** Over balanced calls every exit shows the time since its own entry, modulo 2^32, and the stack ends
      as it began. */
  lemma {:induction false} BalancedCosts(c: Calls, stack: seq<Stamp>)
    requires stack != []
    ensures HandleAll(stack, Events(c)) == (Costs(c, stack[|stack| - 1]), stack)
  {
    match c
    case NoCalls =>
    case Call(enter, inner, leave, next) =>
      var below, pushed := stack[|stack| - 1], stack + [enter];
      OneEvent(stack, Entry(enter));
      BalancedCosts(inner, pushed);
      HandleThen(stack, [Entry(enter)], Events(inner));
      OneEvent(pushed, Exit(leave));
      assert Popped(pushed) == stack;
      HandleThen(stack, [Entry(enter)] + Events(inner), [Exit(leave)]);
      BalancedCosts(next, stack);
      HandleThen(stack, [Entry(enter)] + Events(inner) + [Exit(leave)], Events(next));
  }

  lemma {:induction false} OneEvent(stack: seq<Stamp>, e: GraphEvent)
    requires stack != []
    ensures HandleAll(stack, [e]) == ([Handle(stack, e).0], Handle(stack, e).1)
  {
    assert [e][..0] == [];
    assert HandleAll(stack, []) == ([], stack);
    assert [] + [Handle(stack, e).0] == [Handle(stack, e).0];
  }
}
