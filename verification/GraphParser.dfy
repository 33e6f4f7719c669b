/** The call-graph parser in the form of the program: an object with the shared maps and a queue of
    parse tasks. Running the queued tasks one at a time, in any order, is one of the runs of the
    machine in CallGraph. */
module GraphParser {
  import opened Machine
  import opened CallGraph

  /** The pending parse tasks as the machine sees them. */
  function Pending(queue: seq<Key>): multiset<Task> {
    if queue == [] then multiset{} else Pending(queue[..|queue| - 1]) + multiset{Start(queue[|queue| - 1])}
  }

  lemma {:induction false} PendingRemoved(queue: seq<Key>, i: nat)
    requires i < |queue|
    ensures Pending(queue) == Pending(queue[..i] + queue[i + 1..]) + multiset{Start(queue[i])}
    decreases |queue|
  {
    var n := |queue| - 1;
    if i == n {
      assert queue[..i] + queue[i + 1..] == queue[..n];
    } else {
      PendingRemoved(queue[..n], i);
      assert queue[..n][..i] + queue[..n][i + 1..] == (queue[..i] + queue[i + 1..])[..n - 1];
    }
  }

  /** One more step at the end of a schedule. */
  lemma {:induction false} AfterStep(w: World, s: Shared, schedule: seq<Task>, s1: Shared, t: Task)
    requires After(w, false, s, schedule) == Some(s1) && t in s1.tasks
    ensures After(w, false, s, schedule + [t]) == Some(Progress(w, false, s1, t))
  {
    assert (schedule + [t])[..|schedule|] == schedule;
  }

  /** Moving one address from what is left of a list to what is done. */
  lemma {:induction false} OneMore(ips: seq<Addr>, i: nat)
    requires i < |ips|
    ensures ips[..i] + [ips[i]] == ips[..i + 1] && ips[i..] != [] && ips[i..][0] == ips[i] && ips[i..][1..] == ips[i + 1..]
  {
  }

  lemma {:induction false} AllDone(ips: seq<Addr>)
    ensures ips[..0] == [] && ips[0..] == ips && ips[..|ips|] == ips && ips[|ips|..] == []
  {
  }

  lemma {:induction false} SpawnRemoved(s: Shared, t: Task)
    ensures Spawn(s, t).tasks - multiset{t} == s.tasks
  {
  }

  class FuncGraphParser {
    const w: World
    var graphs: map<Addr, nat>
    var syms: set<string>
    var callee: map<Addr, seq<Addr>>
    var untraceables: set<Addr>
    var parsed: set<Key>
    var queue: seq<Key>
    ghost var log: seq<Key>

    ghost function State(): Shared
      reads this
    {
      Shared(graphs, syms, callee, untraceables, parsed, log, Pending(queue))
    }

    constructor (w: World)
      ensures this.w == w && State() == Shared(map[], {}, map[], {}, {}, [], multiset{})
    {
      this.w := w;
      graphs, syms, callee, untraceables, parsed, queue, log := map[], {}, map[], {}, {}, [], [];
    }

    method CheckParsed(k: Key) returns (already: bool)
      modifies this`parsed, this`log
      ensures already <==> k in old(parsed)
      ensures parsed == old(parsed) + {k} && log == if already then old(log) else old(log) + [k]
    {
      already := k in parsed;
      if !already {
        parsed := parsed + {k};
        log := log + [k];
      }
    }

    method MarkUntraceable(ip: Addr)
      modifies this`untraceables
      ensures untraceables == old(untraceables) + {ip}
    {
      untraceables := untraceables + {ip};
    }

    method AddParse(k: Key)
      modifies this`queue
      ensures queue == old(queue) + [k] && Pending(queue) == Pending(old(queue)) + multiset{Start(k)}
    {
      queue := queue + [k];
    }

    method Add(ip: Addr, depth: nat)
      modifies this
      ensures State() == CallGraph.Add(w, old(State()), ip, depth)
      ensures parsed == old(parsed)
    {
      hide CallGraph.Fill;
      if depth > w.maxDepth {
        return;
      }
      if ip in graphs {
        if graphs[ip] != 0 {
          AddParse(Key(ip, depth));
        }
        return;
      }
      graphs := graphs[ip := 0];
      FillIn(ip, depth);
    }

    /** What `add` does once it has inserted the placeholder. */
    method FillIn(ip: Addr, depth: nat)
      modifies this
      ensures State() == CallGraph.Fill(w, old(State()), ip, depth)
      ensures parsed == old(parsed)
    {
      if ip in untraceables {
        return;
      }
      if !Traceable(w, ip) {
        MarkUntraceable(ip);
        return;
      }
      var f := w.funcs[ip];
      if !f.bpf {
        if f.name in syms {
          MarkUntraceable(ip);
          return;
        }
        syms := syms + {f.name};
      }
      graphs := graphs[ip := f.bytes];
      AddParse(Key(ip, depth));
    }

    /** Goes through a list of functions to add; the steps are those of an adding task. */
    method AddAll(ips: seq<Addr>, depth: nat, ghost source: Source, ghost store: bool, ghost s0: Shared,
                  ghost before: seq<Task>)
      returns (ghost schedule: seq<Task>)
      requires After(w, false, s0, before) == Some(Spawn(State(), Adding(source, store, [], ips, depth, false)))
      modifies this
      ensures After(w, false, s0, schedule) == Some(Spawn(State(), Adding(source, store, ips, [], depth, false)))
      ensures parsed == old(parsed)
    {
      hide CallGraph.Add, After, Spawn, Progress;
      AllDone(ips);
      schedule := before;
      for i := 0 to |ips|
        invariant parsed == old(parsed)
        invariant After(w, false, s0, schedule) == Some(Spawn(State(), Adding(source, store, ips[..i], ips[i..], depth, false)))
      {
        ghost var s, t := State(), Adding(source, store, ips[..i], ips[i..], depth, false);
        OneMore(ips, i);
        Add(ips[i], depth);
        AddStep(s, t);
        AfterStep(w, s0, schedule, Spawn(s, t), t);
        schedule := schedule + [t];
      }
    }

    lemma {:induction false} AddStep(s: Shared, t: Task)
      requires t.Adding? && t.rest != [] && !t.filling
      ensures t in Spawn(s, t).tasks
      ensures Progress(w, false, Spawn(s, t), t) ==
              Spawn(CallGraph.Add(w, s, t.rest[0], t.depth), t.(done := t.done + [t.rest[0]], rest := t.rest[1..]))
    {
      hide CallGraph.Add;
      assert Spawn(s, t).tasks - multiset{t} == s.tasks;
      assert Spawn(s, t).(tasks := s.tasks) == s;
    }

    /** The whole parse task of `k`, which has been taken off the queue. */
    method Parse(k: Key) returns (ghost schedule: seq<Task>)
      modifies this
      ensures After(w, false, Spawn(old(State()), Start(k)), schedule) == Some(State())
      ensures k in parsed && old(parsed) <= parsed
      ensures k in old(parsed) ==> queue == old(queue)
    {
      hide CallGraph.Add, After, Opened, Spawn, Progress;
      ghost var s := State();
      ghost var s0 := Spawn(s, Start(k));
      schedule := [Start(k)];
      StartStep(s, k);
      AfterFirst(s0, Start(k));
      var already := CheckParsed(k);
      if already {
        assert State() == s;
        return;
      }
      assert State() == s.(parsed := s.parsed + {k}, log := s.log + [k]);
      schedule := Visit(k, s0, schedule);
    }

    /** The first step of a parse task: the check, and then the way it will go. */
    lemma {:induction false} StartStep(s: Shared, k: Key)
      ensures Start(k) in Spawn(s, Start(k)).tasks
      ensures var begun := s.(parsed := s.parsed + {k}, log := s.log + [k]);
              Progress(w, false, Spawn(s, Start(k)), Start(k)) == if k in s.parsed then s else Spawn(begun, Opened(w, begun, k))
    {
      SpawnRemoved(s, Start(k));
    }

    /** The work of a pair that is parsed for the first time. */
    method Visit(k: Key, ghost s0: Shared, ghost before: seq<Task>) returns (ghost schedule: seq<Task>)
      requires After(w, false, s0, before) == Some(Spawn(State(), Opened(w, State(), k)))
      modifies this
      ensures After(w, false, s0, schedule) == Some(State())
      ensures parsed == old(parsed)
    {
      hide CallGraph.Add, After, Spawn;
      var next := Replaced(w, k.ip);
      if next.Some? {
        schedule := AddAll([next.value], k.depth, Some(k), false, s0, before);
        schedule := Finish([next.value], k.depth, Some(k), false, s0, schedule);
      } else if k.ip in callee {
        var callees := callee[k.ip];
        schedule := AddAll(callees, k.depth + 1, Some(k), false, s0, before);
        schedule := Finish(callees, k.depth + 1, Some(k), false, s0, schedule);
      } else {
        var callees := Callees(w, k.ip);
        schedule := AddAll(callees, k.depth + 1, Some(k), true, s0, before);
        schedule := Finish(callees, k.depth + 1, Some(k), true, s0, schedule);
      }
    }

    /** The end of an adding task; a first visit stores the callees it has found. */
    method Finish(ips: seq<Addr>, depth: nat, source: Source, store: bool, ghost s0: Shared, ghost before: seq<Task>)
      returns (ghost schedule: seq<Task>)
      requires After(w, false, s0, before) == Some(Spawn(State(), Adding(source, store, ips, [], depth, false)))
      modifies this`callee
      ensures After(w, false, s0, schedule) == Some(State())
    {
      hide After;
      ghost var s, t := State(), Adding(source, store, ips, [], depth, false);
      assert Spawn(s, t).tasks - multiset{t} == s.tasks;
      AfterStep(w, s0, before, Spawn(s, t), t);
      schedule := before + [t];
      if store && source.Some? {
        callee := callee[source.value.ip := ips];
      }
    }

    lemma {:induction false} AfterFirst(s: Shared, t: Task)
      requires t in s.tasks
      ensures After(w, false, s, [t]) == Some(Progress(w, false, s, t))
    {
      hide Progress;
      assert [t][..0] == [];
    }

    /** Queues the roots. */
    method Seed(r: Roots) returns (ghost schedule: seq<Task>)
      requires State() == Shared(map[], {}, map[], {}, {}, [], multiset{})
      modifies this
      ensures After(w, false, Init(r), schedule) == Some(State())
    {
      hide After, Init;
      QueueRoots(r);
      schedule := AddAll(r.extra, 1, None, false, Init(r), []);
      schedule := Finish(r.extra, 1, None, false, Init(r), schedule);
    }

    method QueueRoots(r: Roots)
      requires State() == Shared(map[], {}, map[], {}, {}, [], multiset{})
      modifies this`queue
      ensures After(w, false, Init(r), []) == Some(Spawn(State(), Adding(None, false, [], r.extra, 1, false)))
    {
      hide After, Pending, Starts;
      NoStarts();
      AllDone(r.parse);
      for i := 0 to |r.parse|
        invariant Pending(queue) == Starts(r.parse[..i])
      {
        AddParse(Key(r.parse[i], 0));
        StartsNext(r.parse[..i], r.parse[i]);
        OneMore(r.parse, i);
      }
      AllDone(r.parse);
      AfterNothing(Init(r));
    }

    /** Takes some queued task and runs it. */
    method RunOne(r: Roots, ghost before: seq<Task>) returns (ghost schedule: seq<Task>)
      requires queue != [] && After(w, false, Init(r), before) == Some(State())
      modifies this
      ensures After(w, false, Init(r), schedule) == Some(State())
      ensures |Universe(w, r) - parsed| < |Universe(w, r) - old(parsed)| ||
              (|Universe(w, r) - parsed| == |Universe(w, r) - old(parsed)| && |queue| < |old(queue)|)
    {
      hide After, Universe, Init;
      var i :| 0 <= i < |queue|;
      var k := queue[i];
      ghost var s := State();
      PendingRemoved(queue, i);
      RunSound(w, r, false, before);
      FirstTime(r, s, k);
      queue := queue[..i] + queue[i + 1..];
      assert Spawn(State(), Start(k)) == s;
      ghost var more := Parse(k);
      AfterThen(w, false, Init(r), before, more);
      schedule := before + more;
      FewerLeft(r, s.parsed, parsed, k);
    }

    /** Starts with the roots and runs the queued tasks, in whatever order they are taken, to the end:
        exactly the pairs with a call path from a root have been parsed. */
    method Discover(r: Roots)
      requires ValidWorld(w) && State() == Shared(map[], {}, map[], {}, {}, [], multiset{})
      modifies this
      ensures queue == [] && forall k :: k in parsed <==> Reachable(w, r, k)
    {
      hide After, Universe, Reachable, Init, ValidWorld;
      ghost var schedule := Seed(r);
      while queue != []
        invariant After(w, false, Init(r), schedule) == Some(State())
        decreases |Universe(w, r) - parsed|, |queue|
      {
        schedule := RunOne(r, schedule);
      }
      assert State().tasks == multiset{};
      forall k
        ensures k in parsed <==> Reachable(w, r, k)
      {
        DiscoveryConfluent(w, r, schedule, k);
      }
    }

    lemma {:induction false} FirstTime(r: Roots, s: Shared, k: Key)
      requires Sound(w, r, s) && Start(k) in s.tasks
      ensures k in Universe(w, r)
    {
      assert Justified(w, r, Start(k));
      ReachableInUniverse(w, r, k);
    }

    lemma {:induction false} FewerLeft(r: Roots, before: set<Key>, after: set<Key>, k: Key)
      requires before <= after && k in after && k in Universe(w, r)
      ensures |Universe(w, r) - after| <= |Universe(w, r) - before|
      ensures k !in before ==> |Universe(w, r) - after| < |Universe(w, r) - before|
    {
      var left, was := Universe(w, r) - after, Universe(w, r) - before;
      SubsetSize(left, was);
      if k !in before {
        SubsetSize(left, was - {k});
      }
    }

    lemma {:induction false} SubsetSize(a: set<Key>, b: set<Key>)
      requires a <= b
      ensures |a| <= |b|
    {
      if a != {} {
        var x :| x in a;
        SubsetSize(a - {x}, b - {x});
      }
    }

    lemma {:induction false} AfterNothing(s: Shared)
      ensures After(w, false, s, []) == Some(s)
    {
    }
  }

  lemma {:induction false} NoStarts()
    ensures Starts([]) == multiset{}
  {
  }

  lemma {:induction false} StartsNext(ips: seq<Addr>, ip: Addr)
    ensures Starts(ips + [ip]) == Starts(ips) + multiset{Start(Key(ip, 0))}
  {
    if ips != [] {
      assert (ips + [ip])[1..] == ips[1..] + [ip];
      StartsNext(ips[1..], ip);
    }
  }
}
