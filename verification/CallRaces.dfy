/** Call-graph discovery when another task can run between the two halves of `add`: exactly when a pair
    with a call path can be lost. */
module CallRaces {
  import opened Machine
  import opened CallGraph

  // The condition --------------------------------------------------------------------------------

  /** What stands before the first `x`. */
  function Before(ips: seq<Addr>, x: Addr): seq<Addr> {
    if ips == [] || ips[0] == x then [] else [ips[0]] + Before(ips[1..], x)
  }

  /** Sources that stop at `x`: all of them, or one. The others pass over it. */
  datatype Stopped = All | One(src: Source)

  predicate Stops(who: Stopped, src: Source) {
    who.All? || who.src == src
  }

  /** The source adds the pair although nothing is spawned for `x` and some sources stop there. */
  predicate Allowed(w: World, r: Roots, x: Addr, who: Stopped, src: Source, k: Key) {
    Adds(w, r, src, k) && k.ip != x && (Stops(who, src) ==> k.ip in Before(ListOf(w, r, src), x))
  }

  predicate Begins(w: World, r: Roots, x: Addr, who: Stopped, k: Key) {
    (k.depth == 0 && k.ip in r.parse) || Allowed(w, r, x, who, None, k)
  }

  predicate IsTrail(w: World, r: Roots, x: Addr, who: Stopped, trail: seq<Key>) {
    && trail != [] && Begins(w, r, x, who, trail[0])
    && forall i :: 0 <= i < |trail| - 1 ==> Allowed(w, r, x, who, Some(trail[i]), trail[i + 1])
  }

  /** The pair is found while `x` is withheld. */
  ghost predicate Within(w: World, r: Roots, x: Addr, who: Stopped, k: Key) {
    exists trail :: IsTrail(w, r, x, who, trail) && trail[|trail| - 1] == k
  }

  ghost predicate Live(w: World, r: Roots, x: Addr, who: Stopped, src: Source) {
    src.Some? ==> Within(w, r, x, who, src.value)
  }

  /** `b` can be the first to add `x`, and while it does so all sources that add `x` at another depth can
      pass by: the pair of that depth is lost. */
  ghost predicate Loses(w: World, r: Roots, x: Addr, b: Source, depth: nat) {
    && Traceable(w, x) && x in ListOf(w, r, b) && DepthOf(w, b) <= w.maxDepth && DepthOf(w, b) != depth
    && Live(w, r, x, All, b)
    && Reachable(w, r, Key(x, depth)) && !(depth == 0 && x in r.parse)
    && forall src :: Adds(w, r, src, Key(x, depth)) && (src.Some? ==> Reachable(w, r, src.value)) ==>
         Live(w, r, x, One(b), src)
  }

  ghost predicate SomeLoss(w: World, r: Roots) {
    exists x, b, depth :: Loses(w, r, x, b, depth)
  }

  /** No function is added at two depths. */
  ghost predicate OneDepth(w: World, r: Roots) {
    forall x, src, src' {:trigger Adds(w, r, src, Key(x, DepthOf(w, src))), Adds(w, r, src', Key(x, DepthOf(w, src')))} ::
      Adds(w, r, src, Key(x, DepthOf(w, src))) && (src.Some? ==> Reachable(w, r, src.value)) &&
      Adds(w, r, src', Key(x, DepthOf(w, src'))) && (src'.Some? ==> Reachable(w, r, src'.value)) ==>
        DepthOf(w, src) == DepthOf(w, src')
  }

  /** A function that replaces another one is not replaced itself: the kernel refuses to attach to it. */
  predicate Flat(w: World) {
    forall ip :: ip in w.funcs && Replaced(w, ip).Some? ==> Replaced(w, Replaced(w, ip).value).None?
  }

  lemma {:induction false} BeforeHas(ips: seq<Addr>, x: Addr, i: nat)
    requires i < |ips| && x !in ips[..i] && ips[i] != x
    ensures ips[i] in Before(ips, x)
  {
    if i > 0 {
      assert ips[..i][0] == ips[0];
      assert ips[1..][..i - 1] == ips[..i][1..];
      BeforeHas(ips[1..], x, i - 1);
    }
  }

  lemma {:induction false} BeforeIs(done: seq<Addr>, x: Addr, rest: seq<Addr>)
    requires x !in done && rest != [] && rest[0] == x
    ensures Before(done + rest, x) == done
  {
    if done == [] {
      assert done + rest == rest;
    } else {
      assert (done + rest)[1..] == done[1..] + rest;
      BeforeIs(done[1..], x, rest);
    }
  }

  lemma {:induction false} RootWithin(w: World, r: Roots, x: Addr, who: Stopped, k: Key)
    requires k.depth == 0 && k.ip in r.parse
    ensures Within(w, r, x, who, k)
  {
    assert IsTrail(w, r, x, who, [k]);
  }

  lemma {:induction false} AllowedWithin(w: World, r: Roots, x: Addr, who: Stopped, src: Source, k: Key)
    requires Allowed(w, r, x, who, src, k) && Live(w, r, x, who, src)
    ensures Within(w, r, x, who, k)
  {
    if src.None? {
      assert IsTrail(w, r, x, who, [k]);
    } else {
      var trail :| IsTrail(w, r, x, who, trail) && trail[|trail| - 1] == src.value;
      var longer := trail + [k];
      forall i | 0 <= i < |longer| - 1
        ensures Allowed(w, r, x, who, Some(longer[i]), longer[i + 1])
      {
        assert longer[i] == trail[i];
      }
      assert IsTrail(w, r, x, who, longer);
    }
  }

  /** When fewer sources stop, more is found. */
  lemma {:induction false} WithinMore(w: World, r: Roots, x: Addr, b: Source, k: Key)
    requires Within(w, r, x, All, k)
    ensures Within(w, r, x, One(b), k)
  {
    var trail :| IsTrail(w, r, x, All, trail) && trail[|trail| - 1] == k;
    assert IsTrail(w, r, x, One(b), trail);
  }

  lemma {:induction false} WithinLast(w: World, r: Roots, x: Addr, who: Stopped, k: Key)
    requires Within(w, r, x, who, k)
    ensures Begins(w, r, x, who, k) || exists a :: Allowed(w, r, x, who, Some(a), k)
  {
    var trail :| IsTrail(w, r, x, who, trail) && trail[|trail| - 1] == k;
    if |trail| > 1 {
      assert Allowed(w, r, x, who, Some(trail[|trail| - 2]), trail[|trail| - 1]);
    }
  }

  /** Only roots are found under the withheld address. */
  lemma {:induction false} WithinOther(w: World, r: Roots, x: Addr, who: Stopped, k: Key)
    requires Within(w, r, x, who, k) && k.ip == x
    ensures k.depth == 0 && x in r.parse
  {
    WithinLast(w, r, x, who, k);
  }

  // Between the halves ---------------------------------------------------------------------------

  predicate Fills(t: Task, ip: Addr) {
    t.Adding? && t.filling && t.rest != [] && t.rest[0] == ip
  }

  predicate SameFilled(t: Task, u: Task) {
    u.Adding? && u.filling && u.rest != [] && Fills(t, u.rest[0])
  }

  /** A source has at most one task. */
  ghost predicate OneEach(tasks: multiset<Task>) {
    && (forall t, u :: t in tasks && u in tasks && t.Adding? && u.Adding? && t.source == u.source ==> t == u)
    && (forall t :: t in tasks && t.Adding? ==> tasks[t] == 1)
  }

  predicate Active(s: Shared, src: Source) {
    src.Some? ==> src.value in s.parsed
  }

  ghost predicate NameTaken(w: World, s: Shared, n: string) {
    exists ip :: ip in s.graphs && s.graphs[ip] != 0 && Traceable(w, ip) && !w.funcs[ip].bpf && w.funcs[ip].name == n
  }

  ghost predicate BeingFilled(s: Shared, ip: Addr) {
    exists t :: t in s.tasks && Fills(t, ip)
  }

  /** Every unfinished placeholder of a traceable function has one task that will fill it in. */
  ghost predicate Steady(w: World, s: Shared) {
    && OneEach(s.tasks)
    && (forall t :: t in s.tasks && t.Adding? ==> Active(s, t.source))
    && (forall t :: t in s.tasks && t.Adding? && t.filling ==> t.rest != [] && t.rest[0] in s.graphs && s.graphs[t.rest[0]] == 0)
    && (forall t, u :: t in s.tasks && u in s.tasks && SameFilled(t, u) ==> t == u)
    && (forall ip :: ip in s.graphs && s.graphs[ip] == 0 && Traceable(w, ip) ==> BeingFilled(s, ip))
    && (forall ip :: ip in s.untraceables ==> !Traceable(w, ip))
    && (forall n :: n in s.syms ==> NameTaken(w, s, n))
  }

  function Advanced(t: Task): Task
    requires t.Adding? && t.rest != []
  {
    t.(done := t.done + [t.rest[0]], rest := t.rest[1..], filling := false)
  }

  lemma {:induction false} OneEachSwap(tasks: multiset<Task>, t: Task, u: Task)
    requires OneEach(tasks) && t in tasks && t.Adding? && u.Adding? && u.source == t.source
    ensures OneEach(tasks - multiset{t} + multiset{u})
    ensures t !in tasks - multiset{t}
  {
    assert tasks[t] == 1;
    assert u in tasks ==> u == t;
  }

  lemma {:induction false} OneEachStart(tasks: multiset<Task>, k: Key)
    requires OneEach(tasks)
    ensures OneEach(tasks + multiset{Start(k)}) && OneEach(tasks - multiset{Start(k)})
  {
  }

  lemma {:induction false} OneEachNew(tasks: multiset<Task>, u: Task)
    requires OneEach(tasks) && u.Adding? && forall t :: t in tasks && t.Adding? ==> t.source != u.source
    ensures OneEach(tasks + multiset{u})
  {
  }

  lemma {:induction false} OneEachLess(tasks: multiset<Task>, t: Task)
    requires OneEach(tasks)
    ensures OneEach(tasks - multiset{t})
  {
  }

  /** The other tasks stay when one of a source is taken out. */
  lemma {:induction false} OthersStay(tasks: multiset<Task>, t: Task)
    requires OneEach(tasks) && t in tasks
    ensures forall u :: u in tasks && u != t ==> u in tasks - multiset{t}
    ensures forall u :: u in tasks - multiset{t} ==> u in tasks && (t.Adding? ==> u != t)
  {
    assert t.Adding? ==> tasks[t] == 1;
  }

  lemma {:induction false} NamesStay(w: World, s: Shared, s': Shared)
    requires forall n :: n in s.syms ==> NameTaken(w, s, n)
    requires s'.syms == s.syms && forall ip :: ip in s.graphs && s.graphs[ip] != 0 ==> ip in s'.graphs && s'.graphs[ip] == s.graphs[ip]
    ensures forall n :: n in s'.syms ==> NameTaken(w, s', n)
  {
    forall n | n in s'.syms
      ensures NameTaken(w, s', n)
    {
      assert NameTaken(w, s, n);
      var ip :| ip in s.graphs && s.graphs[ip] != 0 && Traceable(w, ip) && !w.funcs[ip].bpf && w.funcs[ip].name == n;
      assert ip in s'.graphs;
    }
  }

  /** Steps that leave graph entries, names and fillers alone. */
  lemma {:induction false} SameGraphSteady(w: World, s: Shared, s': Shared)
    requires Steady(w, s) && OneEach(s'.tasks)
    requires s'.graphs == s.graphs && s'.syms == s.syms && s'.untraceables == s.untraceables && s.parsed <= s'.parsed
    requires forall t :: t in s'.tasks && t.Adding? ==> Active(s', t.source)
    requires forall t: Task :: t.Adding? && t.filling ==> (t in s'.tasks <==> t in s.tasks)
    ensures Steady(w, s')
  {
    NamesStay(w, s, s');
    forall ip | ip in s'.graphs && s'.graphs[ip] == 0 && Traceable(w, ip)
      ensures BeingFilled(s', ip)
    {
      assert BeingFilled(s, ip);
      var t :| t in s.tasks && Fills(t, ip);
      assert t in s'.tasks;
    }
  }

  /** One task of a source has moved on to another place of its list, perhaps with a new task. */
  ghost predicate Moved(tasks: multiset<Task>, t: Task, u: Task, tasks': multiset<Task>) {
    || tasks' == tasks - multiset{t} + multiset{u}
    || exists k :: tasks' == tasks - multiset{t} + multiset{Start(k)} + multiset{u}
  }

  lemma {:induction false} MovedTasks(tasks: multiset<Task>, t: Task, u: Task, tasks': multiset<Task>)
    requires OneEach(tasks) && t in tasks && t.Adding? && u.Adding? && u.source == t.source && Moved(tasks, t, u, tasks')
    ensures OneEach(tasks') && u in tasks'
    ensures forall v :: v in tasks && v != t ==> v in tasks'
    ensures forall v :: v in tasks' && v.Adding? ==> v == u || (v in tasks && v != t)
  {
    OneEachSwap(tasks, t, u);
    OthersStay(tasks, t);
    var swapped := tasks - multiset{t} + multiset{u};
    if tasks' != swapped {
      var k :| tasks' == tasks - multiset{t} + multiset{Start(k)} + multiset{u};
      assert tasks' == swapped + multiset{Start(k)};
      OneEachStart(swapped, k);
    }
  }

  lemma {:induction false} BeginSteady(w: World, s: Shared, k: Key)
    requires Steady(w, s) && Start(k) in s.tasks
    ensures Steady(w, Progress(w, true, s, Start(k)))
  {
    hide NameTaken, Traceable, Opened, BeingFilled;
    var s' := Progress(w, true, s, Start(k));
    OneEachStart(s.tasks, k);
    if k !in s.parsed {
      var u := Opened(w, s, k);
      OpenedAdds(w, s, k);
      OneEachNew(s.tasks - multiset{Start(k)}, u);
    }
    SameGraphSteady(w, s, s');
  }

  lemma {:induction false} FinishSteady(w: World, s: Shared, t: Task)
    requires Steady(w, s) && t in s.tasks && t.Adding? && t.rest == []
    ensures Steady(w, Progress(w, true, s, t))
  {
    hide NameTaken, Traceable;
    OneEachLess(s.tasks, t);
    SameGraphSteady(w, s, Progress(w, true, s, t));
  }

  /** An `add` that spawns a task, or none, without a placeholder. */
  lemma {:induction false} PassSteady(w: World, s: Shared, t: Task, s': Shared)
    requires Steady(w, s) && t in s.tasks && t.Adding? && !t.filling && t.rest != []
    requires Moved(s.tasks, t, Advanced(t), s'.tasks) && s' == s.(tasks := s'.tasks)
    ensures Steady(w, s')
  {
    hide NameTaken, Traceable, Moved;
    MovedTasks(s.tasks, t, Advanced(t), s'.tasks);
    SameGraphSteady(w, s, s');
  }

  lemma {:induction false} ClaimSteady(w: World, s: Shared, t: Task)
    requires Steady(w, s) && t in s.tasks && t.Adding? && !t.filling && t.rest != []
    requires t.rest[0] !in s.graphs
    ensures Steady(w, s.(graphs := s.graphs[t.rest[0] := 0], tasks := s.tasks - multiset{t} + multiset{t.(filling := true)}))
  {
    hide NameTaken, Traceable;
    var u := t.(filling := true);
    var s' := s.(graphs := s.graphs[t.rest[0] := 0], tasks := s.tasks - multiset{t} + multiset{u});
    OneEachSwap(s.tasks, t, u);
    OthersStay(s.tasks, t);
    NamesStay(w, s, s');
    forall ip | ip in s'.graphs && s'.graphs[ip] == 0 && Traceable(w, ip)
      ensures BeingFilled(s', ip)
    {
      if ip == t.rest[0] {
        assert u in s'.tasks && Fills(u, ip);
      } else {
        assert BeingFilled(s, ip);
        var v :| v in s.tasks && Fills(v, ip);
        assert v in s'.tasks;
      }
    }
  }

  /** The placeholder of a traceable function can be filled in: its name is free. */
  lemma {:induction false} FillTaken(w: World, s: Shared, ip: Addr, depth: nat)
    requires ValidWorld(w) && Traceable(w, ip) && ip in s.graphs && s.graphs[ip] == 0
    requires ip !in s.untraceables && forall n :: n in s.syms ==> NameTaken(w, s, n)
    ensures var f := w.funcs[ip];
            f.bytes > 0 &&
            Fill(w, s, ip, depth) ==
            Spawn(s.(syms := if f.bpf then s.syms else s.syms + {f.name}, graphs := s.graphs[ip := f.bytes]), Start(Key(ip, depth)))
  {
    var f := w.funcs[ip];
    forall n | n in s.syms && !f.bpf
      ensures n != f.name
    {
      assert NameTaken(w, s, n);
      var i :| i in s.graphs && s.graphs[i] != 0 && Traceable(w, i) && !w.funcs[i].bpf && w.funcs[i].name == n;
      assert i != ip;
    }
  }

  /** A placeholder is filled in, and a task spawned, exactly for a traceable function. */
  lemma {:induction false} FillOutcome(w: World, s: Shared, ip: Addr, depth: nat)
    requires ValidWorld(w) && ip in s.graphs && s.graphs[ip] == 0
    requires (forall i :: i in s.untraceables ==> !Traceable(w, i)) && forall n :: n in s.syms ==> NameTaken(w, s, n)
    ensures var f := Fill(w, s, ip, depth);
            && f.parsed == s.parsed
            && f.graphs == s.graphs[ip := if Traceable(w, ip) then w.funcs[ip].bytes else 0]
            && (Traceable(w, ip) ==> w.funcs[ip].bytes > 0 && f.tasks == s.tasks + multiset{Start(Key(ip, depth))})
            && (!Traceable(w, ip) ==> f.tasks == s.tasks)
            && (forall i :: i in f.untraceables ==> !Traceable(w, i)) && forall n :: n in f.syms ==> NameTaken(w, f, n)
  {
    hide ValidWorld, NameTaken;
    if Traceable(w, ip) {
      FillTaken(w, s, ip, depth);
      FilledNames(w, s, Fill(w, s, ip, depth), ip);
    } else {
      FillNothing(w, s, ip, depth);
      NamesStay(w, s, Fill(w, s, ip, depth));
    }
  }

  lemma {:induction false} FillSteady(w: World, s: Shared, t: Task)
    requires ValidWorld(w) && Steady(w, s) && t in s.tasks && t.Adding? && t.filling
    ensures t.rest != [] && Steady(w, Progress(w, true, s, t))
  {
    hide ValidWorld, NameTaken, BeingFilled, OneEach, Fill, SameFilled;
    var ip := t.rest[0];
    var s0 := s.(tasks := s.tasks - multiset{t});
    var s' := Progress(w, true, s, t);
    NamesStay(w, s, s0);
    FillOutcome(w, s0, ip, t.depth);
    var f := Fill(w, s0, ip, t.depth);
    hide Steady;
    NamesStay(w, f, s');
    FilledSteady(w, s, t, s');
  }

  lemma {:induction false} FilledSteady(w: World, s: Shared, t: Task, s': Shared)
    requires Steady(w, s) && t in s.tasks && t.Adding? && t.filling && t.rest != [] && s'.parsed == s.parsed
    requires Moved(s.tasks, t, Advanced(t), s'.tasks)
    requires forall ip :: ip in s'.graphs <==> ip in s.graphs
    requires forall ip :: ip in s.graphs && ip != t.rest[0] ==> s'.graphs[ip] == s.graphs[ip]
    requires Traceable(w, t.rest[0]) ==> s'.graphs[t.rest[0]] != 0
    requires (forall i :: i in s'.untraceables ==> !Traceable(w, i)) && forall n :: n in s'.syms ==> NameTaken(w, s', n)
    ensures Steady(w, s')
  {
    hide NameTaken, BeingFilled, OneEach, SameFilled, Traceable, Moved;
    MovedTasks(s.tasks, t, Advanced(t), s'.tasks);
    OthersFilled(w, s, s', t);
    FillersApart(w, s, s', t);
  }

  /** The other fillers keep their placeholders. */
  lemma {:induction false} FillersApart(w: World, s: Shared, s': Shared, t: Task)
    requires Steady(w, s) && t in s.tasks && t.Adding? && t.filling && t.rest != []
    requires forall u :: u in s'.tasks && u.Adding? ==> u == Advanced(t) || (u in s.tasks && u != t)
    requires forall ip :: ip in s.graphs && ip != t.rest[0] ==> ip in s'.graphs && s'.graphs[ip] == s.graphs[ip]
    ensures forall u :: u in s'.tasks && u.Adding? && u.filling ==> u.rest != [] && u.rest[0] in s'.graphs && s'.graphs[u.rest[0]] == 0
    ensures forall u, v :: u in s'.tasks && v in s'.tasks && SameFilled(u, v) ==> u == v
  {
    hide NameTaken, BeingFilled, OneEach, Traceable;
    forall u | u in s'.tasks && u.Adding? && u.filling
      ensures u.rest != [] && u.rest[0] in s'.graphs && s'.graphs[u.rest[0]] == 0
    {
      assert u in s.tasks && !SameFilled(u, t);
    }
  }

  lemma {:induction false} FillNothing(w: World, s: Shared, ip: Addr, depth: nat)
    requires !Traceable(w, ip)
    ensures Fill(w, s, ip, depth) == s.(untraceables := s.untraceables + {ip})
  {
    assert ip in s.untraceables ==> s.untraceables + {ip} == s.untraceables;
  }

  lemma {:induction false} FilledNames(w: World, s: Shared, s': Shared, ip: Addr)
    requires Traceable(w, ip) && ip in s.graphs && s.graphs[ip] == 0 && forall n :: n in s.syms ==> NameTaken(w, s, n)
    requires w.funcs[ip].bytes > 0 && s'.graphs == s.graphs[ip := w.funcs[ip].bytes]
    requires s'.syms == if w.funcs[ip].bpf then s.syms else s.syms + {w.funcs[ip].name}
    ensures forall n :: n in s'.syms ==> NameTaken(w, s', n)
  {
    forall n | n in s'.syms
      ensures NameTaken(w, s', n)
    {
      if n in s.syms {
        assert NameTaken(w, s, n);
        var i :| i in s.graphs && s.graphs[i] != 0 && Traceable(w, i) && !w.funcs[i].bpf && w.funcs[i].name == n;
        assert i in s'.graphs && s'.graphs[i] != 0;
      } else {
        assert ip in s'.graphs && s'.graphs[ip] != 0;
      }
    }
  }

  lemma {:induction false} OthersFilled(w: World, s: Shared, s': Shared, t: Task)
    requires Steady(w, s) && t in s.tasks && t.Adding? && t.filling && t.rest != []
    requires forall u :: u in s.tasks && u != t ==> u in s'.tasks
    requires forall ip :: ip in s'.graphs && s'.graphs[ip] == 0 && Traceable(w, ip) ==> ip in s.graphs && s.graphs[ip] == 0 && ip != t.rest[0]
    ensures forall ip :: ip in s'.graphs && s'.graphs[ip] == 0 && Traceable(w, ip) ==> BeingFilled(s', ip)
  {
    forall ip | ip in s'.graphs && s'.graphs[ip] == 0 && Traceable(w, ip)
      ensures BeingFilled(s', ip)
    {
      assert BeingFilled(s, ip);
      var v :| v in s.tasks && Fills(v, ip);
      assert v in s'.tasks;
    }
  }

  lemma {:induction false} NextSteady(w: World, s: Shared, t: Task)
    requires ValidWorld(w) && Steady(w, s) && t in s.tasks
    ensures Steady(w, Progress(w, true, s, t))
  {
    match t
    case Start(k) => BeginSteady(w, s, k);
    case Adding(_, _, _, rest, depth, filling) =>
      if rest == [] {
        FinishSteady(w, s, t);
      } else if filling {
        FillSteady(w, s, t);
      } else if depth <= w.maxDepth && rest[0] !in s.graphs {
        ClaimSteady(w, s, t);
      } else {
        hide Steady;
        PassSteady(w, s, t, Progress(w, true, s, t));
      }
  }

  lemma {:induction false} InitSteady(w: World, r: Roots)
    ensures Steady(w, Init(r))
  {
    var s := Init(r);
    var u := Adding(None, false, [], r.extra, 1, false);
    forall t | t in s.tasks && t.Adding?
      ensures t == u && s.tasks[t] == 1
    {
      StartsMember(r.parse, t);
    }
  }

  // The history of one function ------------------------------------------------------------------

  ghost predicate Pends(s: Shared, src: Source) {
    exists t :: t in s.tasks && t.Adding? && t.source == src
  }

  ghost predicate StillHas(s: Shared, src: Source, x: Addr) {
    exists t :: t in s.tasks && t.Adding? && t.source == src && x in t.rest
  }

  /** Nobody has added `x`: all that has been found was found on the way to it. */
  ghost predicate Untouched(w: World, r: Roots, x: Addr, s: Shared) {
    && x !in s.graphs
    && (forall k :: Queued(s, k) ==> Within(w, r, x, All, k))
    && (forall t :: t in s.tasks && t.Adding? && t.depth <= w.maxDepth ==> x !in t.done)
    && (forall src :: Active(s, src) && x in ListOf(w, r, src) && DepthOf(w, src) <= w.maxDepth ==> Pends(s, src))
  }

  /** The task has put the placeholder of `x` down: the others have passed by. */
  ghost predicate ClaimedBy(w: World, r: Roots, x: Addr, s: Shared, t: Task) {
    && t in s.tasks && Fills(t, x) && x !in t.done && Live(w, r, x, All, t.source)
    && forall k :: Queued(s, k) ==> Within(w, r, x, One(t.source), k)
  }

  ghost predicate Unfinished(w: World, r: Roots, x: Addr, s: Shared) {
    x in s.graphs && s.graphs[x] == 0 && exists t :: ClaimedBy(w, r, x, s, t)
  }

  /** `b` was the first to add `x`, and whoever adds it at that depth has passed by or is still to come. */
  ghost predicate Claimant(w: World, r: Roots, x: Addr, depth: nat, s: Shared, b: Source) {
    && Live(w, r, x, All, b) && x in ListOf(w, r, b) && DepthOf(w, b) <= w.maxDepth && DepthOf(w, b) != depth
    && forall src :: Active(s, src) && Adds(w, r, src, Key(x, depth)) ==>
         Live(w, r, x, One(b), src) || StillHas(s, src, x)
  }

  ghost predicate FilledIn(w: World, r: Roots, x: Addr, depth: nat, s: Shared) {
    x in s.graphs && s.graphs[x] != 0 && (Queued(s, Key(x, depth)) || exists b :: Claimant(w, r, x, depth, s, b))
  }

  ghost predicate History(w: World, r: Roots, x: Addr, depth: nat, s: Shared) {
    Untouched(w, r, x, s) || Unfinished(w, r, x, s) || FilledIn(w, r, x, depth, s)
  }

  /** Starting a parse task. */
  lemma {:induction false} BegunTasks(w: World, s: Shared, k: Key)
    requires Steady(w, s) && Start(k) in s.tasks
    ensures var s' := Progress(w, true, s, Start(k));
            && (forall j :: Queued(s', j) <==> Queued(s, j))
            && s'.graphs == s.graphs && s.parsed <= s'.parsed
            && (forall t :: t in s.tasks && t.Adding? ==> t in s'.tasks)
            && (forall t :: t in s'.tasks && t.Adding? && t !in s.tasks ==> k !in s.parsed && t == Opened(w, s, k))
            && (forall src :: Active(s', src) ==> Active(s, src) || (src == Some(k) && k !in s.parsed && Opened(w, s, k) in s'.tasks))
  {
    hide Opened, Steady;
    var s' := Progress(w, true, s, Start(k));
    forall j | Queued(s', j) || Queued(s, j)
      ensures Queued(s', j) && Queued(s, j)
    {
      OpenedAdds(w, s, k);
      if j != k {
        assert Start(j) in s.tasks <==> Start(j) in s'.tasks;
      }
    }
    OpenedAdds(w, s, k);
  }

  lemma {:induction false} OpenedAdds(w: World, s: Shared, k: Key)
    ensures var u := Opened(w, s, k); u.Adding? && u.source == Some(k) && u.done == [] && !u.filling
  {
  }

  /** What the opened task goes through. */
  lemma {:induction false} OpenedIs(w: World, r: Roots, s: Shared, k: Key)
    requires Sound(w, r, s)
    ensures var u := Opened(w, s, k); u.Adding? && u.rest == ListOf(w, r, Some(k)) && u.depth == DepthOf(w, Some(k))
  {
    MemoIrrelevant(w, r, s, k);
  }

  lemma {:induction false} BeginHistory(w: World, r: Roots, x: Addr, depth: nat, s: Shared, k: Key)
    requires Sound(w, r, s) && Steady(w, s) && History(w, r, x, depth, s) && Start(k) in s.tasks
    ensures History(w, r, x, depth, Progress(w, true, s, Start(k)))
  {
    hide Sound, Steady, Within, Progress, Opened, Queued, Live;
    var s' := Progress(w, true, s, Start(k));
    BegunTasks(w, s, k);
    OpenedAdds(w, s, k);
    OpenedIs(w, r, s, k);
    if Untouched(w, r, x, s) {
      forall src | Active(s', src) && x in ListOf(w, r, src) && DepthOf(w, src) <= w.maxDepth
        ensures Pends(s', src)
      {
        if Active(s, src) {
          assert Pends(s, src);
        }
      }
    } else if Unfinished(w, r, x, s) {
      var t :| ClaimedBy(w, r, x, s, t);
      assert ClaimedBy(w, r, x, s', t);
    } else if !Queued(s', Key(x, depth)) {
      var b :| Claimant(w, r, x, depth, s, b);
      forall src | Active(s', src) && Adds(w, r, src, Key(x, depth))
        ensures Live(w, r, x, One(b), src) || StillHas(s', src, x)
      {
        if Active(s, src) && StillHas(s, src, x) {
          var t :| t in s.tasks && t.Adding? && t.source == src && x in t.rest;
          assert t in s'.tasks;
        }
      }
      assert Claimant(w, r, x, depth, s', b);
    }
  }

  lemma {:induction false} FinishingIs(w: World, s: Shared, t: Task)
    requires Steady(w, s) && t in s.tasks && t.Adding? && t.rest == []
    ensures var s' := Progress(w, true, s, t);
            && s'.graphs == s.graphs && s'.parsed == s.parsed
            && (forall k :: Queued(s', k) <==> Queued(s, k))
            && (forall u :: u in s.tasks && u != t ==> u in s'.tasks)
            && (forall u :: u in s'.tasks ==> u in s.tasks && u != t)
  {
    hide NameTaken, Traceable;
    OthersStay(s.tasks, t);
  }

  lemma {:induction false} FinishHistory(w: World, r: Roots, x: Addr, depth: nat, s: Shared, t: Task)
    requires Sound(w, r, s) && Steady(w, s) && History(w, r, x, depth, s) && t in s.tasks && t.Adding? && t.rest == []
    ensures History(w, r, x, depth, Progress(w, true, s, t))
  {
    hide Within, Live, Progress, OneEach, Reachable;
    var s' := Progress(w, true, s, t);
    FinishingIs(w, s, t);
    assert Justified(w, r, t) && t.done + [] == t.done;
    hide Sound, Steady, Justified;
    if Untouched(w, r, x, s) {
      forall src | Active(s', src) && x in ListOf(w, r, src) && DepthOf(w, src) <= w.maxDepth
        ensures Pends(s', src)
      {
        assert Pends(s, src);
        var v :| v in s.tasks && v.Adding? && v.source == src;
        assert v in s'.tasks;
      }
    } else if Unfinished(w, r, x, s) {
      var v :| ClaimedBy(w, r, x, s, v);
      assert ClaimedBy(w, r, x, s', v);
    } else if !Queued(s', Key(x, depth)) {
      var b :| Claimant(w, r, x, depth, s, b);
      forall src | Active(s', src) && Adds(w, r, src, Key(x, depth))
        ensures Live(w, r, x, One(b), src) || StillHas(s', src, x)
      {
        if StillHas(s, src, x) {
          var v :| v in s.tasks && v.Adding? && v.source == src && x in v.rest;
          assert v in s'.tasks;
        }
      }
      assert Claimant(w, r, x, depth, s', b);
    }
  }

  /** What a source spawns is found while `x` is withheld. */
  lemma {:induction false} SpawnWithin(w: World, r: Roots, x: Addr, who: Stopped, t: Task)
    requires Justified(w, r, t) && t.Adding? && t.rest != [] && t.depth <= w.maxDepth && Traceable(w, t.rest[0])
    requires t.rest[0] != x && Live(w, r, x, who, t.source) && (Stops(who, t.source) ==> x !in t.done)
    ensures Within(w, r, x, who, Key(t.rest[0], t.depth))
  {
    hide Within, Live;
    var ips, i := t.done + t.rest, |t.done|;
    assert ips[..i] == t.done && ips[i] == t.rest[0];
    if Stops(who, t.source) {
      BeforeHas(ips, x, i);
    }
    AllowedWithin(w, r, x, who, t.source, Key(t.rest[0], t.depth));
  }

  lemma {:induction false} UntouchedMoved(w: World, r: Roots, x: Addr, s: Shared, s': Shared, t: Task, u: Task)
    requires Untouched(w, r, x, s) && OneEach(s.tasks) && t in s.tasks && t.Adding? && u.Adding? && u.source == t.source
    requires Moved(s.tasks, t, u, s'.tasks) && s'.parsed == s.parsed && x !in s'.graphs
    requires forall k :: Queued(s', k) && !Queued(s, k) ==> Within(w, r, x, All, k)
    requires u.depth <= w.maxDepth ==> x !in u.done
    ensures Untouched(w, r, x, s')
  {
    hide Within, Moved, OneEach;
    MovedTasks(s.tasks, t, u, s'.tasks);
    forall src | Active(s', src) && x in ListOf(w, r, src) && DepthOf(w, src) <= w.maxDepth
      ensures Pends(s', src)
    {
      assert Pends(s, src);
      var v :| v in s.tasks && v.Adding? && v.source == src;
      assert v in s'.tasks || v == t;
    }
  }

  lemma {:induction false} UnfinishedMoved(w: World, r: Roots, x: Addr, s: Shared, s': Shared, t: Task, u: Task,
                                           v: Task)
    requires ClaimedBy(w, r, x, s, v) && OneEach(s.tasks) && t in s.tasks && t.Adding? && u.Adding? && u.source == t.source
    requires Moved(s.tasks, t, u, s'.tasks) && t != v && x in s'.graphs && s'.graphs[x] == 0
    requires forall k :: Queued(s', k) && !Queued(s, k) ==> Within(w, r, x, One(v.source), k)
    ensures Unfinished(w, r, x, s')
  {
    hide Within, Live, Moved, OneEach;
    MovedTasks(s.tasks, t, u, s'.tasks);
    assert ClaimedBy(w, r, x, s', v);
  }

  lemma {:induction false} FilledMoved(w: World, r: Roots, x: Addr, depth: nat, s: Shared, s': Shared, t: Task, u: Task)
    requires FilledIn(w, r, x, depth, s) && OneEach(s.tasks) && t in s.tasks && t.Adding? && u.Adding? && u.source == t.source
    requires Moved(s.tasks, t, u, s'.tasks) && s'.parsed == s.parsed && x in s'.graphs && s'.graphs[x] != 0
    requires forall k :: Queued(s, k) ==> Queued(s', k)
    requires x in t.rest && x !in u.rest && Adds(w, r, t.source, Key(x, depth)) ==> Queued(s', Key(x, depth))
    ensures FilledIn(w, r, x, depth, s')
  {
    hide Within, Live, Moved, OneEach;
    MovedTasks(s.tasks, t, u, s'.tasks);
    if !Queued(s', Key(x, depth)) {
      var b :| Claimant(w, r, x, depth, s, b);
      forall src | Active(s', src) && Adds(w, r, src, Key(x, depth))
        ensures Live(w, r, x, One(b), src) || StillHas(s', src, x)
      {
        if StillHas(s, src, x) {
          var v :| v in s.tasks && v.Adding? && v.source == src && x in v.rest;
          assert v in s'.tasks || v == t;
        }
      }
      assert Claimant(w, r, x, depth, s', b);
    }
  }

  /** What a task on its way does to tasks and graph entries. */
  ghost predicate MovesOn(w: World, s: Shared, t: Task, u: Task, s': Shared) {
    && t in s.tasks && t.Adding? && t.rest != [] && s'.parsed == s.parsed && Moved(s.tasks, t, u, s'.tasks)
    && (forall k :: Queued(s, k) ==> Queued(s', k))
    && (forall k :: Queued(s', k) && !Queued(s, k) ==>
          k == Key(t.rest[0], t.depth) && t.depth <= w.maxDepth && Traceable(w, t.rest[0]))
  }

  predicate NothingNew(s: Shared, s': Shared, k: Key) {
    Queued(s', k) ==> Queued(s, k)
  }

  /** One entry is new or has a new value. */
  ghost predicate Entered(g: map<Addr, nat>, g': map<Addr, nat>, ip: Addr, v: nat) {
    && ip in g' && g'[ip] == v
    && forall j {:trigger j in g} {:trigger j in g'} {:trigger g[j]} {:trigger g'[j]} :: j != ip ==>
         (j in g <==> j in g') && (j in g ==> g'[j] == g[j])
  }

  lemma {:induction false} KnownTraceable(w: World, r: Roots, s: Shared, ip: Addr)
    requires Sound(w, r, s)
    ensures ip in s.graphs && s.graphs[ip] != 0 ==> Traceable(w, ip)
  {
  }

  /** The state after filling a placeholder that was, or has just been, put down. */
  lemma {:induction false} FillingIs(w: World, s: Shared, t: Task)
    requires t in s.tasks && t.Adding? && t.rest != [] && t.depth <= w.maxDepth
    requires if t.filling then t.rest[0] in s.graphs && s.graphs[t.rest[0]] == 0 else t.rest[0] !in s.graphs
    ensures var s1 := s.(graphs := s.graphs[t.rest[0] := 0], tasks := s.tasks - multiset{t});
            Progress(w, false, s, t) == Spawn(Fill(w, s1, t.rest[0], t.depth), Advanced(t))
    ensures t.filling ==> Progress(w, true, s, t) == Progress(w, false, s, t)
  {
    hide Fill;
    assert t.filling ==> s.graphs[t.rest[0] := 0] == s.graphs;
  }

  /** The state after an `add` that meets a graph entry or goes too deep. */
  lemma {:induction false} PassingIs(w: World, split: bool, s: Shared, t: Task)
    requires t in s.tasks && t.Adding? && t.rest != [] && !t.filling && (t.depth > w.maxDepth || t.rest[0] in s.graphs)
    ensures var spawned := if t.depth <= w.maxDepth && s.graphs[t.rest[0]] != 0 then multiset{Start(Key(t.rest[0], t.depth))}
                           else multiset{};
            Progress(w, split, s, t) == s.(tasks := s.tasks - multiset{t} + spawned + multiset{Advanced(t)})
  {
    assert s.tasks - multiset{t} + multiset{} == s.tasks - multiset{t};
  }

  lemma {:induction false} FillingMoves(w: World, s: Shared, t: Task, f: Shared, s': Shared)
    requires t in s.tasks && t.Adding? && t.rest != [] && s' == Spawn(f, Advanced(t)) && f.parsed == s.parsed
    requires f.tasks == if Traceable(w, t.rest[0]) then s.tasks - multiset{t} + multiset{Start(Key(t.rest[0], t.depth))}
                        else s.tasks - multiset{t}
    ensures Moved(s.tasks, t, Advanced(t), s'.tasks)
    ensures forall j :: Queued(s', j) <==> Queued(s, j) || (Traceable(w, t.rest[0]) && j == Key(t.rest[0], t.depth))
  {
    hide Traceable, Moved, Queued;
    SpawnQueued(s, t, Advanced(t), s', if Traceable(w, t.rest[0]) then Some(Key(t.rest[0], t.depth)) else None);
  }

  lemma {:induction false} WholeFilling(w: World, r: Roots, s: Shared, t: Task)
    requires ValidWorld(w) && Sound(w, r, s) && Steady(w, s) && t in s.tasks && t.Adding? && t.rest != []
    requires t.filling || (t.depth <= w.maxDepth && t.rest[0] !in s.graphs)
    ensures var ip, s' := t.rest[0], Progress(w, false, s, t);
            && t.depth <= w.maxDepth && s'.parsed == s.parsed
            && (t.filling ==> ip in s.graphs && s.graphs[ip] == 0 && Progress(w, true, s, t) == s')
            && Entered(s.graphs, s'.graphs, ip, if Traceable(w, ip) then w.funcs[ip].bytes else 0)
            && (Traceable(w, ip) ==> w.funcs[ip].bytes > 0)
            && Moved(s.tasks, t, Advanced(t), s'.tasks)
            && forall j :: Queued(s', j) <==> Queued(s, j) || (Traceable(w, ip) && j == Key(ip, t.depth))
  {
    hide ValidWorld, Reachable, Moved, Queued, Fill, NameTaken, Progress, BeingFilled, OneEach, Entered;
    var ip, s' := t.rest[0], Progress(w, false, s, t);
    var s1 := s.(graphs := s.graphs[ip := 0], tasks := s.tasks - multiset{t});
    assert Justified(w, r, t);
    NamesStay(w, s, s1);
    FillingIs(w, s, t);
    FillOutcome(w, s1, ip, t.depth);
    hide Sound, Steady, Justified;
    var f := Fill(w, s1, ip, t.depth);
    FillingMoves(w, s, t, f, s');
    EnteredTwice(s.graphs, ip, if Traceable(w, ip) then w.funcs[ip].bytes else 0);
  }

  lemma {:induction false} EnteredTwice(g: map<Addr, nat>, ip: Addr, v: nat)
    ensures Entered(g, g[ip := 0], ip, 0) && Entered(g, g[ip := 0][ip := v], ip, v)
  {
  }

  /** The cases of one step through a list. */
  lemma {:induction false} AddingStep(w: World, r: Roots, s: Shared, t: Task) returns (u: Task)
    requires ValidWorld(w) && Sound(w, r, s) && Steady(w, s) && t in s.tasks && t.Adding? && t.rest != []
    ensures var ip, s' := t.rest[0], Progress(w, true, s, t);
            && u.Adding? && u.source == t.source && u.depth == t.depth && MovesOn(w, s, t, u, s')
            && if t.filling then
                 && u == Advanced(t) && ip in s.graphs && s.graphs[ip] == 0
                 && (if Traceable(w, ip) then
                       && w.funcs[ip].bytes > 0 && Entered(s.graphs, s'.graphs, ip, w.funcs[ip].bytes)
                       && Queued(s', Key(ip, t.depth))
                     else Entered(s.graphs, s'.graphs, ip, 0))
               else if t.depth > w.maxDepth || ip in s.graphs then
                 && u == Advanced(t) && s'.graphs == s.graphs
                 && (t.depth <= w.maxDepth && s.graphs[ip] != 0 ==> Queued(s', Key(ip, t.depth)))
                 && (t.depth > w.maxDepth || s.graphs[ip] == 0 ==> forall k :: NothingNew(s, s', k))
               else
                 u == t.(filling := true) && Entered(s.graphs, s'.graphs, ip, 0) && forall k :: NothingNew(s, s', k)
  {
    hide ValidWorld, Sound, Steady, Moved, Queued, Progress, Entered, MovesOn;
    if t.filling {
      u := Advanced(t);
      FillingStep(w, r, s, t);
    } else if t.depth <= w.maxDepth && t.rest[0] !in s.graphs {
      u := t.(filling := true);
      ClaimingStep(w, s, t);
    } else {
      u := Advanced(t);
      PassingStep(w, r, s, t);
    }
  }

  lemma {:induction false} FillingStep(w: World, r: Roots, s: Shared, t: Task)
    requires ValidWorld(w) && Sound(w, r, s) && Steady(w, s) && t in s.tasks && t.Adding? && t.rest != [] && t.filling
    ensures var ip, s' := t.rest[0], Progress(w, true, s, t);
            && MovesOn(w, s, t, Advanced(t), s') && ip in s.graphs && s.graphs[ip] == 0
            && Entered(s.graphs, s'.graphs, ip, if Traceable(w, ip) then w.funcs[ip].bytes else 0)
            && (Traceable(w, ip) ==> w.funcs[ip].bytes > 0 && Queued(s', Key(ip, t.depth)))
  {
    hide ValidWorld, Sound, Steady, Moved, Queued, Progress, Entered;
    WholeFilling(w, r, s, t);
  }

  lemma {:induction false} ClaimingStep(w: World, s: Shared, t: Task)
    requires t in s.tasks && t.Adding? && t.rest != [] && !t.filling && t.depth <= w.maxDepth && t.rest[0] !in s.graphs
    ensures var ip, s' := t.rest[0], Progress(w, true, s, t);
            && MovesOn(w, s, t, t.(filling := true), s') && Entered(s.graphs, s'.graphs, ip, 0)
            && forall k :: NothingNew(s, s', k)
  {
    hide Moved, Queued, Progress, Entered;
    ClaimingIs(w, s, t);
    EnteredTwice(s.graphs, t.rest[0], 0);
    SpawnQueued(s, t, t.(filling := true), Progress(w, true, s, t), None);
  }

  lemma {:induction false} PassingStep(w: World, r: Roots, s: Shared, t: Task)
    requires Sound(w, r, s) && t in s.tasks && t.Adding? && t.rest != [] && !t.filling
    requires t.depth > w.maxDepth || t.rest[0] in s.graphs
    ensures var ip, s' := t.rest[0], Progress(w, true, s, t);
            && MovesOn(w, s, t, Advanced(t), s') && s'.graphs == s.graphs && Progress(w, false, s, t) == s'
            && (t.depth <= w.maxDepth && s.graphs[ip] != 0 ==> Queued(s', Key(ip, t.depth)))
            && (t.depth > w.maxDepth || s.graphs[ip] == 0 ==> forall k :: NothingNew(s, s', k))
  {
    hide Sound, Moved, Queued, Progress;
    var ip, s' := t.rest[0], Progress(w, true, s, t);
    KnownTraceable(w, r, s, ip);
    PassingIs(w, true, s, t);
    PassingIs(w, false, s, t);
    SpawnQueued(s, t, Advanced(t), s', if t.depth <= w.maxDepth && s.graphs[ip] != 0 then Some(Key(ip, t.depth)) else None);
  }

  lemma {:induction false} ClaimingIs(w: World, s: Shared, t: Task)
    requires t in s.tasks && t.Adding? && t.rest != [] && !t.filling && t.depth <= w.maxDepth && t.rest[0] !in s.graphs
    ensures Progress(w, true, s, t) ==
            s.(graphs := s.graphs[t.rest[0] := 0], tasks := s.tasks - multiset{t} + multiset{t.(filling := true)})
  {
  }

  lemma {:induction false} SpawnQueued(s: Shared, t: Task, u: Task, s': Shared, k: Option<Key>)
    requires t in s.tasks && t.Adding? && u.Adding? && s'.parsed == s.parsed
    requires s'.tasks == match k
                         case None => s.tasks - multiset{t} + multiset{u}
                         case Some(j) => s.tasks - multiset{t} + multiset{Start(j)} + multiset{u}
    ensures Moved(s.tasks, t, u, s'.tasks)
    ensures forall j :: Queued(s', j) <==> Queued(s, j) || k == Some(j)
    ensures k == None ==> forall j :: NothingNew(s, s', j)
  {
    forall j
      ensures Start(j) in s'.tasks <==> Start(j) in s.tasks || k == Some(j)
    {
    }
  }

  lemma {:induction false} UntouchedStep(w: World, r: Roots, x: Addr, s: Shared, t: Task)
    requires ValidWorld(w) && Sound(w, r, s) && Steady(w, s) && Untouched(w, r, x, s) && Traceable(w, x)
    requires t in s.tasks && t.Adding? && t.rest != []
    ensures Untouched(w, r, x, Progress(w, true, s, t)) || Unfinished(w, r, x, Progress(w, true, s, t))
  {
    hide ValidWorld, Within, OneEach, Moved, Reachable, Progress, Queued;
    var u := AddingStep(w, r, s, t);
    var s' := Progress(w, true, s, t);
    assert Justified(w, r, t);
    ActiveLive(w, r, x, All, s, t.source);
    hide Sound, Steady;
    if u.filling && t.rest[0] == x {
      forall k | Queued(s', k)
        ensures Within(w, r, x, One(t.source), k)
      {
        assert NothingNew(s, s', k);
        WithinMore(w, r, x, t.source, k);
      }
      MovedTasks(s.tasks, t, u, s'.tasks);
      assert ClaimedBy(w, r, x, s', u);
    } else {
      forall k | Queued(s', k) && !Queued(s, k)
        ensures Within(w, r, x, All, k)
      {
        assert !NothingNew(s, s', k);
        SpawnWithin(w, r, x, All, t);
      }
      UntouchedMoved(w, r, x, s, s', t, u);
    }
  }

  /** A parsed pair has been found, so its task may add. */
  lemma {:induction false} ActiveLive(w: World, r: Roots, x: Addr, who: Stopped, s: Shared, src: Source)
    requires Active(s, src) && forall k :: Queued(s, k) ==> Within(w, r, x, who, k)
    ensures Live(w, r, x, who, src)
  {
    if src.Some? {
      assert Queued(s, src.value);
    }
  }

  lemma {:induction false} UnfinishedStep(w: World, r: Roots, x: Addr, depth: nat, s: Shared, t: Task, v: Task)
    requires ValidWorld(w) && Sound(w, r, s) && Steady(w, s) && ClaimedBy(w, r, x, s, v) && Traceable(w, x)
    requires x in s.graphs && s.graphs[x] == 0 && t in s.tasks && t.Adding? && t.rest != []
    ensures History(w, r, x, depth, Progress(w, true, s, t))
  {
    hide ValidWorld, Within, OneEach, Moved, Reachable, Progress, Queued;
    var u := AddingStep(w, r, s, t);
    var s' := Progress(w, true, s, t);
    assert Justified(w, r, t);
    if t == v {
      if t.depth != depth {
        FilledClaimant(w, r, x, depth, s, s', v);
      }
    } else {
      OneSource(s, t, v);
      ActiveLive(w, r, x, One(v.source), s, t.source);
      hide Steady;
      forall k | Queued(s', k) && !Queued(s, k)
        ensures Within(w, r, x, One(v.source), k)
      {
        assert !NothingNew(s, s', k);
        SpawnWithin(w, r, x, One(v.source), t);
      }
      hide Sound, Live;
      UnfinishedMoved(w, r, x, s, s', t, u, v);
    }
  }

  lemma {:induction false} OneSource(s: Shared, t: Task, v: Task)
    requires OneEach(s.tasks) && t in s.tasks && v in s.tasks && t.Adding? && v.Adding? && t != v
    ensures t.source != v.source
  {
  }

  lemma {:induction false} FilledClaimant(w: World, r: Roots, x: Addr, depth: nat, s: Shared, s': Shared, v: Task)
    requires ClaimedBy(w, r, x, s, v) && Justified(w, r, v) && v.depth != depth && s'.parsed == s.parsed
    ensures Claimant(w, r, x, depth, s', v.source)
  {
    hide Within, Reachable;
    assert x == v.rest[0] && v.rest[0] in v.done + v.rest;
    forall src | Active(s', src) && Adds(w, r, src, Key(x, depth))
      ensures Live(w, r, x, One(v.source), src)
    {
      ActiveLive(w, r, x, One(v.source), s, src);
    }
  }

  lemma {:induction false} FilledStep(w: World, r: Roots, x: Addr, depth: nat, s: Shared, t: Task)
    requires ValidWorld(w) && Sound(w, r, s) && Steady(w, s) && FilledIn(w, r, x, depth, s) && Traceable(w, x)
    requires t in s.tasks && t.Adding? && t.rest != []
    ensures FilledIn(w, r, x, depth, Progress(w, true, s, t))
  {
    hide ValidWorld, Within, OneEach, Moved, Reachable, Progress, Queued, Claimant;
    var u := AddingStep(w, r, s, t);
    var s' := Progress(w, true, s, t);
    assert Justified(w, r, t);
    hide Sound, Steady;
    if x in t.rest && x !in u.rest && Adds(w, r, t.source, Key(x, depth)) {
      assert t.rest[0] == x by {
        assert t.rest == [t.rest[0]] + t.rest[1..];
      }
    }
    FilledMoved(w, r, x, depth, s, s', t, u);
  }

  lemma {:induction false} NextHistory(w: World, r: Roots, x: Addr, depth: nat, s: Shared, t: Task)
    requires ValidWorld(w) && Sound(w, r, s) && Steady(w, s) && History(w, r, x, depth, s) && Traceable(w, x) && t in s.tasks
    ensures History(w, r, x, depth, Progress(w, true, s, t))
  {
    if t.Start? {
      BeginHistory(w, r, x, depth, s, t.key);
    } else if t.rest == [] {
      FinishHistory(w, r, x, depth, s, t);
    } else if Untouched(w, r, x, s) {
      hide ValidWorld, Sound, Steady, Untouched, Unfinished, FilledIn, Progress;
      UntouchedStep(w, r, x, s, t);
    } else if Unfinished(w, r, x, s) {
      hide ValidWorld, Sound, Steady, ClaimedBy, FilledIn, Progress;
      var v :| ClaimedBy(w, r, x, s, v);
      UnfinishedStep(w, r, x, depth, s, t, v);
    } else {
      hide ValidWorld, Sound, Steady, Untouched, Unfinished, FilledIn, Progress;
      FilledStep(w, r, x, depth, s, t);
    }
  }

  lemma {:induction false} QueuedStays(w: World, r: Roots, s: Shared, t: Task, k: Key)
    requires ValidWorld(w) && Sound(w, r, s) && Steady(w, s) && t in s.tasks && Queued(s, k)
    ensures Queued(Progress(w, true, s, t), k)
  {
    hide ValidWorld, Sound, Steady, Opened, Moved;
    if t.Start? {
      hide Progress, Queued;
      BegunTasks(w, s, t.key);
    } else if t.rest != [] {
      hide Progress, Queued;
      var _ := AddingStep(w, r, s, t);
    }
  }

  lemma {:induction false} InitHistory(w: World, r: Roots, x: Addr, depth: nat)
    ensures History(w, r, x, depth, Init(r))
  {
    hide Within;
    var s, u := Init(r), Adding(None, false, [], r.extra, 1, false);
    forall k | Queued(s, k)
      ensures Within(w, r, x, All, k)
    {
      StartsMember(r.parse, Start(k));
      RootWithin(w, r, x, All, k);
    }
    forall t | t in s.tasks && t.Adding?
      ensures t == u
    {
      StartsMember(r.parse, t);
    }
    assert u in s.tasks;
  }

  /** What every run keeps for every function. */
  lemma {:induction false} RunHistory(w: World, r: Roots, schedule: seq<Task>, x: Addr, depth: nat)
    requires ValidWorld(w) && After(w, true, Init(r), schedule).Some? && Traceable(w, x)
    ensures var s := After(w, true, Init(r), schedule).value;
            Steady(w, s) && History(w, r, x, depth, s)
  {
    hide ValidWorld, Sound, Steady, History, Progress, Init, Queued;
    if schedule == [] {
      InitSteady(w, r);
      InitHistory(w, r, x, depth);
    } else {
      var n := |schedule| - 1;
      var s := After(w, true, Init(r), schedule[..n]).value;
      RunSound(w, r, true, schedule[..n]);
      RunHistory(w, r, schedule[..n], x, depth);
      NextSteady(w, s, schedule[n]);
      NextHistory(w, r, x, depth, s, schedule[n]);
    }
  }

  lemma {:induction false} RootStarts(r: Roots, root: Addr)
    ensures root in r.parse ==> Queued(Init(r), Key(root, 0))
  {
    StartsMember(r.parse, Start(Key(root, 0)));
  }

  /** Whoever adds the pair has been parsed. */
  ghost predicate AllSources(w: World, r: Roots, s: Shared, k: Key) {
    forall src :: Adds(w, r, src, k) && (src.Some? ==> Reachable(w, r, src.value)) ==> Active(s, src)
  }

  /** Among the lost pairs there is one that only parsed pairs add. */
  lemma {:induction false} FirstLost(w: World, r: Roots, s: Shared, k: Key) returns (l: Key)
    requires Flat(w) && Reachable(w, r, k) && k !in s.parsed
    ensures Reachable(w, r, l) && l !in s.parsed && AllSources(w, r, s, l)
    decreases k.depth, if Replaced(w, k.ip).Some? then 0 else 1
  {
    if AllSources(w, r, s, k) {
      l := k;
    } else {
      hide Reachable;
      var src :| Adds(w, r, src, k) && (src.Some? ==> Reachable(w, r, src.value)) && !Active(s, src);
      l := FirstLost(w, r, s, src.value);
    }
  }

  lemma {:induction false} ReachedSomehow(w: World, r: Roots, k: Key)
    requires Reachable(w, r, k)
    ensures (k.depth == 0 && k.ip in r.parse) || exists src :: Adds(w, r, src, k) && (src.Some? ==> Reachable(w, r, src.value))
  {
    var path :| IsPath(w, r, path) && path[|path| - 1] == k;
    if |path| == 1 {
      assert k == path[0] && (k.depth == 1 ==> Adds(w, r, None, k) || (k.depth == 0 && k.ip in r.parse));
    } else {
      var a, less := path[|path| - 2], path[..|path| - 1];
      assert Edge(w, a, k) && IsPath(w, r, less) && less[|less| - 1] == a;
      assert Adds(w, r, Some(a), k) && Reachable(w, r, a);
    }
  }

  /** A pair lost by a finished run shows where the loss comes from. */
  lemma {:induction false} LostShows(w: World, r: Roots, schedule: seq<Task>, k: Key)
    requires ValidWorld(w) && Flat(w) && After(w, true, Init(r), schedule).Some?
    requires After(w, true, Init(r), schedule).value.tasks == multiset{}
    requires Reachable(w, r, k) && k !in After(w, true, Init(r), schedule).value.parsed
    ensures SomeLoss(w, r)
  {
    hide ValidWorld, Flat, Sound, Steady, Within, Reachable, Init, After;
    var s := After(w, true, Init(r), schedule).value;
    var l := FirstLost(w, r, s, k);
    ReachedSomehow(w, r, l);
    if l.depth == 0 && l.ip in r.parse {
      RunRoots(w, r, schedule, l.ip);
    } else {
      var src :| Adds(w, r, src, l) && (src.Some? ==> Reachable(w, r, src.value));
      RunHistory(w, r, schedule, l.ip, l.depth);
      NothingPends(s);
      var b :| Claimant(w, r, l.ip, l.depth, s, b);
      assert Loses(w, r, l.ip, b, l.depth);
    }
  }

  lemma {:induction false} NothingPends(s: Shared)
    requires s.tasks == multiset{}
    ensures forall src :: !Pends(s, src)
    ensures forall src, x :: !StillHas(s, src, x)
    ensures forall k :: Queued(s, k) ==> k in s.parsed
    ensures forall t :: t !in s.tasks
  {
  }

  /** Roots are always parsed. */
  lemma {:induction false} RunRoots(w: World, r: Roots, schedule: seq<Task>, root: Addr)
    requires ValidWorld(w) && After(w, true, Init(r), schedule).Some? && root in r.parse
    ensures Steady(w, After(w, true, Init(r), schedule).value)
    ensures Queued(After(w, true, Init(r), schedule).value, Key(root, 0))
  {
    hide ValidWorld, Sound, Steady, Progress, Init, Queued;
    if schedule == [] {
      InitSteady(w, r);
      RootStarts(r, root);
    } else {
      var n := |schedule| - 1;
      var s := After(w, true, Init(r), schedule[..n]).value;
      RunSound(w, r, true, schedule[..n]);
      RunRoots(w, r, schedule[..n], root);
      NextSteady(w, s, schedule[n]);
      QueuedStays(w, r, s, schedule[n], Key(root, 0));
    }
  }

  // A run that loses -----------------------------------------------------------------------------

  /** A step with the two halves of `add` next to each other. */
  lemma {:induction false} WholeStep(w: World, s: Shared, t: Task) returns (schedule: seq<Task>)
    requires t in s.tasks
    ensures After(w, true, s, schedule) == Some(Progress(w, false, s, t))
  {
    if t.Adding? && t.rest != [] && !t.filling && t.depth <= w.maxDepth && t.rest[0] !in s.graphs {
      var u := t.(filling := true);
      schedule := [t, u];
      var s1 := Progress(w, true, s, t);
      ClaimThenFill(w, s, t);
      hide Progress;
      assert [t][..0] == [] && [t, u][..1] == [t];
      assert After(w, true, s, [t]) == Some(s1);
    } else {
      schedule := [t];
      assert [t][..0] == [];
    }
  }

  lemma {:induction false} ClaimThenFill(w: World, s: Shared, t: Task)
    requires t in s.tasks && t.Adding? && t.rest != [] && !t.filling && t.depth <= w.maxDepth && t.rest[0] !in s.graphs
    ensures var u := t.(filling := true);
            var s1 := Progress(w, true, s, t);
            u in s1.tasks && Progress(w, true, s1, u) == Progress(w, false, s, t)
  {
    var u := t.(filling := true);
    var s1 := Progress(w, true, s, t);
    assert s1.tasks - multiset{u} == s.tasks - multiset{t};
    assert s1.(tasks := s1.tasks - multiset{u}) == s.(graphs := s.graphs[t.rest[0] := 0], tasks := s.tasks - multiset{t});
  }

  lemma {:induction false} WholeSteady(w: World, s: Shared, t: Task)
    requires ValidWorld(w) && Steady(w, s) && t in s.tasks
    ensures Steady(w, Progress(w, false, s, t))
  {
    hide ValidWorld, Steady;
    NextSteady(w, s, t);
    if t.Adding? && t.rest != [] && !t.filling && t.depth <= w.maxDepth && t.rest[0] !in s.graphs {
      ClaimThenFill(w, s, t);
      NextSteady(w, Progress(w, true, s, t), t.(filling := true));
    }
  }

  /** What a whole `add` does. */
  lemma {:induction false} WholeAdding(w: World, r: Roots, s: Shared, t: Task)
    requires ValidWorld(w) && Sound(w, r, s) && Steady(w, s) && t in s.tasks && t.Adding? && t.rest != []
    ensures var ip, s' := t.rest[0], Progress(w, false, s, t);
            && MovesOn(w, s, t, Advanced(t), s')
            && (s'.graphs == s.graphs || exists v :: Entered(s.graphs, s'.graphs, ip, v))
            && (t.depth > w.maxDepth || (!t.filling && ip in s.graphs) ==> s'.graphs == s.graphs)
            && (Traceable(w, ip) && t.depth <= w.maxDepth && (t.filling || ip !in s.graphs || s.graphs[ip] != 0) ==>
                  Queued(s', Key(ip, t.depth)))
            && (!t.filling && ip in s.graphs && s.graphs[ip] == 0 ==> forall k :: NothingNew(s, s', k))
  {
    hide ValidWorld, Sound, Steady, Moved, Queued, Progress, Entered;
    if t.filling || (t.depth <= w.maxDepth && t.rest[0] !in s.graphs) {
      WholeFilling(w, r, s, t);
    } else {
      PassingStep(w, r, s, t);
    }
  }

  /** All that the sources have passed over has been queued, but for `x`. */
  ghost predicate SeenTo(w: World, r: Roots, x: Addr, s: Shared) {
    && (forall k: Key :: k.depth == 0 && k.ip in r.parse ==> Queued(s, k))
    && (forall t, ip :: t in s.tasks && t.Adding? && ip in t.done && ip != x && t.depth <= w.maxDepth && Traceable(w, ip) ==>
          Queued(s, Key(ip, t.depth)))
    && (forall src, k :: Active(s, src) && !Pends(s, src) && Adds(w, r, src, k) && k.ip != x ==> Queued(s, k))
  }

  /** No placeholder is unfinished but that of `x`. */
  ghost predicate OnlyFills(x: Addr, s: Shared) {
    forall t :: t in s.tasks && t.Adding? && t.filling ==> Fills(t, x)
  }

  lemma {:induction false} BeginSeenTo(w: World, r: Roots, x: Addr, s: Shared, k: Key)
    requires Sound(w, r, s) && Steady(w, s) && SeenTo(w, r, x, s) && OnlyFills(x, s) && Start(k) in s.tasks
    ensures SeenTo(w, r, x, Progress(w, false, s, Start(k))) && OnlyFills(x, Progress(w, false, s, Start(k)))
  {
    BegunTasks(w, s, k);
    OpenedAdds(w, s, k);
    hide Sound, Steady, Opened, Queued;
    var s' := Progress(w, true, s, Start(k));
    assert s' == Progress(w, false, s, Start(k));
    hide Progress;
    forall src, j | Active(s', src) && !Pends(s', src) && Adds(w, r, src, j) && j.ip != x
      ensures Queued(s', j)
    {
      assert !Pends(s, src);
    }
  }

  lemma {:induction false} FinishSeenTo(w: World, r: Roots, x: Addr, s: Shared, t: Task)
    requires Sound(w, r, s) && Steady(w, s) && SeenTo(w, r, x, s) && OnlyFills(x, s) && t in s.tasks && t.Adding? && t.rest == []
    ensures SeenTo(w, r, x, Progress(w, false, s, t)) && OnlyFills(x, Progress(w, false, s, t))
  {
    var s' := Progress(w, false, s, t);
    OthersStay(s.tasks, t);
    assert Justified(w, r, t) && t.done + [] == t.done;
    hide Sound, Steady, OneEach, Justified, Progress;
    assert forall k :: Queued(s', k) <==> Queued(s, k);
    hide Queued;
    forall src, j | Active(s', src) && !Pends(s', src) && Adds(w, r, src, j) && j.ip != x
      ensures Queued(s', j)
    {
      if Pends(s, src) {
        var v :| v in s.tasks && v.Adding? && v.source == src;
        assert v == t;
      }
    }
  }

  lemma {:induction false} MoveSeenTo(w: World, r: Roots, x: Addr, s: Shared, t: Task)
    requires ValidWorld(w) && Sound(w, r, s) && Steady(w, s) && SeenTo(w, r, x, s) && OnlyFills(x, s)
    requires t in s.tasks && t.Adding? && t.rest != []
    ensures SeenTo(w, r, x, Progress(w, false, s, t)) && OnlyFills(x, Progress(w, false, s, t))
  {
    hide ValidWorld, Sound, OneEach, Progress, Moved, Queued, SeenTo, OnlyFills, Traceable, NameTaken;
    var s' := Progress(w, false, s, t);
    WholeAdding(w, r, s, t);
    MovedTasks(s.tasks, t, Advanced(t), s'.tasks);
    MovedQueued(w, x, s, s', t);
    hide Steady;
    MovedOnly(x, s, t, s');
    MovedSeen(w, r, x, s, t, s');
  }

  lemma {:induction false} MovedOnly(x: Addr, s: Shared, t: Task, s': Shared)
    requires OnlyFills(x, s) && t.Adding? && t.rest != []
    requires forall v :: v in s'.tasks && v.Adding? ==> v == Advanced(t) || (v in s.tasks && v != t)
    ensures OnlyFills(x, s')
  {
  }

  lemma {:induction false} MovedSeen(w: World, r: Roots, x: Addr, s: Shared, t: Task, s': Shared)
    requires SeenTo(w, r, x, s) && t in s.tasks && t.Adding? && t.rest != [] && s'.parsed == s.parsed
    requires forall v :: v in s'.tasks && v.Adding? ==> v == Advanced(t) || (v in s.tasks && v != t)
    requires (forall v :: v in s.tasks && v != t ==> v in s'.tasks) && Advanced(t) in s'.tasks
    requires forall k :: Queued(s, k) ==> Queued(s', k)
    requires t.rest[0] != x && t.depth <= w.maxDepth && Traceable(w, t.rest[0]) ==> Queued(s', Key(t.rest[0], t.depth))
    ensures SeenTo(w, r, x, s')
  {
    hide Queued, Traceable;
    forall v, ip | v in s'.tasks && v.Adding? && ip in v.done && ip != x && v.depth <= w.maxDepth && Traceable(w, ip)
      ensures Queued(s', Key(ip, v.depth))
    {
      if v == Advanced(t) && ip !in t.done {
        assert ip == t.rest[0];
      }
    }
    forall src | Pends(s, src)
      ensures Pends(s', src)
    {
      var v :| v in s.tasks && v.Adding? && v.source == src;
      assert (if v == t then Advanced(t) else v) in s'.tasks;
    }
  }

  /** A traceable function that is passed over is queued: its placeholder is not unfinished. */
  lemma {:induction false} MovedQueued(w: World, x: Addr, s: Shared, s': Shared, t: Task)
    requires Steady(w, s) && OnlyFills(x, s) && t in s.tasks && t.Adding? && t.rest != []
    requires var ip := t.rest[0];
             Traceable(w, ip) && t.depth <= w.maxDepth && (t.filling || ip !in s.graphs || s.graphs[ip] != 0) ==>
               Queued(s', Key(ip, t.depth))
    ensures t.rest[0] != x && t.depth <= w.maxDepth && Traceable(w, t.rest[0]) ==> Queued(s', Key(t.rest[0], t.depth))
  {
    hide NameTaken, OneEach, Traceable, Queued;
    forall ip | ip in s.graphs && s.graphs[ip] == 0 && Traceable(w, ip)
      ensures ip == x
    {
      assert BeingFilled(s, ip);
      var v :| v in s.tasks && Fills(v, ip);
      assert Fills(v, x);
    }
  }

  /** A run that loses (x, depth): first nobody adds `x`; then one task holds its placeholder and the
      others pass by; then it goes on. */
  datatype Phase = Toward | Past(filler: Task) | Away

  predicate Waits(w: World, x: Addr, phase: Phase, t: Task) {
    match phase
    case Toward => t.Adding? && t.rest != [] && t.rest[0] == x && t.depth <= w.maxDepth
    case Past(f) => t == f
    case Away => false
  }

  /** The lost pair is not queued, and whoever adds it has passed by. */
  ghost predicate PassedBy(w: World, r: Roots, x: Addr, depth: nat, s: Shared) {
    && !Queued(s, Key(x, depth))
    && forall src :: Adds(w, r, src, Key(x, depth)) && (src.Some? ==> Reachable(w, r, src.value)) ==>
         Active(s, src) && !Pends(s, src)
  }

  ghost predicate Keeps(w: World, r: Roots, x: Addr, depth: nat, phase: Phase, s: Shared) {
    match phase
    case Toward => Untouched(w, r, x, s) && SeenTo(w, r, x, s) && OnlyFills(x, s)
    case Past(f) =>
      && SeenTo(w, r, x, s) && OnlyFills(x, s) && !Queued(s, Key(x, depth))
      && x in s.graphs && s.graphs[x] == 0 && f in s.tasks && Fills(f, x)
    case Away => PassedBy(w, r, x, depth, s)
  }

  lemma {:induction false} TowardStep(w: World, r: Roots, x: Addr, depth: nat, s: Shared, t: Task)
    requires ValidWorld(w) && Sound(w, r, s) && Steady(w, s) && Keeps(w, r, x, depth, Toward, s)
    requires t in s.tasks && !Waits(w, x, Toward, t) && Traceable(w, x)
    ensures Keeps(w, r, x, depth, Toward, Progress(w, false, s, t))
  {
    hide ValidWorld, Sound, Steady, Untouched, SeenTo, OnlyFills, Progress, Unfinished, FilledIn;
    SeenToStep(w, r, x, s, t);
    if t.Start? {
      SameStart(w, s, t);
      BeginHistory(w, r, x, depth, s, t.key);
      StillUntouched(w, r, x, depth, s, Progress(w, false, s, t));
    } else if t.rest == [] {
      SameStart(w, s, t);
      FinishHistory(w, r, x, depth, s, t);
      StillUntouched(w, r, x, depth, s, Progress(w, false, s, t));
    } else {
      TowardMove(w, r, x, s, t);
    }
  }

  /** Without an `add` the granularity makes no difference. */
  lemma {:induction false} SameStart(w: World, s: Shared, t: Task)
    requires t in s.tasks && (t.Start? || t.rest == [])
    ensures Progress(w, true, s, t) == Progress(w, false, s, t) && Progress(w, false, s, t).graphs == s.graphs
  {
  }

  lemma {:induction false} StillUntouched(w: World, r: Roots, x: Addr, depth: nat, s: Shared, s': Shared)
    requires Untouched(w, r, x, s) && History(w, r, x, depth, s') && s'.graphs == s.graphs
    ensures Untouched(w, r, x, s')
  {
  }

  lemma {:induction false} SeenToStep(w: World, r: Roots, x: Addr, s: Shared, t: Task)
    requires ValidWorld(w) && Sound(w, r, s) && Steady(w, s) && SeenTo(w, r, x, s) && OnlyFills(x, s) && t in s.tasks
    ensures SeenTo(w, r, x, Progress(w, false, s, t)) && OnlyFills(x, Progress(w, false, s, t))
  {
    hide ValidWorld, Sound, Steady, SeenTo, OnlyFills, Progress;
    if t.Start? {
      BeginSeenTo(w, r, x, s, t.key);
    } else if t.rest == [] {
      FinishSeenTo(w, r, x, s, t);
    } else {
      MoveSeenTo(w, r, x, s, t);
    }
  }

  lemma {:induction false} TowardMove(w: World, r: Roots, x: Addr, s: Shared, t: Task)
    requires ValidWorld(w) && Sound(w, r, s) && Steady(w, s) && Untouched(w, r, x, s) && OnlyFills(x, s)
    requires t in s.tasks && t.Adding? && t.rest != [] && !Waits(w, x, Toward, t)
    ensures Untouched(w, r, x, Progress(w, false, s, t))
  {
    hide ValidWorld, Within, OneEach, Moved, Reachable, Progress, Queued, NameTaken;
    var s' := Progress(w, false, s, t);
    WholeAdding(w, r, s, t);
    assert Justified(w, r, t);
    ActiveLive(w, r, x, All, s, t.source);
    forall k | Queued(s', k) && !Queued(s, k)
      ensures Within(w, r, x, All, k)
    {
      SpawnWithin(w, r, x, All, t);
    }
    UntouchedMoved(w, r, x, s, s', t, Advanced(t));
  }

  lemma {:induction false} PastStep(w: World, r: Roots, x: Addr, depth: nat, f: Task, s: Shared, t: Task)
    requires ValidWorld(w) && Sound(w, r, s) && Steady(w, s) && Keeps(w, r, x, depth, Past(f), s)
    requires t in s.tasks && t != f
    ensures Keeps(w, r, x, depth, Past(f), Progress(w, false, s, t))
  {
    hide ValidWorld, Sound, SeenTo, Progress, Queued, Reachable, NameTaken;
    var s' := Progress(w, false, s, t);
    SeenToStep(w, r, x, s, t);
    if t.Start? {
      hide Steady;
      SameStart(w, s, t);
      BegunTasks(w, s, t.key);
    } else if t.rest == [] {
      SameStart(w, s, t);
      FinishKeeps(w, s, t, f, Key(x, depth));
    } else {
      assert !SameFilled(t, f) && (t.filling ==> Fills(t, x));
      WholeAdding(w, r, s, t);
      MovedTasks(s.tasks, t, Advanced(t), s'.tasks);
      assert t.rest[0] == x ==> NothingNew(s, s', Key(x, depth));
    }
  }

  lemma {:induction false} FinishKeeps(w: World, s: Shared, t: Task, f: Task, k: Key)
    requires OneEach(s.tasks) && t in s.tasks && t.Adding? && t.rest == []
    ensures var s' := Progress(w, false, s, t);
            && (Queued(s', k) <==> Queued(s, k)) && s'.parsed == s.parsed
            && (f in s.tasks && f != t ==> f in s'.tasks)
            && (forall src :: Pends(s', src) ==> Pends(s, src))
  {
    OthersStay(s.tasks, t);
  }

  lemma {:induction false} AwayStep(w: World, r: Roots, x: Addr, depth: nat, s: Shared, t: Task)
    requires ValidWorld(w) && Sound(w, r, s) && Steady(w, s) && PassedBy(w, r, x, depth, s) && t in s.tasks
    ensures PassedBy(w, r, x, depth, Progress(w, false, s, t))
  {
    hide ValidWorld, Steady, Progress, Queued, Reachable, Adds;
    var s' := Progress(w, false, s, t);
    if t.Start? {
      assert Justified(w, r, t);
      SameStart(w, s, t);
      BegunTasks(w, s, t.key);
      OpenedAdds(w, s, t.key);
      hide Sound;
      forall src | Adds(w, r, src, Key(x, depth)) && (src.Some? ==> Reachable(w, r, src.value))
        ensures Active(s', src) && !Pends(s', src)
      {
        assert Active(s, src) && !Pends(s, src);
      }
    } else if t.rest == [] {
      SameStart(w, s, t);
      EachOnce(w, s);
      FinishKeeps(w, s, t, t, Key(x, depth));
    } else {
      AwayMove(w, r, x, depth, s, t);
    }
  }

  lemma {:induction false} EachOnce(w: World, s: Shared)
    requires Steady(w, s)
    ensures OneEach(s.tasks)
  {
  }

  lemma {:induction false} AwayMove(w: World, r: Roots, x: Addr, depth: nat, s: Shared, t: Task)
    requires ValidWorld(w) && Sound(w, r, s) && Steady(w, s) && PassedBy(w, r, x, depth, s)
    requires t in s.tasks && t.Adding? && t.rest != []
    ensures PassedBy(w, r, x, depth, Progress(w, false, s, t))
  {
    hide ValidWorld, Steady, Progress, Queued, Reachable, Moved;
    var s' := Progress(w, false, s, t);
    assert Justified(w, r, t);
    EachOnce(w, s);
    WholeAdding(w, r, s, t);
    MovedTasks(s.tasks, t, Advanced(t), s'.tasks);
    hide Sound, OneEach;
    assert Pends(s, t.source) && t.rest[0] in t.done + t.rest;
    assert !Adds(w, r, t.source, Key(x, depth));
    forall src | Pends(s', src)
      ensures Pends(s, src)
    {
      var v :| v in s'.tasks && v.Adding? && v.source == src;
      assert v == Advanced(t) || v in s.tasks;
    }
  }

  /** Runs every task that does not wait. */
  lemma {:induction false} RunPhase(w: World, r: Roots, x: Addr, depth: nat, phase: Phase, s: Shared)
    returns (schedule: seq<Task>, s': Shared)
    requires ValidWorld(w) && Sound(w, r, s) && Steady(w, s) && Keeps(w, r, x, depth, phase, s) && Traceable(w, x)
    ensures After(w, true, s, schedule) == Some(s')
    ensures Sound(w, r, s') && Steady(w, s') && Keeps(w, r, x, depth, phase, s')
    ensures forall t :: t in s'.tasks ==> Waits(w, x, phase, t)
    decreases |Universe(w, r) - s.parsed|, TotalWeight(s.tasks)
  {
    hide ValidWorld, Sound, Steady, Keeps, Progress, Universe, TotalWeight, Waits;
    if exists t :: t in s.tasks && !Waits(w, x, phase, t) {
      var t :| t in s.tasks && !Waits(w, x, phase, t);
      var s1 := Progress(w, false, s, t);
      var first := WholeStep(w, s, t);
      NextSound(w, r, false, s, t);
      WholeSteady(w, s, t);
      NextLower(w, r, false, s, t);
      PhaseStep(w, r, x, depth, phase, s, t);
      var more;
      more, s' := RunPhase(w, r, x, depth, phase, s1);
      AfterThen(w, true, s, first, more);
      schedule := first + more;
    } else {
      schedule, s' := [], s;
    }
  }

  lemma {:induction false} PhaseStep(w: World, r: Roots, x: Addr, depth: nat, phase: Phase, s: Shared, t: Task)
    requires ValidWorld(w) && Sound(w, r, s) && Steady(w, s) && Keeps(w, r, x, depth, phase, s) && Traceable(w, x)
    requires t in s.tasks && !Waits(w, x, phase, t)
    ensures Keeps(w, r, x, depth, phase, Progress(w, false, s, t))
  {
    match phase
    case Toward => TowardStep(w, r, x, depth, s, t);
    case Past(f) => PastStep(w, r, x, depth, f, s, t);
    case Away => AwayStep(w, r, x, depth, s, t);
  }

  /** All that is found while `x` is withheld has been parsed when only tasks that wait are left. */
  lemma {:induction false} TowardFinds(w: World, r: Roots, x: Addr, s: Shared, who: Stopped, trail: seq<Key>, n: nat)
    requires Sound(w, r, s) && SeenTo(w, r, x, s) && IsTrail(w, r, x, who, trail) && n < |trail|
    requires forall t :: t in s.tasks ==> t.Adding? && t.rest != [] && t.rest[0] == x && x !in t.done
    requires forall t :: t in s.tasks && t.depth <= w.maxDepth ==> Stops(who, t.source)
    ensures trail[n] in s.parsed
  {
    hide Reachable;
    if n == 0 {
      if !(trail[0].depth == 0 && trail[0].ip in r.parse) {
        WaitingFinds(w, r, x, s, who, None, trail[0]);
      }
    } else {
      TowardFinds(w, r, x, s, who, trail, n - 1);
      WaitingFinds(w, r, x, s, who, Some(trail[n - 1]), trail[n]);
    }
  }

  lemma {:induction false} WaitingFinds(w: World, r: Roots, x: Addr, s: Shared, who: Stopped, src: Source, k: Key)
    requires Sound(w, r, s) && SeenTo(w, r, x, s) && Active(s, src) && Allowed(w, r, x, who, src, k)
    requires forall t :: t in s.tasks ==> t.Adding? && t.rest != [] && t.rest[0] == x && x !in t.done
    requires forall t :: t in s.tasks && t.depth <= w.maxDepth ==> Stops(who, t.source)
    ensures k in s.parsed
  {
    hide Reachable;
    if Pends(s, src) {
      var t :| t in s.tasks && t.Adding? && t.source == src;
      assert Justified(w, r, t);
      BeforeIs(t.done, x, t.rest);
    }
    assert Queued(s, k);
  }

  lemma {:induction false} LiveActive(w: World, r: Roots, x: Addr, s: Shared, who: Stopped, src: Source)
    requires Sound(w, r, s) && SeenTo(w, r, x, s) && Live(w, r, x, who, src)
    requires forall t :: t in s.tasks ==> t.Adding? && t.rest != [] && t.rest[0] == x && x !in t.done
    requires forall t :: t in s.tasks && t.depth <= w.maxDepth ==> Stops(who, t.source)
    ensures Active(s, src)
  {
    hide Sound, SeenTo;
    if src.Some? {
      var trail :| IsTrail(w, r, x, who, trail) && trail[|trail| - 1] == src.value;
      TowardFinds(w, r, x, s, who, trail, |trail| - 1);
    }
  }

  /** The task of `b` waits at `x`. */
  lemma {:induction false} WaitingTask(w: World, r: Roots, x: Addr, depth: nat, b: Source, s: Shared) returns (t: Task)
    requires Sound(w, r, s) && Keeps(w, r, x, depth, Toward, s) && Loses(w, r, x, b, depth)
    requires forall t :: t in s.tasks ==> Waits(w, x, Toward, t)
    ensures t in s.tasks && t.Adding? && t.source == b && t.depth == DepthOf(w, b) <= w.maxDepth
    ensures t.rest != [] && t.rest[0] == x && x !in t.done && x !in s.graphs && !Queued(s, Key(x, depth))
  {
    hide Within, Reachable, Queued, SeenTo;
    LiveActive(w, r, x, s, All, b);
    NotThere(w, r, x, depth, s);
    t :| t in s.tasks && t.Adding? && t.source == b;
    assert Justified(w, r, t);
  }

  /** It puts the placeholder down. */
  lemma {:induction false} Claims(w: World, r: Roots, x: Addr, depth: nat, s: Shared, t: Task)
    requires ValidWorld(w) && Sound(w, r, s) && Steady(w, s) && Keeps(w, r, x, depth, Toward, s)
    requires t in s.tasks && t.Adding? && t.rest != [] && t.rest[0] == x && t.depth <= w.maxDepth
    requires x !in s.graphs && !Queued(s, Key(x, depth))
    ensures !t.filling && Keeps(w, r, x, depth, Past(t.(filling := true)), Progress(w, true, s, t))
  {
    hide ValidWorld, Untouched, Reachable, Progress, Queued, NameTaken, Moved, SeenTo, Justified;
    var u := AddingStep(w, r, s, t);
    var s' := Progress(w, true, s, t);
    MovedTasks(s.tasks, t, u, s'.tasks);
    hide Steady, Sound, OneEach;
    SameDoneSeen(w, r, x, s, t, s');
    assert NothingNew(s, s', Key(x, depth));
  }

  lemma {:induction false} NotThere(w: World, r: Roots, x: Addr, depth: nat, s: Shared)
    requires Untouched(w, r, x, s) && !(depth == 0 && x in r.parse)
    ensures !Queued(s, Key(x, depth))
  {
    hide Within;
    if Within(w, r, x, All, Key(x, depth)) {
      WithinOther(w, r, x, All, Key(x, depth));
    }
  }

  lemma {:induction false} SameDoneSeen(w: World, r: Roots, x: Addr, s: Shared, t: Task, s': Shared)
    requires SeenTo(w, r, x, s) && t in s.tasks && t.Adding? && s'.parsed == s.parsed
    requires forall k :: Queued(s, k) ==> Queued(s', k)
    requires var u := t.(filling := true);
             && u in s'.tasks && (forall v :: v in s.tasks && v != t ==> v in s'.tasks)
             && (forall v :: v in s'.tasks && v.Adding? ==> v == u || v in s.tasks)
    ensures SeenTo(w, r, x, s')
  {
    hide Queued, Traceable;
    forall src | Pends(s, src)
      ensures Pends(s', src)
    {
      var v :| v in s.tasks && v.Adding? && v.source == src;
      assert (if v == t then t.(filling := true) else v) in s'.tasks;
    }
  }

  /** Nobody but the filler is left. */
  lemma {:induction false} PassedAll(w: World, r: Roots, x: Addr, depth: nat, b: Source, f: Task, s: Shared)
    requires Sound(w, r, s) && Keeps(w, r, x, depth, Past(f), s) && Loses(w, r, x, b, depth)
    requires forall t :: t in s.tasks ==> t == f
    requires f.Adding? && f.source == b && f.depth == DepthOf(w, b) && x !in f.done
    ensures Keeps(w, r, x, depth, Away, s)
  {
    hide Sound, SeenTo, Live, Reachable, Queued;
    forall src | Adds(w, r, src, Key(x, depth)) && (src.Some? ==> Reachable(w, r, src.value))
      ensures Active(s, src) && !Pends(s, src)
    {
      LiveActive(w, r, x, s, One(b), src);
    }
  }

  /** Such a run. */
  lemma {:induction false} LosingRun(w: World, r: Roots, x: Addr, b: Source, depth: nat) returns (schedule: seq<Task>)
    requires ValidWorld(w) && Loses(w, r, x, b, depth)
    ensures After(w, true, Init(r), schedule).Some?
    ensures var s := After(w, true, Init(r), schedule).value; s.tasks == multiset{} && Key(x, depth) !in s.parsed
  {
    hide ValidWorld, Sound, Steady, Keeps, Progress, Init, Live, Reachable;
    InitSound(w, r);
    InitSteady(w, r);
    InitToward(w, r, x, depth);
    var way, s1 := RunPhase(w, r, x, depth, Toward, Init(r));
    var t := WaitingTask(w, r, x, depth, b, s1);
    Claims(w, r, x, depth, s1, t);
    var f := t.(filling := true);
    var s2 := Progress(w, true, s1, t);
    NextSound(w, r, true, s1, t);
    NextSteady(w, s1, t);
    var past, s3 := RunPhase(w, r, x, depth, Past(f), s2);
    PassedAll(w, r, x, depth, b, f, s3);
    var away, s4 := RunPhase(w, r, x, depth, Away, s3);
    AfterOne(w, s1, t);
    AfterThen(w, true, Init(r), way, [t]);
    AfterThen(w, true, Init(r), way + [t], past);
    AfterThen(w, true, Init(r), way + [t] + past, away);
    schedule := way + [t] + past + away;
    NotParsed(w, r, x, depth, s4);
  }

  lemma {:induction false} NotParsed(w: World, r: Roots, x: Addr, depth: nat, s: Shared)
    requires Keeps(w, r, x, depth, Away, s) && forall t :: t !in s.tasks
    ensures s.tasks == multiset{} && Key(x, depth) !in s.parsed
  {
    hide Reachable;
  }

  lemma {:induction false} AfterOne(w: World, s: Shared, t: Task)
    requires t in s.tasks
    ensures After(w, true, s, [t]) == Some(Progress(w, true, s, t))
  {
    hide Progress;
    assert [t][..0] == [];
  }

  lemma {:induction false} InitToward(w: World, r: Roots, x: Addr, depth: nat)
    ensures Keeps(w, r, x, depth, Toward, Init(r))
  {
    hide Within;
    var s, u := Init(r), Adding(None, false, [], r.extra, 1, false);
    InitHistory(w, r, x, depth);
    forall t | t in s.tasks && t.Adding?
      ensures t == u
    {
      StartsMember(r.parse, t);
    }
    forall k: Key | k.depth == 0 && k.ip in r.parse
      ensures Queued(s, k)
    {
      StartsMember(r.parse, Start(k));
    }
    assert u in s.tasks && Pends(s, None);
  }

  // The theorem ----------------------------------------------------------------------------------

  /** Some order of running the tasks comes to its end without a pair that has a call path. */
  ghost predicate CanLose(w: World, r: Roots) {
    exists schedule, k :: LostBy(w, r, schedule, k)
  }

  ghost predicate LostBy(w: World, r: Roots, schedule: seq<Task>, k: Key) {
    && After(w, true, Init(r), schedule).Some?
    && After(w, true, Init(r), schedule).value.tasks == multiset{}
    && Reachable(w, r, k) && k !in After(w, true, Init(r), schedule).value.parsed
  }

  /** With tasks that run between the halves of `add` a pair can be lost exactly when some function is
      added at two depths, one of them by a source that can come first and that all sources of the other
      depth can pass. */
  lemma {:induction false} LossIff(w: World, r: Roots)
    requires ValidWorld(w) && Flat(w)
    ensures CanLose(w, r) <==> SomeLoss(w, r)
  {
    hide ValidWorld, Flat, Reachable, Init, After;
    if CanLose(w, r) {
      var schedule, k :| LostBy(w, r, schedule, k);
      LostShows(w, r, schedule, k);
    }
    if SomeLoss(w, r) {
      var x, b, depth :| Loses(w, r, x, b, depth);
      var schedule := LosingRun(w, r, x, b, depth);
      assert LostBy(w, r, schedule, Key(x, depth));
    }
  }

  /** Confluence with interrupted additions: when no function is added at two depths, every run that has
      come to its end has parsed exactly the pairs with a call path. */
  lemma {:induction false} InterruptedConfluent(w: World, r: Roots, schedule: seq<Task>, k: Key)
    requires ValidWorld(w) && Flat(w) && OneDepth(w, r) && After(w, true, Init(r), schedule).Some?
    requires After(w, true, Init(r), schedule).value.tasks == multiset{}
    ensures k in After(w, true, Init(r), schedule).value.parsed <==> Reachable(w, r, k)
  {
    hide ValidWorld, Flat, Reachable, Init, After, OneDepth;
    NoLoss(w, r);
    RunSound(w, r, true, schedule);
    if Reachable(w, r, k) && k !in After(w, true, Init(r), schedule).value.parsed {
      LostShows(w, r, schedule, k);
    }
  }

  lemma {:induction false} WithinReachable(w: World, r: Roots, x: Addr, who: Stopped, trail: seq<Key>, n: nat)
    requires IsTrail(w, r, x, who, trail) && n < |trail|
    ensures Reachable(w, r, trail[n])
  {
    hide Reachable;
    if n == 0 {
      RootReachable(w, r, trail[0]);
    } else {
      WithinReachable(w, r, x, who, trail, n - 1);
      assert Allowed(w, r, x, who, Some(trail[n - 1]), trail[n]);
      AddsReachable(w, r, Some(trail[n - 1]), trail[n]);
    }
  }

  lemma {:induction false} LossDepths(w: World, r: Roots, x: Addr, b: Source, depth: nat)
    requires Loses(w, r, x, b, depth)
    ensures !OneDepth(w, r)
  {
    hide Reachable;
    if b.Some? {
      var trail :| IsTrail(w, r, x, All, trail) && trail[|trail| - 1] == b.value;
      WithinReachable(w, r, x, All, trail, |trail| - 1);
    }
    ReachedSomehow(w, r, Key(x, depth));
    var src :| Adds(w, r, src, Key(x, depth)) && (src.Some? ==> Reachable(w, r, src.value));
    assert Adds(w, r, b, Key(x, DepthOf(w, b))) && Adds(w, r, src, Key(x, DepthOf(w, src)));
  }

  lemma {:induction false} NoLoss(w: World, r: Roots)
    requires OneDepth(w, r)
    ensures !SomeLoss(w, r)
  {
    hide Loses, OneDepth;
    forall x, b, depth
      ensures !Loses(w, r, x, b, depth)
    {
      if Loses(w, r, x, b, depth) {
        LossDepths(w, r, x, b, depth);
      }
    }
  }

  // An example -----------------------------------------------------------------------------------

  /** Whatever is queued is a root or was added by a parsed pair. */
  ghost predicate Founded(w: World, r: Roots, s: Shared, k: Key) {
    Queued(s, k) ==> (k.depth == 0 && k.ip in r.parse) || exists src :: Active(s, src) && Adds(w, r, src, k)
  }

  lemma {:induction false} RunFounded(w: World, r: Roots, schedule: seq<Task>, k: Key)
    requires ValidWorld(w) && After(w, true, Init(r), schedule).Some?
    ensures Steady(w, After(w, true, Init(r), schedule).value)
    ensures Founded(w, r, After(w, true, Init(r), schedule).value, k)
  {
    hide ValidWorld, Sound, Steady, Founded, Progress, Init;
    if schedule == [] {
      InitSteady(w, r);
      InitFounded(w, r, k);
    } else {
      var n := |schedule| - 1;
      var s := After(w, true, Init(r), schedule[..n]).value;
      RunSound(w, r, true, schedule[..n]);
      RunFounded(w, r, schedule[..n], k);
      NextSteady(w, s, schedule[n]);
      NextFounded(w, r, s, schedule[n], k);
    }
  }

  lemma {:induction false} InitFounded(w: World, r: Roots, k: Key)
    ensures Founded(w, r, Init(r), k)
  {
    StartsMember(r.parse, Start(k));
  }

  lemma {:induction false} NextFounded(w: World, r: Roots, s: Shared, t: Task, k: Key)
    requires ValidWorld(w) && Sound(w, r, s) && Steady(w, s) && Founded(w, r, s, k) && t in s.tasks
    ensures Founded(w, r, Progress(w, true, s, t), k)
  {
    hide ValidWorld, Reachable, Progress, Queued, NameTaken, Moved;
    var s' := Progress(w, true, s, t);
    assert Justified(w, r, t);
    if t.Start? {
      BegunTasks(w, s, t.key);
    } else if t.rest == [] {
      SameStart(w, s, t);
      FinishKeeps(w, s, t, t, k);
    } else {
      var _ := AddingStep(w, r, s, t);
      assert t.rest[0] in t.done + t.rest;
      assert Active(s', t.source);
    }
  }

  /** 1 calls 2 and then 3, 2 calls 3, and 3 calls 4; all are kernel functions. */
  const RacyWorld: World :=
    World(map[1 := Func(true, false, "one", 8, None, [2, 3]), 2 := Func(true, false, "two", 8, None, [3]),
              3 := Func(true, false, "three", 8, None, [4]), 4 := Func(true, false, "four", 8, None, [])], 2)
  const RacyRoots: Roots := Roots([1], [])

  lemma {:induction false} RacyPaths()
    ensures Reachable(RacyWorld, RacyRoots, Key(3, 1)) && Reachable(RacyWorld, RacyRoots, Key(4, 2))
  {
    assert IsPath(RacyWorld, RacyRoots, [Key(1, 0), Key(3, 1)]);
    assert IsPath(RacyWorld, RacyRoots, [Key(1, 0), Key(3, 1), Key(4, 2)]);
  }

  lemma {:induction false} RacySources(src: Source)
    ensures Adds(RacyWorld, RacyRoots, src, Key(3, 1)) ==> src == Some(Key(1, 0)) || src == Some(Key(2, 0))
    ensures forall depth :: Adds(RacyWorld, RacyRoots, src, Key(4, depth)) ==>
              src.Some? && src.value.ip == 3 && src.value.depth + 1 == depth <= 2
  {
  }

  lemma {:induction false} RacyTop()
    ensures !Reachable(RacyWorld, RacyRoots, Key(2, 0))
  {
    forall path | IsPath(RacyWorld, RacyRoots, path)
      ensures path[|path| - 1] != Key(2, 0)
    {
      var i := |path| - 2;
      assert i < 0 || Edge(RacyWorld, path[i], path[i + 1]);
    }
  }

  lemma {:induction false} RacyBefore()
    ensures Before([2, 3], 3) == [2]
  {
    assert [2, 3][0] == 2 && [2, 3][1..] == [3];
    assert Before([3], 3) == [];
  }

  lemma {:induction false} RacyEdges()
    ensures ValidWorld(RacyWorld) && Flat(RacyWorld) && Traceable(RacyWorld, 3)
    ensures ListOf(RacyWorld, RacyRoots, Some(Key(2, 1))) == [3] && DepthOf(RacyWorld, Some(Key(2, 1))) == 2
    ensures Allowed(RacyWorld, RacyRoots, 3, All, Some(Key(1, 0)), Key(2, 1))
  {
    hide Before;
    RacyBefore();
  }

  /** The task of 2 can be the first to add 3, at depth 2, while the one of 1 passes by. */
  lemma {:induction false} RacyLoses()
    ensures Loses(RacyWorld, RacyRoots, 3, Some(Key(2, 1)), 1)
  {
    RacyPaths();
    RacyEdges();
    RootWithin(RacyWorld, RacyRoots, 3, All, Key(1, 0));
    AllowedWithin(RacyWorld, RacyRoots, 3, All, Some(Key(1, 0)), Key(2, 1));
    RootWithin(RacyWorld, RacyRoots, 3, One(Some(Key(2, 1))), Key(1, 0));
    RacyTop();
    hide Reachable, Adds, Within, Traceable, ListOf, DepthOf;
    forall src | Adds(RacyWorld, RacyRoots, src, Key(3, 1)) && (src.Some? ==> Reachable(RacyWorld, RacyRoots, src.value))
      ensures src == Some(Key(1, 0))
    {
      RacySources(src);
    }
  }

  /** Function 4 is never found: its only caller has been lost at the depth where it counts. */
  lemma {:induction false} InterruptedAddLoses() returns (schedule: seq<Task>)
    ensures ValidWorld(RacyWorld) && Flat(RacyWorld)
    ensures LostBy(RacyWorld, RacyRoots, schedule, Key(3, 1)) && LostBy(RacyWorld, RacyRoots, schedule, Key(4, 2))
    ensures forall depth :: Key(4, depth) !in After(RacyWorld, true, Init(RacyRoots), schedule).value.parsed
  {
    RacyLoses();
    RacyPaths();
    RacyEdges();
    schedule := LosingRun(RacyWorld, RacyRoots, 3, Some(Key(2, 1)), 1);
    hide After, Init, Reachable, Loses, ValidWorld;
    var s := After(RacyWorld, true, Init(RacyRoots), schedule).value;
    forall depth
      ensures Key(4, depth) !in s.parsed
    {
      RunFounded(RacyWorld, RacyRoots, schedule, Key(4, depth));
      RunFounded(RacyWorld, RacyRoots, schedule, Key(3, 0));
      OnlyCaller(s, depth);
    }
  }

  lemma {:induction false} OnlyCaller(s: Shared, depth: nat)
    requires Founded(RacyWorld, RacyRoots, s, Key(4, depth)) && Founded(RacyWorld, RacyRoots, s, Key(3, 0))
    requires Key(3, 1) !in s.parsed
    ensures Key(4, depth) !in s.parsed
  {
    forall src
      ensures Adds(RacyWorld, RacyRoots, src, Key(4, depth)) ==> src.Some? && src.value.ip == 3 && src.value.depth + 1 == depth <= 2
    {
      RacySources(src);
    }
  }
}
