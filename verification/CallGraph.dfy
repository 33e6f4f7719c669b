/** Call-graph discovery: concurrent parse tasks that share the maps of found functions, of callees
    and of parsed (function, depth) pairs. A run is any order of atomic steps of the pending tasks. */
module CallGraph {
  import opened Machine

  type Addr = nat

  /** What the symbol tables and the disassembler say about an address. `traceable` is the verdict of
      all filters on a function; a replaced BPF program jumps to another function at once. */
  datatype Func = Func(traceable: bool, bpf: bool, name: string, bytes: nat, replaced: Option<Addr>, callees: seq<Addr>)

  datatype World = World(funcs: map<Addr, Func>, maxDepth: nat)

  datatype Key = Key(ip: Addr, depth: nat)

  predicate Traceable(w: World, ip: Addr) {
    ip in w.funcs && w.funcs[ip].traceable
  }

  function Replaced(w: World, ip: Addr): Option<Addr> {
    if ip in w.funcs && w.funcs[ip].bpf then w.funcs[ip].replaced else None
  }

  function Callees(w: World, ip: Addr): seq<Addr> {
    if ip in w.funcs then w.funcs[ip].callees else []
  }

  /** Traceable functions have code, and kernel functions have names of their own: symbols whose name
      occurs twice are never traceable. */
  ghost predicate ValidWorld(w: World) {
    && (forall ip :: Traceable(w, ip) ==> w.funcs[ip].bytes > 0)
    && (forall i, j ::
          (Traceable(w, i) && Traceable(w, j) && !w.funcs[i].bpf && !w.funcs[j].bpf && w.funcs[i].name == w.funcs[j].name)
          ==> i == j)
  }

  // Reference: call paths ------------------------------------------------------------------------

  /** The functions given by the user are parsed at depth 0, the extra ones are added at depth 1. */
  datatype Roots = Roots(parse: seq<Addr>, extra: seq<Addr>)

  predicate IsRoot(w: World, r: Roots, k: Key) {
    || (k.depth == 0 && k.ip in r.parse)
    || (k.depth == 1 <= w.maxDepth && k.ip in r.extra && k.ip in w.funcs && w.funcs[k.ip].traceable)
  }

  /** Who adds functions: the main task the extra ones, the task of a pair what it leads to. */
  type Source = Option<Key>

  function ListOf(w: World, r: Roots, src: Source): seq<Addr> {
    match src
    case None => r.extra
    case Some(k) =>
      match Replaced(w, k.ip)
      case Some(ip) => [ip]
      case None => Callees(w, k.ip)
  }

  function DepthOf(w: World, src: Source): nat {
    match src
    case None => 1
    case Some(k) => if Replaced(w, k.ip).Some? then k.depth else k.depth + 1
  }

  /** What the source adds has to be parsed. */
  predicate Adds(w: World, r: Roots, src: Source, k: Key) {
    k.ip in ListOf(w, r, src) && k.depth == DepthOf(w, src) <= w.maxDepth && Traceable(w, k.ip)
  }

  /** A replaced BPF program leads to the one that replaces it, at the same depth; any other function to its
      callees, one level down. */
  predicate Edge(w: World, a: Key, b: Key) {
    && b.depth <= w.maxDepth && b.ip in w.funcs && w.funcs[b.ip].traceable && a.ip in w.funcs
    && var f := w.funcs[a.ip];
       if f.bpf && f.replaced.Some? then b.ip == f.replaced.value && b.depth == a.depth
       else b.ip in f.callees && b.depth == a.depth + 1
  }

  predicate IsPath(w: World, r: Roots, path: seq<Key>) {
    && path != [] && IsRoot(w, r, path[0])
    && forall i :: 0 <= i < |path| - 1 ==> Edge(w, path[i], path[i + 1])
  }

  /** Some call path of bounded length leads from a root to the function, at that depth. */
  ghost predicate Reachable(w: World, r: Roots, k: Key) {
    exists path :: IsPath(w, r, path) && path[|path| - 1] == k
  }

  lemma {:induction false} RootReachable(w: World, r: Roots, k: Key)
    requires IsRoot(w, r, k)
    ensures Reachable(w, r, k)
  {
    assert IsPath(w, r, [k]);
  }

  lemma {:induction false} EdgeReachable(w: World, r: Roots, a: Key, b: Key)
    requires Reachable(w, r, a) && Edge(w, a, b)
    ensures Reachable(w, r, b)
  {
    var path :| IsPath(w, r, path) && path[|path| - 1] == a;
    var longer := path + [b];
    forall i | 0 <= i < |longer| - 1
      ensures Edge(w, longer[i], longer[i + 1])
    {
      assert longer[i] == path[i];
    }
    assert IsPath(w, r, longer);
  }

  // The machine ----------------------------------------------------------------------------------

  /** A task that has not started, or one on its way through the list of its source. `store` says that
      the list goes into the memo at the end, `filling` that the placeholder of the first address of the
      rest has been inserted and not yet filled in. */
  datatype Task =
    | Start(key: Key)
    | Adding(source: Source, store: bool, done: seq<Addr>, rest: seq<Addr>, depth: nat, filling: bool)

  /** The shared maps, the pending tasks, and the pairs in the order their work was begun. */
  datatype Shared = Shared(
    graphs: map<Addr, nat>,
    syms: set<string>,
    callee: map<Addr, seq<Addr>>,
    untraceables: set<Addr>,
    parsed: set<Key>,
    log: seq<Key>,
    tasks: multiset<Task>)

  function Spawn(s: Shared, t: Task): Shared {
    s.(tasks := s.tasks + multiset{t})
  }

  /** The second half of `add`: the placeholder is filled in and a task is spawned, or the address is
      found to be untraceable. */
  function Fill(w: World, s: Shared, ip: Addr, depth: nat): Shared {
    if ip in s.untraceables then s
    else if !Traceable(w, ip) then s.(untraceables := s.untraceables + {ip})
    else
      var f := w.funcs[ip];
      if !f.bpf && f.name in s.syms then s.(untraceables := s.untraceables + {ip})
      else
        Spawn(s.(syms := if f.bpf then s.syms else s.syms + {f.name}, graphs := s.graphs[ip := f.bytes]), Start(Key(ip, depth)))
  }

  /** The first half of `add`; the result says whether it inserted the placeholder. */
  function Claim(w: World, s: Shared, ip: Addr, depth: nat): (Shared, bool) {
    if depth > w.maxDepth then (s, false)
    else if ip in s.graphs then (if s.graphs[ip] != 0 then Spawn(s, Start(Key(ip, depth))) else s, false)
    else (s.(graphs := s.graphs[ip := 0]), true)
  }

  /** `add` without interruption. */
  function Add(w: World, s: Shared, ip: Addr, depth: nat): Shared {
    var (s', claimed) := Claim(w, s, ip, depth);
    if claimed then Fill(w, s', ip, depth) else s'
  }

  /** What a parse task does after the check: follow a replacement, or go through the callees, taken
      from the memo if it has them. */
  function Opened(w: World, s: Shared, k: Key): Task {
    match Replaced(w, k.ip)
    case Some(ip) => Adding(Some(k), false, [], [ip], k.depth, false)
    case None =>
      if k.ip in s.callee then Adding(Some(k), false, [], s.callee[k.ip], k.depth + 1, false)
      else Adding(Some(k), true, [], Callees(w, k.ip), k.depth + 1, false)
  }

  /** One atomic step of a pending task. With `split` another task may run between the two halves of
      `add`. */
  function Progress(w: World, split: bool, s: Shared, t: Task): Shared {
    var s0 := s.(tasks := s.tasks - multiset{t});
    match t
    case Start(k) =>
      if k in s.parsed then s0
      else Spawn(s0.(parsed := s.parsed + {k}, log := s.log + [k]), Opened(w, s, k))
    case Adding(source, store, done, rest, depth, filling) =>
      if rest == [] then
        if store && source.Some? then s0.(callee := s.callee[source.value.ip := done]) else s0
      else
        var after := t.(done := done + [rest[0]], rest := rest[1..], filling := false);
        if filling then Spawn(Fill(w, s0, rest[0], depth), after)
        else if !split then Spawn(Add(w, s0, rest[0], depth), after)
        else
          var (s1, claimed) := Claim(w, s0, rest[0], depth);
          Spawn(s1, if claimed then t.(filling := true) else after)
  }

  function Init(r: Roots): Shared {
    Shared(map[], {}, map[], {}, {}, [], Starts(r.parse) + multiset{Adding(None, false, [], r.extra, 1, false)})
  }

  function Starts(ips: seq<Addr>): multiset<Task> {
    if ips == [] then multiset{} else multiset{Start(Key(ips[0], 0))} + Starts(ips[1..])
  }

  /** The state after the steps of a schedule; None if it asks for a task that is not pending. */
  function After(w: World, split: bool, s: Shared, schedule: seq<Task>): Option<Shared> {
    if schedule == [] then Some(s)
    else
      var t := schedule[|schedule| - 1];
      match After(w, split, s, schedule[..|schedule| - 1])
      case None => None
      case Some(s') => if t in s'.tasks then Some(Progress(w, split, s', t)) else None
  }

  /** Two schedules one after the other. */
  lemma {:induction false} AfterThen(w: World, split: bool, s: Shared, a: seq<Task>, b: seq<Task>)
    requires After(w, split, s, a).Some?
    ensures After(w, split, s, a + b) == After(w, split, After(w, split, s, a).value, b)
  {
    hide Progress;
    if b == [] {
      assert a + b == a;
    } else {
      var n := |b| - 1;
      assert (a + b)[..|a + b| - 1] == a + b[..n];
      AfterThen(w, split, s, a, b[..n]);
    }
  }

  // Soundness ------------------------------------------------------------------------------------

  ghost predicate Justified(w: World, r: Roots, t: Task) {
    match t
    case Start(k) => Reachable(w, r, k)
    case Adding(source, store, done, rest, depth, _) =>
      && done + rest == ListOf(w, r, source) && depth == DepthOf(w, source)
      && (source.Some? ==> Reachable(w, r, source.value))
      && (store ==> source.Some? && Replaced(w, source.value.ip).None?)
      && (t.filling ==> rest != [] && depth <= w.maxDepth)
  }

  /** Holds in every run, whether or not `add` can be interrupted. */
  ghost predicate Sound(w: World, r: Roots, s: Shared) {
    && (forall t :: t in s.tasks ==> Justified(w, r, t))
    && (forall k :: k in s.parsed ==> Reachable(w, r, k))
    && (forall ip :: ip in s.callee ==> Replaced(w, ip).None? && s.callee[ip] == Callees(w, ip))
    && (forall ip :: ip in s.graphs && s.graphs[ip] != 0 ==> Traceable(w, ip))
    && (forall k :: k in s.parsed <==> k in s.log)
    && (forall i, j :: 0 <= i < j < |s.log| ==> s.log[i] != s.log[j])
  }

  /** The memo holds what the disassembler would find, so using it changes nothing. */
  lemma {:induction false} MemoIrrelevant(w: World, r: Roots, s: Shared, k: Key)
    requires Sound(w, r, s)
    ensures Opened(w, s, k).rest == if Replaced(w, k.ip).Some? then [Replaced(w, k.ip).value] else Callees(w, k.ip)
    ensures Opened(w, s, k).depth == if Replaced(w, k.ip).Some? then k.depth else k.depth + 1
  {
  }

  lemma {:induction false} OpenedJustified(w: World, r: Roots, s: Shared, k: Key)
    requires Sound(w, r, s) && Reachable(w, r, k)
    ensures Justified(w, r, Opened(w, s, k))
  {
    hide Reachable;
    MemoIrrelevant(w, r, s, k);
    assert [] + Opened(w, s, k).rest == ListOf(w, r, Some(k));
  }

  /** What a reachable source adds is reachable. */
  lemma {:induction false} AddsReachable(w: World, r: Roots, src: Source, k: Key)
    requires Adds(w, r, src, k) && (src.Some? ==> Reachable(w, r, src.value))
    ensures Reachable(w, r, k)
  {
    hide Reachable;
    if src.Some? {
      EdgeReachable(w, r, src.value, k);
    } else {
      RootReachable(w, r, k);
    }
  }

  lemma {:induction false} InitSound(w: World, r: Roots)
    ensures Sound(w, r, Init(r))
  {
    forall t | t in Init(r).tasks
      ensures Justified(w, r, t)
    {
      if t.Start? {
        StartsMember(r.parse, t);
        RootReachable(w, r, t.key);
      } else {
        StartsMember(r.parse, t);
        assert [] + r.extra == r.extra;
      }
    }
  }

  lemma {:induction false} StartsMember(ips: seq<Addr>, t: Task)
    ensures t in Starts(ips) <==> t.Start? && t.key.depth == 0 && t.key.ip in ips
  {
    if ips != [] {
      StartsMember(ips[1..], t);
    }
  }

  lemma {:induction false} FillSound(w: World, r: Roots, s: Shared, ip: Addr, depth: nat)
    requires Sound(w, r, s) && (Traceable(w, ip) ==> Reachable(w, r, Key(ip, depth)))
    ensures Sound(w, r, Fill(w, s, ip, depth))
  {
    hide Reachable;
  }

  lemma {:induction false} ClaimSound(w: World, r: Roots, s: Shared, ip: Addr, depth: nat)
    requires Sound(w, r, s) && (depth <= w.maxDepth && Traceable(w, ip) ==> Reachable(w, r, Key(ip, depth)))
    ensures Sound(w, r, Claim(w, s, ip, depth).0)
    ensures Claim(w, s, ip, depth).1 ==> depth <= w.maxDepth
  {
    hide Reachable;
  }

  lemma {:induction false} SpawnSound(w: World, r: Roots, s: Shared, t: Task)
    requires Sound(w, r, s) && Justified(w, r, t)
    ensures Sound(w, r, Spawn(s, t))
  {
    hide Justified, Reachable;
  }

  lemma {:induction false} RemovedSound(w: World, r: Roots, s: Shared, t: Task)
    requires Sound(w, r, s)
    ensures Sound(w, r, s.(tasks := s.tasks - multiset{t}))
  {
    hide Justified, Reachable;
  }

  lemma {:induction false} AdvancedJustified(w: World, r: Roots, t: Task)
    requires Justified(w, r, t) && t.Adding? && t.rest != []
    ensures Justified(w, r, t.(done := t.done + [t.rest[0]], rest := t.rest[1..], filling := false))
    ensures t.depth <= w.maxDepth ==> Justified(w, r, t.(filling := true))
    ensures t.depth <= w.maxDepth && Traceable(w, t.rest[0]) ==> Reachable(w, r, Key(t.rest[0], t.depth))
  {
    hide Reachable;
    assert t.done + [t.rest[0]] + t.rest[1..] == t.done + t.rest;
    if t.depth <= w.maxDepth && Traceable(w, t.rest[0]) {
      assert t.rest[0] in t.done + t.rest;
      AddsReachable(w, r, t.source, Key(t.rest[0], t.depth));
    }
  }

  lemma {:induction false} NextSound(w: World, r: Roots, split: bool, s: Shared, t: Task)
    requires Sound(w, r, s) && t in s.tasks
    ensures Sound(w, r, Progress(w, split, s, t))
  {
    hide Reachable, Fill, Claim;
    var s0 := s.(tasks := s.tasks - multiset{t});
    assert Justified(w, r, t);
    RemovedSound(w, r, s, t);
    match t
    case Start(k) =>
      if k !in s.parsed {
        OpenedJustified(w, r, s, k);
        BegunSound(w, r, s0, k);
        SpawnSound(w, r, s0.(parsed := s.parsed + {k}, log := s.log + [k]), Opened(w, s, k));
      }
    case Adding(_, _, done, rest, depth, filling) =>
      if rest == [] {
        assert done + [] == done;
      } else {
        hide Sound, Justified;
        AdvancedJustified(w, r, t);
        var after := t.(done := done + [rest[0]], rest := rest[1..], filling := false);
        if filling {
          FillSound(w, r, s0, rest[0], depth);
          SpawnSound(w, r, Fill(w, s0, rest[0], depth), after);
        } else {
          ClaimSound(w, r, s0, rest[0], depth);
          var (s1, claimed) := Claim(w, s0, rest[0], depth);
          if split {
            SpawnSound(w, r, s1, if claimed then t.(filling := true) else after);
          } else {
            if claimed {
              FillSound(w, r, s1, rest[0], depth);
            }
            SpawnSound(w, r, Add(w, s0, rest[0], depth), after);
          }
        }
      }
  }

  lemma {:induction false} BegunSound(w: World, r: Roots, s: Shared, k: Key)
    requires Sound(w, r, s) && Reachable(w, r, k) && k !in s.parsed
    ensures Sound(w, r, s.(parsed := s.parsed + {k}, log := s.log + [k]))
  {
    hide Reachable, Justified;
  }

  /** In every run, even when `add` is interrupted between its halves, only pairs with a call path are
      parsed, and no pair does its work twice. */
  lemma {:induction false} RunSound(w: World, r: Roots, split: bool, schedule: seq<Task>)
    requires After(w, split, Init(r), schedule).Some?
    ensures Sound(w, r, After(w, split, Init(r), schedule).value)
  {
    hide Sound, Progress, Init;
    if schedule == [] {
      InitSound(w, r);
    } else {
      var n := |schedule| - 1;
      RunSound(w, r, split, schedule[..n]);
      NextSound(w, r, split, After(w, split, Init(r), schedule[..n]).value, schedule[n]);
    }
  }

  // Completeness ---------------------------------------------------------------------------------

  /** Between whole additions: a function with a graph entry is filled in unless it is untraceable, and
      the taken names belong to such functions. */
  ghost predicate Settled(w: World, s: Shared) {
    && (forall t :: t in s.tasks && t.Adding? ==> !t.filling)
    && (forall ip :: ip in s.graphs && Traceable(w, ip) ==> s.graphs[ip] != 0)
    && (forall ip :: ip in s.untraceables ==> !Traceable(w, ip))
    && (forall n :: n in s.syms ==> NamedIn(w, s, n))
  }

  ghost predicate NamedIn(w: World, s: Shared, n: string) {
    exists ip :: ip in s.graphs && Traceable(w, ip) && !w.funcs[ip].bpf && w.funcs[ip].name == n
  }

  predicate Queued(s: Shared, k: Key) {
    k in s.parsed || Start(k) in s.tasks
  }

  /** The pair has been parsed, or some pending task will see to it. */
  ghost predicate Covered(s: Shared, k: Key) {
    Queued(s, k) || exists t :: t in s.tasks && t.Adding? && t.depth == k.depth && k.ip in t.rest
  }

  /** Everything a root or a parsed pair leads to is covered. */
  ghost predicate Closed(w: World, r: Roots, s: Shared) {
    && (forall k: Key :: k.depth == 0 && k.ip in r.parse ==> Queued(s, k))
    && (forall k :: IsRoot(w, r, k) ==> Covered(s, k))
    && (forall a, b :: a in s.parsed && Edge(w, a, b) ==> Covered(s, b))
  }

  /** An uninterrupted `add` always spawns a task for a traceable function within the depth: it never
      meets an unfinished placeholder or a taken name. */
  lemma {:induction false} AddSpawns(w: World, s: Shared, ip: Addr, depth: nat)
    requires ValidWorld(w) && Settled(w, s)
    ensures var s' := Add(w, s, ip, depth);
            && Settled(w, s')
            && s.tasks <= s'.tasks && s'.parsed == s.parsed
            && (depth <= w.maxDepth && Traceable(w, ip) ==> Start(Key(ip, depth)) in s'.tasks)
            && (forall t :: t in s'.tasks && t !in s.tasks ==> t.Start?)
  {
    var s1 := Claim(w, s, ip, depth).0;
    if Claim(w, s, ip, depth).1 {
      ClaimedNames(w, s, ip);
      FillSpawns(w, s, s1, ip, depth);
    }
  }

  lemma {:induction false} ClaimedNames(w: World, s: Shared, ip: Addr)
    requires ip !in s.graphs && forall n :: n in s.syms ==> NamedIn(w, s, n)
    ensures forall n :: n in s.syms ==> NamedIn(w, s.(graphs := s.graphs[ip := 0]), n)
  {
    forall n | n in s.syms
      ensures NamedIn(w, s.(graphs := s.graphs[ip := 0]), n)
    {
      assert NamedIn(w, s, n);
      var i :| i in s.graphs && Traceable(w, i) && !w.funcs[i].bpf && w.funcs[i].name == n;
      assert i in s.graphs[ip := 0];
    }
  }

  lemma {:induction false} NameFree(w: World, s: Shared, ip: Addr, n: string)
    requires ValidWorld(w) && Traceable(w, ip) && !w.funcs[ip].bpf && ip !in s.graphs && NamedIn(w, s, n)
    ensures w.funcs[ip].name != n
  {
    var i :| i in s.graphs && Traceable(w, i) && !w.funcs[i].bpf && w.funcs[i].name == n;
    assert i != ip;
  }

  lemma {:induction false} FillSpawns(w: World, s: Shared, s1: Shared, ip: Addr, depth: nat)
    requires ValidWorld(w) && Settled(w, s) && ip !in s.graphs && s1 == s.(graphs := s.graphs[ip := 0])
    requires forall n :: n in s.syms ==> NamedIn(w, s1, n)
    ensures var s' := Fill(w, s1, ip, depth);
            && Settled(w, s')
            && s'.parsed == s.parsed
            && s'.tasks == if Traceable(w, ip) then s.tasks + multiset{Start(Key(ip, depth))} else s.tasks
  {
    var s' := Fill(w, s1, ip, depth);
    if Traceable(w, ip) {
      var f := w.funcs[ip];
      forall n | NamedIn(w, s, n) && !f.bpf
        ensures f.name != n
      {
        NameFree(w, s, ip, n);
      }
      forall n | n in s'.syms
        ensures NamedIn(w, s', n)
      {
        if n in s.syms {
          assert NamedIn(w, s, n);
          var i :| i in s.graphs && Traceable(w, i) && !w.funcs[i].bpf && w.funcs[i].name == n;
          assert i in s'.graphs;
        } else {
          assert ip in s'.graphs;
        }
      }
    } else {
      forall n | n in s'.syms
        ensures NamedIn(w, s', n)
      {
        assert NamedIn(w, s1, n);
      }
    }
  }

  lemma {:induction false} SpawnSettled(w: World, s: Shared, t: Task)
    requires Settled(w, s) && (t.Adding? ==> !t.filling)
    ensures Settled(w, Spawn(s, t))
  {
    NamesSame(w, s, Spawn(s, t));
  }

  /** Names are settled by the graph entries alone. */
  lemma {:induction false} NamesSame(w: World, s: Shared, s': Shared)
    requires s.graphs == s'.graphs && s.syms == s'.syms && forall n :: n in s.syms ==> NamedIn(w, s, n)
    ensures forall n :: n in s'.syms ==> NamedIn(w, s', n)
  {
    forall n | n in s'.syms
      ensures NamedIn(w, s', n)
    {
      assert NamedIn(w, s, n);
    }
  }

  lemma {:induction false} NextSettled(w: World, r: Roots, s: Shared, t: Task)
    requires ValidWorld(w) && Settled(w, s) && t in s.tasks
    ensures Settled(w, Progress(w, false, s, t))
  {
    hide ValidWorld;
    var s0 := s.(tasks := s.tasks - multiset{t});
    NamesSame(w, s, s0);
    match t
    case Start(k) =>
      if k !in s.parsed {
        var s1 := s0.(parsed := s.parsed + {k}, log := s.log + [k]);
        NamesSame(w, s, s1);
        SpawnSettled(w, s1, Opened(w, s, k));
      }
    case Adding(_, _, done, rest, depth, _) =>
      if rest == [] {
        NamesSame(w, s, Progress(w, false, s, t));
      } else {
        AddSpawns(w, s0, rest[0], depth);
        SpawnSettled(w, Add(w, s0, rest[0], depth), t.(done := done + [rest[0]], rest := rest[1..], filling := false));
      }
  }

  lemma {:induction false} NextQueued(w: World, s: Shared, t: Task, k: Key)
    requires ValidWorld(w) && Settled(w, s) && t in s.tasks && Queued(s, k)
    ensures Queued(Progress(w, false, s, t), k)
  {
    hide ValidWorld, Settled, Add, Opened;
    AssertAdding(w, s, t);
    if t.Adding? && t.rest != [] {
      RemovedSettled(w, s, t);
      AddSpawns(w, s.(tasks := s.tasks - multiset{t}), t.rest[0], t.depth);
    }
  }

  lemma {:induction false} RemovedSettled(w: World, s: Shared, t: Task)
    requires Settled(w, s)
    ensures Settled(w, s.(tasks := s.tasks - multiset{t}))
  {
    NamesSame(w, s, s.(tasks := s.tasks - multiset{t}));
  }

  /** What is covered stays covered, whichever task runs next. */
  lemma {:induction false} NextCovered(w: World, s: Shared, t: Task, k: Key)
    requires ValidWorld(w) && Settled(w, s) && t in s.tasks
    requires Covered(s, k) && k.depth <= w.maxDepth && Traceable(w, k.ip)
    ensures Covered(Progress(w, false, s, t), k)
  {
    hide ValidWorld, Settled, Add, Opened;
    var s' := Progress(w, false, s, t);
    if Queued(s, k) {
      NextQueued(w, s, t, k);
    } else {
      var u :| u in s.tasks && u.Adding? && u.depth == k.depth && k.ip in u.rest;
      AssertAdding(w, s, t);
      if u != t {
        Others(w, s, t, u);
        assert u in s'.tasks;
      } else {
        RemovedSettled(w, s, t);
        AddSpawns(w, s.(tasks := s.tasks - multiset{t}), t.rest[0], t.depth);
        if k.ip != t.rest[0] {
          var after := t.(done := t.done + [t.rest[0]], rest := t.rest[1..], filling := false);
          assert after in s'.tasks && k.ip in after.rest;
        }
      }
    }
  }

  lemma {:induction false} AssertAdding(w: World, s: Shared, t: Task)
    requires Settled(w, s) && t in s.tasks
    ensures t.Adding? ==> !t.filling
  {
  }

  lemma {:induction false} Others(w: World, s: Shared, t: Task, u: Task)
    requires ValidWorld(w) && Settled(w, s) && t in s.tasks && u in s.tasks && u != t
    ensures u in Progress(w, false, s, t).tasks
  {
    hide ValidWorld, Add, Opened;
    if t.Adding? && t.rest != [] {
      RemovedSettled(w, s, t);
      AddSpawns(w, s.(tasks := s.tasks - multiset{t}), t.rest[0], t.depth);
    }
  }

  lemma {:induction false} NextClosed(w: World, r: Roots, s: Shared, t: Task)
    requires ValidWorld(w) && Sound(w, r, s) && Settled(w, s) && Closed(w, r, s) && t in s.tasks
    ensures Closed(w, r, Progress(w, false, s, t))
  {
    hide ValidWorld, Settled, Covered, Queued, Opened, Add;
    var s' := Progress(w, false, s, t);
    forall k: Key | k.depth == 0 && k.ip in r.parse
      ensures Queued(s', k)
    {
      NextQueued(w, s, t, k);
    }
    forall k | IsRoot(w, r, k)
      ensures Covered(s', k)
    {
      RootCovered(w, r, s, t, k);
    }
    forall a, b | a in s'.parsed && Edge(w, a, b)
      ensures Covered(s', b)
    {
      ParsedNext(w, s, t);
      if a in s.parsed {
        NextCovered(w, s, t, b);
      } else {
        assert t == Start(a);
        BegunCovered(w, r, s, a, b);
      }
    }
  }

  lemma {:induction false} RootCovered(w: World, r: Roots, s: Shared, t: Task, k: Key)
    requires ValidWorld(w) && Settled(w, s) && Closed(w, r, s) && t in s.tasks && IsRoot(w, r, k)
    ensures Covered(Progress(w, false, s, t), k)
  {
    hide ValidWorld, Settled, Progress;
    if k.depth == 0 && k.ip in r.parse {
      NextQueued(w, s, t, k);
    } else {
      NextCovered(w, s, t, k);
    }
  }

  lemma {:induction false} ParsedNext(w: World, s: Shared, t: Task)
    ensures Progress(w, false, s, t).parsed == if t.Start? && t.key !in s.parsed then s.parsed + {t.key} else
                                           if t.Adding? && t.rest != [] then Progress(w, false, s, t).parsed else s.parsed
    ensures t.Adding? ==> Progress(w, false, s, t).parsed == s.parsed
  {
  }

  /** A pair that begins its work covers all it leads to. */
  lemma {:induction false} BegunCovered(w: World, r: Roots, s: Shared, a: Key, b: Key)
    requires Sound(w, r, s) && Start(a) in s.tasks && a !in s.parsed && Edge(w, a, b)
    ensures Covered(Progress(w, false, s, Start(a)), b)
  {
    MemoIrrelevant(w, r, s, a);
    hide Sound;
    var u := Opened(w, s, a);
    assert u in Progress(w, false, s, Start(a)).tasks;
    assert u.Adding? && u.depth == b.depth && b.ip in u.rest;
  }

  lemma {:induction false} InitSettled(w: World, r: Roots)
    ensures Settled(w, Init(r)) && Closed(w, r, Init(r))
  {
    var s := Init(r);
    forall t | t in s.tasks
      ensures t.Adding? ==> !t.filling
    {
      StartsMember(r.parse, t);
    }
    forall k: Key | k.depth == 0 && k.ip in r.parse
      ensures Queued(s, k)
    {
      StartsMember(r.parse, Start(k));
    }
    forall k | IsRoot(w, r, k)
      ensures Covered(s, k)
    {
      if k.depth == 1 {
        assert Adding(None, false, [], r.extra, 1, false) in s.tasks;
      }
    }
  }

  lemma {:induction false} RunClosed(w: World, r: Roots, schedule: seq<Task>)
    requires ValidWorld(w) && After(w, false, Init(r), schedule).Some?
    ensures var s := After(w, false, Init(r), schedule).value; Settled(w, s) && Closed(w, r, s)
  {
    hide ValidWorld, Sound, Settled, Closed, Progress, Init;
    if schedule == [] {
      InitSettled(w, r);
    } else {
      var n := |schedule| - 1;
      var s := After(w, false, Init(r), schedule[..n]).value;
      RunSound(w, r, false, schedule[..n]);
      RunClosed(w, r, schedule[..n]);
      NextSettled(w, r, s, schedule[n]);
      NextClosed(w, r, s, schedule[n]);
    }
  }

  lemma {:induction false} PathParsed(w: World, r: Roots, s: Shared, path: seq<Key>, n: nat)
    requires Closed(w, r, s) && s.tasks == multiset{} && IsPath(w, r, path) && n < |path|
    ensures path[n] in s.parsed
  {
    if n == 0 {
      assert Covered(s, path[0]);
    } else {
      PathParsed(w, r, s, path, n - 1);
      assert Edge(w, path[n - 1], path[n]);
      assert Covered(s, path[n]);
    }
  }

  /** Confluence: whatever the order in which the tasks ran, a run that has come to its end has parsed
      exactly the pairs with a call path, each of them once. */
  lemma {:induction false} DiscoveryConfluent(w: World, r: Roots, schedule: seq<Task>, k: Key)
    requires ValidWorld(w) && After(w, false, Init(r), schedule).Some?
    requires After(w, false, Init(r), schedule).value.tasks == multiset{}
    ensures k in After(w, false, Init(r), schedule).value.parsed <==> Reachable(w, r, k)
    ensures k in After(w, false, Init(r), schedule).value.log <==> Reachable(w, r, k)
  {
    hide ValidWorld, Closed, Settled;
    var s := After(w, false, Init(r), schedule).value;
    RunSound(w, r, false, schedule);
    RunClosed(w, r, schedule);
    if Reachable(w, r, k) {
      var path :| IsPath(w, r, path) && path[|path| - 1] == k;
      PathParsed(w, r, s, path, |path| - 1);
    }
  }

  // Termination ----------------------------------------------------------------------------------

  /** All pairs that can ever be parsed. */
  ghost function Universe(w: World, r: Roots): set<Key> {
    set ip, d: nat | ip in w.funcs.Keys + (set a | a in r.parse) && d <= w.maxDepth :: Key(ip, d)
  }

  lemma {:induction false} ReachableInUniverse(w: World, r: Roots, k: Key)
    requires Reachable(w, r, k)
    ensures k in Universe(w, r)
  {
    var path :| IsPath(w, r, path) && path[|path| - 1] == k;
    if |path| > 1 {
      assert Edge(w, path[|path| - 2], path[|path| - 1]);
    }
  }

  function Weight(t: Task): nat {
    match t
    case Start(_) => 1
    case Adding(_, _, _, rest, _, filling) => 3 * |rest| + (if filling then 1 else 2)
  }

  ghost function Pick(m: multiset<Task>): (t: Task)
    requires m != multiset{}
    ensures t in m
  {
    var t :| t in m;
    t
  }

  ghost function TotalWeight(m: multiset<Task>): nat {
    if m == multiset{} then 0 else Weight(Pick(m)) + TotalWeight(m - multiset{Pick(m)})
  }

  lemma {:induction false} WeightPlus(m: multiset<Task>, t: Task)
    ensures TotalWeight(m + multiset{t}) == TotalWeight(m) + Weight(t)
    decreases |m|
  {
    var m' := m + multiset{t};
    var u := Pick(m');
    if u == t {
      assert m' - multiset{u} == m;
    } else {
      var less := m - multiset{u};
      assert m' - multiset{u} == less + multiset{t} && m == less + multiset{u};
      WeightPlus(less, t);
      WeightPlus(less, u);
    }
  }

  lemma {:induction false} WeightMinus(m: multiset<Task>, t: Task)
    requires t in m
    ensures TotalWeight(m - multiset{t}) + Weight(t) == TotalWeight(m)
  {
    WeightPlus(m - multiset{t}, t);
    assert m - multiset{t} + multiset{t} == m;
  }

  /** Fewer pairs left to parse, or as many and less work pending. */
  ghost predicate Lower(w: World, r: Roots, s: Shared, s': Shared) {
    || |Universe(w, r) - s'.parsed| < |Universe(w, r) - s.parsed|
    || (s'.parsed == s.parsed && TotalWeight(s'.tasks) < TotalWeight(s.tasks))
  }

  lemma {:induction false} AddWeight(w: World, s: Shared, ip: Addr, depth: nat)
    ensures Add(w, s, ip, depth).parsed == s.parsed
    ensures TotalWeight(Add(w, s, ip, depth).tasks) <= TotalWeight(s.tasks) + 1
    ensures TotalWeight(Claim(w, s, ip, depth).0.tasks) <= TotalWeight(s.tasks) + 1
    ensures Claim(w, s, ip, depth).1 ==> Claim(w, s, ip, depth).0.tasks == s.tasks
    ensures TotalWeight(Fill(w, s, ip, depth).tasks) <= TotalWeight(s.tasks) + 1
    ensures Fill(w, s, ip, depth).parsed == s.parsed == Claim(w, s, ip, depth).0.parsed
  {
    hide TotalWeight;
    WeightPlus(s.tasks, Start(Key(ip, depth)));
  }

  /** Every step of every task lowers the rank, so no run goes on for ever. */
  lemma {:induction false} NextLower(w: World, r: Roots, split: bool, s: Shared, t: Task)
    requires Sound(w, r, s) && t in s.tasks
    ensures Lower(w, r, s, Progress(w, split, s, t))
  {
    hide TotalWeight, Reachable, Universe, Add, Claim, Fill, Opened;
    WeightMinus(s.tasks, t);
    match t
    case Start(k) =>
      if k !in s.parsed {
        assert Justified(w, r, t);
        ReachableInUniverse(w, r, k);
        OneLess(Universe(w, r), s.parsed, k);
      }
    case Adding(_, _, _, rest, _, _) =>
      if rest != [] {
        assert Justified(w, r, t);
        AddingLighter(w, split, s, t);
      }
  }

  lemma {:induction false} OneLess(all: set<Key>, parsed: set<Key>, k: Key)
    requires k in all && k !in parsed
    ensures |all - (parsed + {k})| < |all - parsed|
  {
    assert all - (parsed + {k}) == (all - parsed) - {k};
  }

  lemma {:induction false} AddingLighter(w: World, split: bool, s: Shared, t: Task)
    requires t in s.tasks && t.Adding? && t.rest != []
    ensures var s' := Progress(w, split, s, t); s'.parsed == s.parsed && TotalWeight(s'.tasks) < TotalWeight(s.tasks)
  {
    hide TotalWeight, Add, Claim, Fill;
    var s0 := s.(tasks := s.tasks - multiset{t});
    var ip, depth := t.rest[0], t.depth;
    var after := t.(done := t.done + [ip], rest := t.rest[1..], filling := false);
    WeightMinus(s.tasks, t);
    AddWeight(w, s0, ip, depth);
    WeightPlus(Fill(w, s0, ip, depth).tasks, after);
    WeightPlus(Add(w, s0, ip, depth).tasks, after);
    WeightPlus(Claim(w, s0, ip, depth).0.tasks, after);
    WeightPlus(Claim(w, s0, ip, depth).0.tasks, t.(filling := true));
  }
}
