/** The frame-pointer walk that looks for the session of a traced function: one loop with a small
    budget, or ten tail-called rounds of a hundred frames that go on from a shared record. */
module StackWalk {
  import opened Words
  import opened Machine

  /** A stack frame: the next frame pointer and the return address. An unreadable frame is zeros. */
  datatype StackFrame = StackFrame(next: u64, ip: u64)

  /** What the walk looks at: frames in memory, sessions by frame pointer, addresses of tracees. */
  datatype Env = Env(frames: map<u64, StackFrame>, sessions: map<u64, u64>, tracees: set<u64>)

  function FrameAt(env: Env, fp: u64): StackFrame {
    if fp in env.frames then env.frames[fp] else StackFrame(0, 0)
  }

  /** A frame whose return address is in a tracee belongs to a trampoline and does not count. */
  predicate IsTrampoline(env: Env, fp: u64) {
    FrameAt(env, fp).ip in env.tracees
  }

  datatype Walk = Found(sess: u64, depth: int) | TooDeep(depth: int) | Unfinished(fp: u64, depth: int)

  /** The walk over at most `n` frames. */
  function WalkFrames(env: Env, fp: u64, depth: int, maxDepth: int, n: nat): Walk
    decreases n
  {
    if n == 0 then Unfinished(fp, depth)
    else
      var f := FrameAt(env, fp);
      if f.next in env.sessions then Found(env.sessions[f.next], depth)
      else if f.ip in env.tracees then WalkFrames(env, f.next, depth, maxDepth, n - 1)
      else if depth + 1 > maxDepth then TooDeep(depth + 1)
      else WalkFrames(env, f.next, depth + 1, maxDepth, n - 1)
  }

  // The loops ------------------------------------------------------------------------------------

  /** The per-CPU record that the rounds share. */
  class TailCallData {
    var fp: u64
    var depth: int
    var maxDepth: int
    var sess: u64
    var found: bool
    var ooDepth: bool

    constructor ()
    {
      fp, depth, maxDepth, sess, found, ooDepth := 0, 0, 0, 0, false, false;
    }

    /** The record says how far the walk has come. */
    ghost predicate Holds(w: Walk)
      reads this
    {
      match w
      case Found(s, d) => found && sess == s && depth == d
      case TooDeep(d) => !found && ooDepth && depth == d
      case Unfinished(f, d) => !found && !ooDepth && fp == f && depth == d
    }

    /** One tail-called round: at most a hundred frames, from where the last round stopped. */
    method TailCallee(env: Env)
      requires !found && !ooDepth
      modifies this
      ensures maxDepth == old(maxDepth)
      ensures Holds(WalkFrames(env, old(fp), old(depth), maxDepth, 100))
    {
      var cur := fp;
      var i := 0;
      while i < 100
        invariant 0 <= i <= 100 && !found && !ooDepth && fp == cur && maxDepth == old(maxDepth)
        invariant WalkFrames(env, old(fp), old(depth), maxDepth, 100) == WalkFrames(env, cur, depth, maxDepth, 100 - i)
      {
        var buff := FrameAt(env, cur);
        if buff.next in env.sessions {
          sess := env.sessions[buff.next];
          found := true;
          return;
        }
        if buff.ip !in env.tracees {
          depth := depth + 1;
          if depth > maxDepth {
            ooDepth := true;
            return;
          }
        }
        cur := buff.next;
        fp := cur;
        i := i + 1;
      }
    }

    /** Ten rounds; a session with its depth, or nothing. */
    method TryGetSession(env: Env, callerFp: u64, cfgMaxDepth: u64) returns (res: Option<(u64, int)>)
      modifies this
      ensures res == SessionOf(WalkFrames(env, callerFp, 0, Int32(cfgMaxDepth), 1000))
      ensures forall s: u64, d :: res == Some((s, d)) <==> Finds(env, callerFp, Int32(cfgMaxDepth), 1000, s, d)
    {
      forall s: u64, d
        ensures SessionOf(WalkFrames(env, callerFp, 0, Int32(cfgMaxDepth), 1000)) == Some((s, d)) <==>
                Finds(env, callerFp, Int32(cfgMaxDepth), 1000, s, d)
      {
        FindsIff(env, callerFp, Int32(cfgMaxDepth), 1000, s, d);
      }
      fp, depth, maxDepth, sess, found, ooDepth := callerFp, 0, Int32(cfgMaxDepth), 0, false, false;
      var i := 0;
      while i < 10
        invariant 0 <= i <= 10 && !found && !ooDepth && maxDepth == Int32(cfgMaxDepth)
        invariant WalkFrames(env, callerFp, 0, maxDepth, 1000) == WalkFrames(env, fp, depth, maxDepth, 1000 - 100 * i)
      {
        WalkSplits(env, fp, depth, maxDepth, 100, 900 - 100 * i);
        TailCallee(env);
        if found {
          return Some((sess, depth));
        }
        if ooDepth {
          return None;
        }
        i := i + 1;
      }
      return None;
    }
  }

  function SessionOf(w: Walk): Option<(u64, int)> {
    if w.Found? then Some((w.sess, w.depth)) else None
  }

  /** Without tail calls: small depths only, and two frames for each level. */
  method TryGetSessionLimited(env: Env, callerFp: u64, maxDepth: nat) returns (res: Option<(u64, int)>)
    ensures maxDepth > 10 ==> res == None
    ensures maxDepth <= 10 ==> res == SessionOf(WalkFrames(env, callerFp, 0, maxDepth, maxDepth * 2))
    ensures maxDepth <= 10 ==> forall s: u64, d :: res == Some((s, d)) <==> Finds(env, callerFp, maxDepth, maxDepth * 2, s, d)
  {
    forall s: u64, d
      ensures SessionOf(WalkFrames(env, callerFp, 0, maxDepth, maxDepth * 2)) == Some((s, d)) <==>
              Finds(env, callerFp, maxDepth, maxDepth * 2, s, d)
    {
      FindsIff(env, callerFp, maxDepth, maxDepth * 2, s, d);
    }
    if maxDepth > 10 {
      return None;
    }
    var fp := callerFp;
    var depth := 0;
    var maxTries := maxDepth * 2;
    var i := 0;
    while i < maxTries
      invariant 0 <= i <= maxTries
      invariant WalkFrames(env, callerFp, 0, maxDepth, maxTries) == WalkFrames(env, fp, depth, maxDepth, maxTries - i)
    {
      var buff := FrameAt(env, fp);
      if buff.next in env.sessions {
        return Some((env.sessions[buff.next], depth));
      }
      if buff.ip !in env.tracees {
        depth := depth + 1;
        if depth > maxDepth {
          break;
        }
      }
      fp := buff.next;
      i := i + 1;
    }
    return None;
  }

  // What a walk finds ----------------------------------------------------------------------------

  /** The frame pointer that is saved in a frame. */
  function Saved(env: Env, fp: u64): u64 {
    if fp in env.frames then env.frames[fp].next else 0
  }

  /** The frame pointers from `fp` on. */
  function Pointer(env: Env, fp: u64, k: nat): u64 {
    if k == 0 then fp else Saved(env, Pointer(env, fp, k - 1))
  }

  /** A frame that does not return into a tracee counts; an unreadable one returns to 0. */
  predicate Counts(env: Env, fp: u64) {
    (if fp in env.frames then env.frames[fp].ip else 0) !in env.tracees
  }

  /** How many of the first `k` frames count. */
  function Level(env: Env, fp: u64, k: nat): nat {
    if k == 0 then 0 else Level(env, fp, k - 1) + (if Counts(env, Pointer(env, fp, k - 1)) then 1 else 0)
  }

  /** None of the first `k` frames saves a pointer that has a session. */
  predicate NoSession(env: Env, fp: u64, k: nat) {
    forall j :: 0 <= j < k ==> Saved(env, Pointer(env, fp, j)) !in env.sessions
  }

  /** A walk that has counted `depth` frames and then the first `k` from `fp` on may go on; the frames before
      the first one that counts are always looked at. */
  predicate Within(env: Env, fp: u64, depth: int, maxDepth: int, k: nat) {
    Level(env, fp, k) == 0 || depth + Level(env, fp, k) <= maxDepth
  }

  predicate FoundAt(env: Env, fp: u64, depth: int, maxDepth: int, k: nat, s: u64, d: int) {
    && NoSession(env, fp, k) && Saved(env, Pointer(env, fp, k)) in env.sessions
    && env.sessions[Saved(env, Pointer(env, fp, k))] == s
    && d == depth + Level(env, fp, k) && Within(env, fp, depth, maxDepth, k)
  }

  predicate DeepAt(env: Env, fp: u64, depth: int, maxDepth: int, k: nat, d: int) {
    && NoSession(env, fp, k + 1) && Within(env, fp, depth, maxDepth, k) && Counts(env, Pointer(env, fp, k))
    && d == depth + Level(env, fp, k) + 1 > maxDepth
  }

  /** A walk over n frames, told from the chain of frame pointers: it finds the session of the first of them
      that saves a pointer with one, if the frames before it that count are none or no more than allowed; it
      is too deep at the first frame that counts one too many; otherwise it is still under way. */
  ghost predicate IsWalk(env: Env, fp: u64, depth: int, maxDepth: int, n: nat, w: Walk) {
    match w
    case Found(s, d) => exists k: nat :: k < n && FoundAt(env, fp, depth, maxDepth, k, s, d)
    case TooDeep(d) => exists k: nat :: k < n && DeepAt(env, fp, depth, maxDepth, k, d)
    case Unfinished(f, d) =>
      NoSession(env, fp, n) && Within(env, fp, depth, maxDepth, n) && f == Pointer(env, fp, n) && d == depth + Level(env, fp, n)
  }

  lemma {:induction false} PointerShift(env: Env, fp: u64, k: nat)
    ensures Pointer(env, Saved(env, fp), k) == Pointer(env, fp, k + 1)
    ensures Level(env, fp, k + 1) == (if Counts(env, fp) then 1 else 0) + Level(env, Saved(env, fp), k)
  {
    if k > 0 {
      PointerShift(env, fp, k - 1);
    }
  }

  lemma {:induction false} NoSessionShift(env: Env, fp: u64, k: nat)
    ensures NoSession(env, fp, k + 1) <==> Saved(env, fp) !in env.sessions && NoSession(env, Saved(env, fp), k)
  {
    forall j: nat
      ensures Pointer(env, Saved(env, fp), j) == Pointer(env, fp, j + 1)
    {
      PointerShift(env, fp, j);
    }
    assert Pointer(env, fp, 0) == fp;
    if Saved(env, fp) !in env.sessions && NoSession(env, Saved(env, fp), k) {
      forall j | 0 <= j < k + 1
        ensures Saved(env, Pointer(env, fp, j)) !in env.sessions
      {
        if j > 0 {
          assert Pointer(env, Saved(env, fp), j - 1) == Pointer(env, fp, j);
        }
      }
    }
  }

  /** The walk is what the chain of frame pointers says. */
  lemma {:induction false} WalkMeans(env: Env, fp: u64, depth: int, maxDepth: int, n: nat)
    ensures IsWalk(env, fp, depth, maxDepth, n, WalkFrames(env, fp, depth, maxDepth, n))
    decreases n
  {
    if n > 0 {
      var next := Saved(env, fp);
      assert Pointer(env, fp, 0) == fp && Pointer(env, fp, 1) == next;
      if next in env.sessions {
        assert FoundAt(env, fp, depth, maxDepth, 0, env.sessions[next], depth);
      } else if Counts(env, fp) && depth + 1 > maxDepth {
        assert DeepAt(env, fp, depth, maxDepth, 0, depth + 1);
      } else {
        var depth' := if Counts(env, fp) then depth + 1 else depth;
        WalkMeans(env, next, depth', maxDepth, n - 1);
        WalkLonger(env, fp, depth, maxDepth, n, WalkFrames(env, next, depth', maxDepth, n - 1));
      }
    }
  }

  lemma {:induction false} WalkLonger(env: Env, fp: u64, depth: int, maxDepth: int, n: nat, w: Walk)
    requires n > 0 && Saved(env, fp) !in env.sessions && !(Counts(env, fp) && depth + 1 > maxDepth)
    requires IsWalk(env, Saved(env, fp), if Counts(env, fp) then depth + 1 else depth, maxDepth, n - 1, w)
    ensures IsWalk(env, fp, depth, maxDepth, n, w)
  {
    var next, depth' := Saved(env, fp), if Counts(env, fp) then depth + 1 else depth;
    match w
    case Found(s, d) =>
      var k: nat :| k < n - 1 && FoundAt(env, next, depth', maxDepth, k, s, d);
      PointerShift(env, fp, k);
      PointerShift(env, fp, k + 1);
      NoSessionShift(env, fp, k);
      assert FoundAt(env, fp, depth, maxDepth, k + 1, s, d);
    case TooDeep(d) =>
      var k: nat :| k < n - 1 && DeepAt(env, next, depth', maxDepth, k, d);
      PointerShift(env, fp, k);
      NoSessionShift(env, fp, k + 1);
      assert DeepAt(env, fp, depth, maxDepth, k + 1, d);
    case Unfinished(_, _) =>
      PointerShift(env, fp, n - 1);
      NoSessionShift(env, fp, n - 1);
  }

  lemma {:induction false} LevelGrows(env: Env, fp: u64, k: nat, m: nat)
    requires k < m
    ensures Level(env, fp, k) + (if Counts(env, Pointer(env, fp, k)) then 1 else 0) <= Level(env, fp, m)
  {
    if k < m - 1 {
      LevelGrows(env, fp, k, m - 1);
    }
  }

  /** Behind the frame that counts one too many no walk may go on. */
  lemma {:induction false} DeepStops(env: Env, fp: u64, depth: int, maxDepth: int, k: nat, m: nat, d: int)
    requires DeepAt(env, fp, depth, maxDepth, k, d) && k < m
    ensures !Within(env, fp, depth, maxDepth, m)
  {
    LevelGrows(env, fp, k, m);
  }

  /** The chain decides the outcome: no two outcomes fit it. */
  lemma {:induction false} OneWalk(env: Env, fp: u64, depth: int, maxDepth: int, n: nat, v: Walk, w: Walk)
    requires IsWalk(env, fp, depth, maxDepth, n, v) && IsWalk(env, fp, depth, maxDepth, n, w)
    ensures v == w
  {
    hide Level, Pointer, Within;
    match (v, w)
    case (Found(s, d), Found(s', d')) =>
      var k: nat :| k < n && FoundAt(env, fp, depth, maxDepth, k, s, d);
      var m: nat :| m < n && FoundAt(env, fp, depth, maxDepth, m, s', d');
      assert k == m;
    case (TooDeep(d), TooDeep(d')) =>
      var k: nat :| k < n && DeepAt(env, fp, depth, maxDepth, k, d);
      var m: nat :| m < n && DeepAt(env, fp, depth, maxDepth, m, d');
      if k < m {
        DeepStops(env, fp, depth, maxDepth, k, m, d);
      } else if m < k {
        DeepStops(env, fp, depth, maxDepth, m, k, d');
      }
    case (Found(_, _), TooDeep(_)) => FoundNotDeep(env, fp, depth, maxDepth, n, v, w);
    case (TooDeep(_), Found(_, _)) => FoundNotDeep(env, fp, depth, maxDepth, n, w, v);
    case (TooDeep(d), Unfinished(_, _)) => DeepNotUnfinished(env, fp, depth, maxDepth, n, v, w);
    case (Unfinished(_, _), TooDeep(d)) => DeepNotUnfinished(env, fp, depth, maxDepth, n, w, v);
    case _ =>
  }

  lemma {:induction false} FoundNotDeep(env: Env, fp: u64, depth: int, maxDepth: int, n: nat, v: Walk, w: Walk)
    requires v.Found? && w.TooDeep? && IsWalk(env, fp, depth, maxDepth, n, v)
    ensures !IsWalk(env, fp, depth, maxDepth, n, w)
  {
    hide Level, Pointer, Within;
    if IsWalk(env, fp, depth, maxDepth, n, w) {
      var k: nat :| k < n && FoundAt(env, fp, depth, maxDepth, k, v.sess, v.depth);
      var m: nat :| m < n && DeepAt(env, fp, depth, maxDepth, m, w.depth);
      DeepStops(env, fp, depth, maxDepth, m, k, w.depth);
    }
  }

  lemma {:induction false} DeepNotUnfinished(env: Env, fp: u64, depth: int, maxDepth: int, n: nat, v: Walk, w: Walk)
    requires v.TooDeep? && w.Unfinished? && IsWalk(env, fp, depth, maxDepth, n, v)
    ensures !IsWalk(env, fp, depth, maxDepth, n, w)
  {
    hide Level, Pointer, Within;
    var k: nat :| k < n && DeepAt(env, fp, depth, maxDepth, k, v.depth);
    DeepStops(env, fp, depth, maxDepth, k, n, v.depth);
  }

  /** Among the first `n` frames from `fp` on, the first with a session has that one, at that depth. */
  ghost predicate Finds(env: Env, fp: u64, maxDepth: int, n: nat, s: u64, d: int) {
    exists k: nat :: k < n && FoundAt(env, fp, 0, maxDepth, k, s, d)
  }

  /** A walk finds a session at a depth if and only if the chain of frame pointers has it there. */
  lemma {:induction false} FindsIff(env: Env, fp: u64, maxDepth: int, n: nat, s: u64, d: int)
    ensures SessionOf(WalkFrames(env, fp, 0, maxDepth, n)) == Some((s, d)) <==> Finds(env, fp, maxDepth, n, s, d)
  {
    var w := WalkFrames(env, fp, 0, maxDepth, n);
    WalkMeans(env, fp, 0, maxDepth, n);
    if IsWalk(env, fp, 0, maxDepth, n, Found(s, d)) {
      OneWalk(env, fp, 0, maxDepth, n, w, Found(s, d));
    }
  }

  // Properties -----------------------------------------------------------------------------------

  /** A walk over more frames goes on where a shorter one has stopped, so rounds of any size compute
      what one long loop computes. */
  lemma {:induction false} WalkSplits(env: Env, fp: u64, depth: int, maxDepth: int, m: nat, n: nat)
    ensures WalkFrames(env, fp, depth, maxDepth, m + n) ==
            match WalkFrames(env, fp, depth, maxDepth, m)
            case Unfinished(f, d) => WalkFrames(env, f, d, maxDepth, n)
            case w => w
    decreases m
  {
    if m > 0 {
      var f := FrameAt(env, fp);
      if f.next !in env.sessions {
        if f.ip in env.tracees {
          WalkSplits(env, f.next, depth, maxDepth, m - 1, n);
        } else if depth + 1 <= maxDepth {
          WalkSplits(env, f.next, depth + 1, maxDepth, m - 1, n);
        }
      }
    }
  }

  /** What the limited walk finds, the tail-call walk finds at the same depth. */
  lemma {:induction false} LimitedFindsSame(env: Env, fp: u64, maxDepth: nat)
    requires maxDepth <= 10
    requires SessionOf(WalkFrames(env, fp, 0, maxDepth, maxDepth * 2)).Some?
    ensures Int32(maxDepth) == maxDepth
    ensures SessionOf(WalkFrames(env, fp, 0, Int32(maxDepth), 1000)) == SessionOf(WalkFrames(env, fp, 0, maxDepth, maxDepth * 2))
  {
    WalkSplits(env, fp, 0, maxDepth, maxDepth * 2, 1000 - maxDepth * 2);
  }

  /** A session is never reported below the largest depth. */
  lemma {:induction false} DepthBounded(env: Env, fp: u64, depth: int, maxDepth: int, n: nat)
    requires depth <= maxDepth || depth == 0
    ensures match WalkFrames(env, fp, depth, maxDepth, n)
            case Found(_, d) => depth <= d && (d <= maxDepth || d == 0)
            case TooDeep(d) => d > maxDepth
            case Unfinished(_, d) => depth <= d && (d <= maxDepth || d == 0)
    decreases n
  {
    if n > 0 {
      var f := FrameAt(env, fp);
      if f.next !in env.sessions {
        if f.ip in env.tracees {
          DepthBounded(env, f.next, depth, maxDepth, n - 1);
        } else if depth + 1 <= maxDepth {
          DepthBounded(env, f.next, depth + 1, maxDepth, n - 1);
        }
      }
    }
  }

  /** A trampoline frame is never followed by another one. */
  ghost predicate NoTwoTrampolines(env: Env) {
    forall fp: u64 {:trigger IsTrampoline(env, fp)} :: IsTrampoline(env, fp) ==> !IsTrampoline(env, FrameAt(env, fp).next)
  }

  /** Two frames count at least one level, so twice as many frames as levels left decide the walk; one
      less is enough behind a trampoline frame. */
  lemma {:induction false} Decides(env: Env, fp: u64, depth: int, maxDepth: int, n: nat)
    requires NoTwoTrampolines(env) && depth <= maxDepth
    requires n >= 2 * (maxDepth + 1 - depth) || (!IsTrampoline(env, fp) && n >= 2 * (maxDepth + 1 - depth) - 1)
    ensures !WalkFrames(env, fp, depth, maxDepth, n).Unfinished?
    decreases n
  {
    var f := FrameAt(env, fp);
    if f.next !in env.sessions {
      if IsTrampoline(env, fp) {
        Decides(env, f.next, depth, maxDepth, n - 1);
      } else if depth + 1 <= maxDepth {
        Decides(env, f.next, depth + 1, maxDepth, n - 1);
      }
    }
  }

  /** A stack of alternating trampoline and ordinary frames. */
  function Alternating(n: nat, sessions: map<u64, u64>): Env
    requires n < TWO64
  {
    Env(map i: u64 | 0 <= i < n :: StackFrame(i + 1, if i % 2 == 0 then 1 else 2), sessions, {1})
  }

  lemma {:induction false} AlternatingWalk(n: nat, sessions: map<u64, u64>, i: u64, maxDepth: int, k: nat)
    requires i + k <= n < TWO64 && maxDepth >= (i + k) / 2
    requires forall a :: a in sessions ==> !(i < a <= i + k)
    ensures WalkFrames(Alternating(n, sessions), i, i / 2, maxDepth, k) == Unfinished(i + k, (i + k) / 2)
    decreases k
  {
    if k > 0 {
      assert FrameAt(Alternating(n, sessions), i) == StackFrame(i + 1, if i % 2 == 0 then 1 else 2);
      AlternatingWalk(n, sessions, i + 1, maxDepth, k - 1);
    }
  }

  lemma {:induction false} AlternatingAllowed(n: nat, sessions: map<u64, u64>)
    requires n < TWO64
    ensures NoTwoTrampolines(Alternating(n, sessions))
  {
    var env := Alternating(n, sessions);
    forall fp: u64 | IsTrampoline(env, fp)
      ensures !IsTrampoline(env, FrameAt(env, fp).next)
    {
      assert fp in env.frames && fp % 2 == 0;
    }
  }

  ghost predicate AlwaysDecides(maxDepth: nat, n: nat) {
    forall env: Env, fp: u64 :: NoTwoTrampolines(env) ==> !WalkFrames(env, fp, 0, maxDepth, n).Unfinished?
  }

  /** A walk decides every stack without two trampolines in a row exactly when it may look at two frames for
      every level, the last one included. */
  lemma {:induction false} DecidesIff(maxDepth: nat, n: nat)
    requires n < TWO64
    ensures AlwaysDecides(maxDepth, n) <==> n >= 2 * (maxDepth + 1)
  {
    if n >= 2 * (maxDepth + 1) {
      forall env: Env, fp: u64 | NoTwoTrampolines(env)
        ensures !WalkFrames(env, fp, 0, maxDepth, n).Unfinished?
      {
        Decides(env, fp, 0, maxDepth, n);
      }
    } else {
      AlternatingAllowed(n, map[]);
      AlternatingWalk(n, map[], 0, maxDepth, n);
    }
  }

  /** The thousand frames of the ten rounds decide every such stack exactly up to a depth of 499; the two
      frames per level of the limited walk never do. */
  lemma {:induction false} BudgetIff(maxDepth: nat)
    ensures AlwaysDecides(maxDepth, 1000) <==> maxDepth <= 499
    ensures maxDepth <= 10 ==> !AlwaysDecides(maxDepth, maxDepth * 2)
  {
    DecidesIff(maxDepth, 1000);
    if maxDepth <= 10 {
      DecidesIff(maxDepth, maxDepth * 2);
    }
  }

  /** At every depth it accepts the limited walk misses a session that the tail-called walk finds, at the
      largest depth that is allowed. */
  lemma {:induction false} LimitedMisses(maxDepth: nat) returns (env: Env)
    requires maxDepth <= 10
    ensures NoTwoTrampolines(env)
    ensures SessionOf(WalkFrames(env, 0, 0, maxDepth, maxDepth * 2)) == None
    ensures SessionOf(WalkFrames(env, 0, 0, maxDepth, 1000)) == Some((7, maxDepth))
  {
    var n := 2 * maxDepth;
    var sessions: map<u64, u64> := map[n + 1 := 7];
    env := Alternating(n + 1, sessions);
    AlternatingAllowed(n + 1, sessions);
    AlternatingWalk(n + 1, sessions, 0, maxDepth, n);
    WalkSplits(env, 0, 0, maxDepth, n, 1000 - n);
    assert FrameAt(env, n).next == n + 1;
  }
}
