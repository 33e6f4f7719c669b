/** The session protocol between the kernel programs and the reader: an entry opens a session under
    the caller's frame pointer and sends its id, the exit takes the session and sends the id less one,
    and the reader pairs the two. The ring buffer delivers in order and may refuse an event. */
module Sessions {
  import opened Words
  import opened Machine

  const MaxEntries := 65536

  /** A kernel time, as the 32 bits an event carries. */
  function Stamp(ns: nat): nat {
    ns % TWO32
  }

  /** `inv` names the invocation an event comes from; neither side looks at it. */
  datatype Event =
    | EntryEvent(sid: u64, stamp: nat, inv: nat)
    | ExitEvent(tag: u64, stamp: nat, inv: nat)

  datatype Session = Session(started: nat, inv: nat)

  /** A printed exit: its own invocation, the one whose session it was paired with, and the duration. */
  datatype Printed = Printed(exit: nat, entry: nat, duration: nat)

  // The two sides --------------------------------------------------------------------------------

  /** A full hash map refuses a new key. */
  function SessionAdded(kmap: map<u64, u64>, fp: u64, sid: u64): map<u64, u64> {
    if fp in kmap || |kmap| < MaxEntries then kmap[fp := sid] else kmap
  }

  datatype Kernel = Kernel(kmap: map<u64, u64>, ring: seq<Event>)

  function Submit(ring: seq<Event>, dropped: bool, e: Event): seq<Event> {
    if dropped then ring else ring + [e]
  }

  function EmitEntry(k: Kernel, fp: u64, sid: u64, stamp: nat, inv: nat, accepted: bool, dropped: bool): Kernel {
    if !accepted then k
    else Kernel(SessionAdded(k.kmap, fp, sid), Submit(k.ring, dropped, EntryEvent(sid, stamp, inv)))
  }

  function EmitExit(k: Kernel, fp: u64, stamp: nat, inv: nat, dropped: bool): Kernel {
    if fp !in k.kmap then k
    else Kernel(k.kmap - {fp}, Submit(k.ring, dropped, ExitEvent(Wrap(k.kmap[fp] as int - 1), stamp, inv)))
  }

  datatype User = User(umap: map<u64, Session>, printed: seq<Printed>)

  /** The reader's handler; exits that took less than `threshold` are dropped. */
  function HandleEvent(u: User, threshold: nat, e: Event): User {
    match e
    case EntryEvent(sid, stamp, inv) => u.(umap := u.umap[sid := Session(stamp, inv)])
    case ExitEvent(tag, stamp, inv) =>
      var sid := Wrap(tag + 1);
      if sid !in u.umap then u
      else
        var s := u.umap[sid];
        var d := Elapsed(s.started, stamp);
        User(u.umap - {sid}, if d < threshold then u.printed else u.printed + [Printed(inv, s.inv, d)])
  }

  // In the form of the program -------------------------------------------------------------------

  class Tracer {
    var kmap: map<u64, u64>
    var ring: seq<Event>

    constructor ()
      ensures State() == Kernel(map[], [])
    {
      kmap, ring := map[], [];
    }

    ghost function State(): Kernel
      reads this
    {
      Kernel(kmap, ring)
    }

    method AddSession(fp: u64, sid: u64)
      modifies this`kmap
      ensures kmap == SessionAdded(old(kmap), fp, sid)
    {
      if fp in kmap || |kmap| < MaxEntries {
        kmap := kmap[fp := sid];
      }
    }

    method GetAndDelSession(fp: u64) returns (sid: Option<u64>)
      modifies this`kmap
      ensures sid == (if fp in old(kmap) then Some(old(kmap)[fp]) else None) && kmap == old(kmap) - {fp}
    {
      if fp !in kmap {
        return None;
      }
      sid := Some(kmap[fp]);
      kmap := kmap - {fp};
    }

    /** `sid` is the random id of an entry, `accepted` the verdict of the filters on it, and `dropped`
        says that the ring buffer has no room. */
    method EmitBpfsnoopEvent(isEntry: bool, fp: u64, sid: u64, stamp: nat, inv: nat, accepted: bool, dropped: bool)
      modifies this
      ensures State() == if isEntry then EmitEntry(old(State()), fp, sid, stamp, inv, accepted, dropped)
                         else EmitExit(old(State()), fp, stamp, inv, dropped)
    {
      var event := EntryEvent(sid, stamp, inv);
      if isEntry {
        if !accepted {
          return;
        }
        AddSession(fp, sid);
      } else {
        var sess := GetAndDelSession(fp);
        if sess == None {
          return;
        }
        event := ExitEvent(Wrap(sess.value - 1), stamp, inv);
      }
      if !dropped {
        ring := ring + [event];
      }
    }
  }

  class Reader {
    const threshold: nat
    var sessions: map<u64, Session>
    var printed: seq<Printed>

    constructor (threshold: nat)
      ensures this.threshold == threshold && State() == User(map[], [])
    {
      this.threshold := threshold;
      sessions, printed := map[], [];
    }

    ghost function State(): User
      reads this
    {
      User(sessions, printed)
    }

    method Add(sid: u64, started: nat, inv: nat)
      modifies this`sessions
      ensures sessions == old(sessions)[sid := Session(started, inv)]
    {
      sessions := sessions[sid := Session(started, inv)];
    }

    method GetAndDel(sid: u64) returns (s: Option<Session>)
      modifies this`sessions
      ensures s == (if sid in old(sessions) then Some(old(sessions)[sid]) else None) && sessions == old(sessions) - {sid}
    {
      if sid !in sessions {
        return None;
      }
      s := Some(sessions[sid]);
      sessions := sessions - {sid};
    }

    method HandleRecord(e: Event)
      modifies this
      ensures State() == HandleEvent(old(State()), threshold, e)
    {
      match e
      case EntryEvent(sid, stamp, inv) => Add(sid, stamp, inv);
      case ExitEvent(tag, stamp, inv) =>
        var sess := GetAndDel(Wrap(tag + 1));
        if sess.Some? {
          var duration := Elapsed(sess.value.started, stamp);
          if duration >= threshold {
            printed := printed + [Printed(inv, sess.value.inv, duration)];
          }
        }
    }
  }

  // Runs -----------------------------------------------------------------------------------------

  /** The whole system. `running` are the traced invocations in progress by the frame pointer of their
      caller, the innermost last; `owner`, `entered` and `exited` record what has happened, `overwritten`
      the ids whose session gave way to another one, and `lossless` says that no event and no session
      was refused. */
  datatype System = System(
    kernel: Kernel,
    user: User,
    running: map<u64, seq<nat>>,
    owner: map<u64, nat>,
    entered: map<nat, nat>,
    exited: map<nat, nat>,
    overwritten: set<u64>,
    lossless: bool)

  datatype Action =
    | Enter(fp: u64, inv: nat, sid: u64, ns: nat, accepted: bool, dropped: bool)
    | Leave(fp: u64, ns: nat, dropped: bool)
    | Deliver

  /** The traced invocations under a caller frame. */
  function Under(s: System, fp: u64): seq<nat> {
    if fp in s.running then s.running[fp] else []
  }

  /** Invocations under one caller frame end in the reverse order of their begin, and the ids of accepted
      entries are fresh. */
  predicate Enabled(s: System, a: Action) {
    match a
    case Enter(_, inv, sid, _, accepted, _) => inv !in s.entered && (accepted ==> sid !in s.owner)
    case Leave(fp, _, _) => Under(s, fp) != []
    case Deliver => s.kernel.ring != []
  }

  /** The invocation that an exit under `fp` comes from. */
  function Leaving(s: System, fp: u64): nat
    requires Under(s, fp) != []
  {
    Under(s, fp)[|Under(s, fp)| - 1]
  }

  function Act(s: System, threshold: nat, a: Action): System
    requires Enabled(s, a)
  {
    match a
    case Enter(fp, inv, sid, ns, accepted, dropped) =>
      var k := EmitEntry(s.kernel, fp, sid, Stamp(ns), inv, accepted, dropped);
      s.(kernel := k,
         running := s.running[fp := Under(s, fp) + [inv]],
         entered := s.entered[inv := ns],
         owner := if accepted then s.owner[sid := inv] else s.owner,
         overwritten := if accepted && fp in s.kernel.kmap then s.overwritten + {s.kernel.kmap[fp]} else s.overwritten,
         lossless := s.lossless && (accepted ==> !dropped && fp in k.kmap))
    case Leave(fp, ns, dropped) =>
      var inv := Leaving(s, fp);
      s.(kernel := EmitExit(s.kernel, fp, Stamp(ns), inv, dropped),
         running := s.running[fp := Under(s, fp)[..|Under(s, fp)| - 1]],
         exited := s.exited[inv := ns],
         lossless := s.lossless && (fp in s.kernel.kmap ==> !dropped))
    case Deliver =>
      s.(kernel := s.kernel.(ring := s.kernel.ring[1..]),
         user := HandleEvent(s.user, threshold, s.kernel.ring[0]))
  }

  const Start: System := System(Kernel(map[], []), User(map[], []), map[], map[], map[], map[], {}, true)

  /** The state after a run; None if an action is not enabled where it stands. */
  function After(threshold: nat, run: seq<Action>): Option<System> {
    if run == [] then Some(Start)
    else
      match After(threshold, run[..|run| - 1])
      case None => None
      case Some(s) => if Enabled(s, run[|run| - 1]) then Some(Act(s, threshold, run[|run| - 1])) else None
  }

  // Pairing --------------------------------------------------------------------------------------

  /** The filters refused the entry of the invocation. */
  predicate Refused(s: System, inv: nat) {
    inv !in s.owner.Values
  }

  /** The exit of a refused invocation takes the session that an outer one left under the same frame. */
  predicate Steals(s: System, a: Action)
    requires Enabled(s, a)
  {
    a.Leave? && a.fp in s.kernel.kmap && Refused(s, Leaving(s, a.fp))
  }

  predicate Owned(s: System, sid: u64, inv: nat) {
    sid in s.owner && s.owner[sid] == inv && inv in s.entered
  }

  predicate Truthful(s: System, e: Event) {
    match e
    case EntryEvent(sid, stamp, inv) => Owned(s, sid, inv) && stamp == Stamp(s.entered[inv])
    case ExitEvent(tag, stamp, inv) => Owned(s, Wrap(tag + 1), inv) && inv in s.exited && stamp == Stamp(s.exited[inv])
  }

  /** A printed exit is paired with the entry of its own invocation, and shows how long that took. */
  predicate Correct(s: System, threshold: nat, p: Printed) {
    && p.entry == p.exit && p.exit in s.entered && p.exit in s.exited
    && p.duration == Elapsed(s.entered[p.exit], s.exited[p.exit]) >= threshold
  }

  /** The open session of a frame belongs to an invocation running under it, and every invocation further
      in was refused. */
  ghost predicate Holds(s: System, fp: u64) {
    fp in s.kernel.kmap ==>
      var sid, under := s.kernel.kmap[fp], Under(s, fp);
      && sid in s.owner && s.owner[sid] in s.entered && s.owner[sid] in under
      && forall i, j :: 0 <= i < j < |under| && under[i] == s.owner[sid] ==> Refused(s, under[j])
  }

  /** Running invocations have entered and not left, and each runs under one frame. */
  ghost predicate Nested(s: System) {
    && (forall fp, i :: 0 <= i < |Under(s, fp)| ==> Under(s, fp)[i] in s.entered && Under(s, fp)[i] !in s.exited)
    && (forall f, g, i, j :: 0 <= i < |Under(s, f)| && 0 <= j < |Under(s, g)| && Under(s, f)[i] == Under(s, g)[j] ==>
          f == g && i == j)
    && s.exited.Keys <= s.entered.Keys && s.owner.Values <= s.entered.Keys
  }

  ghost predicate PairedRunning(s: System) {
    Nested(s) && forall fp :: Holds(s, fp)
  }

  /** Events on their way, the reader's sessions and what was printed tell the truth. */
  ghost predicate PairedSeen(s: System, threshold: nat) {
    && (forall e :: e in s.kernel.ring ==> Truthful(s, e))
    && (forall sid {:trigger s.user.umap[sid]} :: sid in s.user.umap ==>
          Owned(s, sid, s.user.umap[sid].inv) && s.user.umap[sid].started == Stamp(s.entered[s.user.umap[sid].inv]))
    && (forall p :: p in s.user.printed ==> Correct(s, threshold, p))
  }

  ghost predicate Paired(s: System, threshold: nat) {
    PairedRunning(s) && PairedSeen(s, threshold)
  }

  lemma {:induction false} StampElapsed(a: nat, b: nat)
    ensures Elapsed(Stamp(a), Stamp(b)) == Elapsed(a, b)
  {
  }

  lemma {:induction false} TagReturns(sid: u64)
    ensures Wrap(Wrap(sid - 1) + 1) == sid
  {
  }

  /** Facts that stay when invocations only begin and end. */
  ghost predicate Later(s: System, s': System) {
    && (forall sid :: sid in s.owner ==> sid in s'.owner && s'.owner[sid] == s.owner[sid])
    && (forall i :: i in s.entered ==> i in s'.entered && s'.entered[i] == s.entered[i])
    && (forall i :: i in s.exited ==> i in s'.exited && s'.exited[i] == s.exited[i])
  }

  lemma {:induction false} LaterKeeps(s: System, s': System, threshold: nat)
    requires Later(s, s')
    ensures forall e :: Truthful(s, e) ==> Truthful(s', e)
    ensures forall p :: Correct(s, threshold, p) ==> Correct(s', threshold, p)
    ensures forall sid, inv :: Owned(s, sid, inv) ==> Owned(s', sid, inv)
  {
  }

  lemma {:induction false} EnterPaired(s: System, threshold: nat, a: Action)
    requires Paired(s, threshold) && a.Enter? && Enabled(s, a)
    ensures Paired(Act(s, threshold, a), threshold)
  {
    hide PairedRunning, PairedSeen, Act;
    EnterRunning(s, threshold, a);
    EnterSeen(s, threshold, a);
  }

  lemma {:induction false} EnterRunning(s: System, threshold: nat, a: Action)
    requires PairedRunning(s) && a.Enter? && Enabled(s, a)
    ensures PairedRunning(Act(s, threshold, a))
  {
    hide Nested, Holds, Act;
    EnterNested(s, threshold, a);
    forall fp
      ensures Holds(Act(s, threshold, a), fp)
    {
      EnterHolds(s, threshold, a, fp);
    }
  }

  lemma {:induction false} EnterFacts(s: System, threshold: nat, a: Action, fp: u64)
    requires a.Enter? && Enabled(s, a)
    ensures Under(Act(s, threshold, a), fp) == if fp == a.fp then Under(s, fp) + [a.inv] else Under(s, fp)
    ensures Act(s, threshold, a).owner.Values == s.owner.Values + if a.accepted then {a.inv} else {}
  {
    if a.accepted {
      var s' := Act(s, threshold, a);
      assert s'.owner[a.sid] == a.inv;
      assert forall sid :: sid in s.owner ==> s'.owner[sid] == s.owner[sid];
    }
  }

  lemma {:induction false} EnterNested(s: System, threshold: nat, a: Action)
    requires Nested(s) && a.Enter? && Enabled(s, a)
    ensures Nested(Act(s, threshold, a))
  {
    var s' := Act(s, threshold, a);
    forall fp
      ensures Under(s', fp) == if fp == a.fp then Under(s, fp) + [a.inv] else Under(s, fp)
    {
      EnterFacts(s, threshold, a, fp);
    }
    EnterFacts(s, threshold, a, a.fp);
    hide EmitEntry, Stamp, Under;
  }

  lemma {:induction false} EnterHolds(s: System, threshold: nat, a: Action, fp: u64)
    requires Nested(s) && Holds(s, fp) && a.Enter? && Enabled(s, a)
    ensures Holds(Act(s, threshold, a), fp)
  {
    hide Submit, Stamp, Under;
    EnterFacts(s, threshold, a, fp);
  }

  lemma {:induction false} EnterSeen(s: System, threshold: nat, a: Action)
    requires PairedSeen(s, threshold) && a.Enter? && Enabled(s, a)
    ensures PairedSeen(Act(s, threshold, a), threshold)
  {
    var s' := Act(s, threshold, a);
    assert Later(s, s');
    LaterKeeps(s, s', threshold);
    if a.accepted {
      SubmitTruthful(s', s.kernel.ring, a.dropped, EntryEvent(a.sid, Stamp(a.ns), a.inv));
    }
    hide Correct, Stamp, Truthful, Submit, SessionAdded;
  }

  lemma {:induction false} SubmitTruthful(s: System, ring: seq<Event>, dropped: bool, e: Event)
    requires Truthful(s, e) && forall x :: x in ring ==> Truthful(s, x)
    ensures forall x :: x in Submit(ring, dropped, e) ==> Truthful(s, x)
  {
    hide Truthful;
  }

  /** The invocation that leaves holds the session of its frame unless it was refused. */
  lemma {:induction false} Holder(s: System, fp: u64)
    requires Nested(s) && Holds(s, fp) && Under(s, fp) != [] && fp in s.kernel.kmap
    ensures Owned(s, s.kernel.kmap[fp], Leaving(s, fp)) <==> !Refused(s, Leaving(s, fp))
  {
    var under := Under(s, fp);
    var i :| 0 <= i < |under| && under[i] == s.owner[s.kernel.kmap[fp]];
    assert i < |under| - 1 ==> Refused(s, under[|under| - 1]);
  }

  lemma {:induction false} LeaveRunning(s: System, threshold: nat, a: Action)
    requires PairedRunning(s) && a.Leave? && Enabled(s, a)
    ensures PairedRunning(Act(s, threshold, a))
  {
    hide Submit, Stamp;
    var s' := Act(s, threshold, a);
    var n := |Under(s, a.fp)| - 1;
    assert forall fp :: Under(s', fp) == if fp == a.fp then Under(s, fp)[..n] else Under(s, fp);
    forall fp
      ensures Holds(s', fp)
    {
      assert Holds(s, fp);
    }
  }

  /** An exit whose event is delivered keeps the pairing exactly when it does not steal a session. */
  lemma {:induction false} LeavePairedIff(s: System, threshold: nat, a: Action)
    requires Paired(s, threshold) && a.Leave? && Enabled(s, a)
    ensures Paired(Act(s, threshold, a), threshold) <==> !(Steals(s, a) && !a.dropped)
  {
    var s' := Act(s, threshold, a);
    LeaveRunning(s, threshold, a);
    assert Later(s, s');
    LaterKeeps(s, s', threshold);
    assert Holds(s, a.fp);
    if a.fp in s.kernel.kmap {
      var sid := s.kernel.kmap[a.fp];
      var e := ExitEvent(Wrap(sid as int - 1), Stamp(a.ns), Leaving(s, a.fp));
      TagReturns(sid);
      Holder(s, a.fp);
      assert e in Submit(s.kernel.ring, false, e);
      if !Steals(s, a) {
        SubmitTruthful(s', s.kernel.ring, a.dropped, e);
      }
    }
    hide Correct, Stamp, Wrap, Truthful, PairedRunning, Holds;
  }

  lemma {:induction false} DeliverRunning(s: System, threshold: nat)
    requires PairedRunning(s) && s.kernel.ring != []
    ensures PairedRunning(Act(s, threshold, Deliver))
  {
    var s' := Act(s, threshold, Deliver);
    assert forall fp :: Under(s', fp) == Under(s, fp);
    forall fp
      ensures Holds(s', fp)
    {
      assert Holds(s, fp);
    }
  }

  lemma {:induction false} DeliverPaired(s: System, threshold: nat)
    requires Paired(s, threshold) && s.kernel.ring != []
    ensures Paired(Act(s, threshold, Deliver), threshold)
  {
    DeliverRunning(s, threshold);
    hide PairedRunning;
    var s' := Act(s, threshold, Deliver);
    var e := s.kernel.ring[0];
    assert Later(s, s');
    LaterKeeps(s, s', threshold);
    assert e in s.kernel.ring && Truthful(s, e);
    if e.ExitEvent? && Wrap(e.tag + 1) in s.user.umap {
      StampElapsed(s.entered[e.inv], s.exited[e.inv]);
    }
    hide Stamp, Wrap;
  }

  /** Some exit of the run stole a session and its event was not dropped. */
  predicate Misled(threshold: nat, run: seq<Action>) {
    if run == [] then false
    else
      Misled(threshold, run[..|run| - 1]) ||
      match After(threshold, run[..|run| - 1])
      case None => false
      case Some(s) => var a := run[|run| - 1]; Enabled(s, a) && Steals(s, a) && !a.dropped
  }

  /** In every run, with any interleaving, nesting, delays and losses, in which no refused invocation takes
      an outer session, every printed exit is paired with the entry of its own invocation and shows its
      duration modulo 2^32. */
  lemma {:induction false} RunPaired(threshold: nat, run: seq<Action>)
    requires After(threshold, run).Some? && !Misled(threshold, run)
    ensures Paired(After(threshold, run).value, threshold)
  {
    hide Paired, Act, Steals;
    if run == [] {
      assert Paired(Start, threshold) by {
        StartPaired(threshold);
      }
    } else {
      var a := run[|run| - 1];
      RunPaired(threshold, run[..|run| - 1]);
      var s := After(threshold, run[..|run| - 1]).value;
      match a
      case Enter(_, _, _, _, _, _) => EnterPaired(s, threshold, a);
      case Leave(_, _, _) => LeavePairedIff(s, threshold, a);
      case Deliver => DeliverPaired(s, threshold);
    }
  }

  lemma {:induction false} StartPaired(threshold: nat)
    ensures Paired(Start, threshold)
  {
  }

  // No losses ------------------------------------------------------------------------------------

  function Drained(ids: set<u64>, ring: seq<Event>): set<u64> {
    if ring == [] then ids
    else
      var before := Drained(ids, ring[..|ring| - 1]);
      match ring[|ring| - 1]
      case EntryEvent(sid, _, _) => before + {sid}
      case ExitEvent(tag, _, _) => before - {Wrap(tag + 1)}
  }

  lemma {:induction false} DrainedFront(ids: set<u64>, ring: seq<Event>)
    requires ring != []
    ensures Drained(ids, ring) ==
            Drained(match ring[0] case EntryEvent(sid, _, _) => ids + {sid} case ExitEvent(tag, _, _) => ids - {Wrap(tag + 1)}, ring[1..])
  {
    hide Wrap;
    var n := |ring| - 1;
    if n > 0 {
      DrainedFront(ids, ring[..n]);
      assert ring[..n][1..] == ring[1..][..n - 1];
    } else {
      assert ring[..0] == [] && ring[1..] == [];
    }
  }

  /** Once the ring is drained the reader has exactly the sessions that are open in the kernel and those that
      were overwritten there. */
  ghost predicate InStep(s: System) {
    && s.overwritten <= s.owner.Keys && s.overwritten !! s.kernel.kmap.Values
    && (s.lossless ==> Drained(s.user.umap.Keys, s.kernel.ring) == s.kernel.kmap.Values + s.overwritten)
  }

  lemma {:induction false} ActInStep(s: System, threshold: nat, a: Action)
    requires PairedRunning(s) && InStep(s) && Enabled(s, a)
    ensures InStep(Act(s, threshold, a)) && PairedRunning(Act(s, threshold, a))
  {
    match a
    case Enter(_, _, _, _, _, _) =>
      EnterRunning(s, threshold, a);
      EnterInStep(s, threshold, a);
    case Leave(_, _, _) =>
      LeaveRunning(s, threshold, a);
      LeaveInStep(s, threshold, a);
    case Deliver =>
      DeliverRunning(s, threshold);
      DrainedFront(s.user.umap.Keys, s.kernel.ring);
      DeliverKeys(s.user, threshold, s.kernel.ring[0]);
  }

  lemma {:induction false} DeliverKeys(u: User, threshold: nat, e: Event)
    ensures HandleEvent(u, threshold, e).umap.Keys ==
            match e case EntryEvent(sid, _, _) => u.umap.Keys + {sid} case ExitEvent(tag, _, _) => u.umap.Keys - {Wrap(tag + 1)}
  {
    hide Wrap;
  }

  /** No two frames hold sessions with one id. */
  lemma {:induction false} OneFrame(s: System, f: u64, g: u64)
    requires PairedRunning(s) && f in s.kernel.kmap && g in s.kernel.kmap && s.kernel.kmap[f] == s.kernel.kmap[g]
    ensures f == g
  {
    assert Holds(s, f) && Holds(s, g);
  }

  lemma {:induction false} EnterEffect(s: System, threshold: nat, a: Action)
    requires a.Enter? && Enabled(s, a)
    ensures var s', m := Act(s, threshold, a), s.kernel.kmap;
            && s'.user == s.user
            && s'.owner.Keys == s.owner.Keys + (if a.accepted then {a.sid} else {})
            && s'.overwritten == s.overwritten + (if a.accepted && a.fp in m then {m[a.fp]} else {})
            && s'.kernel.kmap == (if a.accepted then SessionAdded(m, a.fp, a.sid) else m)
            && (s'.lossless ==> s.lossless && (a.accepted ==> a.fp in s'.kernel.kmap))
            && (s'.lossless ==> s'.kernel.ring == s.kernel.ring + if a.accepted then [EntryEvent(a.sid, Stamp(a.ns), a.inv)] else [])
  {
    hide SessionAdded, Stamp;
  }

  lemma {:induction false} OpenIds(s: System, fp: u64)
    requires PairedRunning(s)
    ensures var m := s.kernel.kmap; forall f :: f in m ==> m[f] in s.owner && (fp in m && m[f] == m[fp] ==> f == fp)
  {
    var m := s.kernel.kmap;
    forall f | f in m
      ensures m[f] in s.owner && (fp in m && m[f] == m[fp] ==> f == fp)
    {
      assert Holds(s, f);
      if fp in m && m[f] == m[fp] {
        OneFrame(s, f, fp);
      }
    }
  }

  lemma {:induction false} EnterInStep(s: System, threshold: nat, a: Action)
    requires PairedRunning(s) && InStep(s) && a.Enter? && Enabled(s, a)
    ensures InStep(Act(s, threshold, a))
  {
    hide Act, Stamp, Drained, SessionAdded, Submit, EmitEntry;
    var s', m := Act(s, threshold, a), s.kernel.kmap;
    EnterEffect(s, threshold, a);
    OpenIds(s, a.fp);
    hide PairedRunning, Under;
    assert s.kernel.ring + [] == s.kernel.ring;
    if a.accepted {
      assert a.sid !in m.Values && a.sid !in s.overwritten;
      AddedOr(m, a.fp, a.sid);
      if a.fp in s'.kernel.kmap {
        PutApart(m, s.overwritten, a.fp, a.sid);
        DrainedEntry(s.user.umap.Keys, s.kernel.ring, EntryEvent(a.sid, Stamp(a.ns), a.inv));
      }
    }
  }

  lemma {:induction false} AddedOr(m: map<u64, u64>, fp: u64, sid: u64)
    ensures SessionAdded(m, fp, sid) == if fp in SessionAdded(m, fp, sid) then m[fp := sid] else m
    ensures fp in m ==> fp in SessionAdded(m, fp, sid)
  {
  }

  lemma {:induction false} DrainedEntry(ids: set<u64>, ring: seq<Event>, e: Event)
    requires e.EntryEvent?
    ensures Drained(ids, ring + [e]) == Drained(ids, ring) + {e.sid}
  {
    assert (ring + [e])[..|ring|] == ring;
  }

  /** Opening a session under a frame moves the one that was there to the overwritten ones. */
  lemma {:induction false} PutApart(m: map<u64, u64>, over: set<u64>, fp: u64, sid: u64)
    requires over !! m.Values && sid !in m.Values && sid !in over
    requires fp in m ==> forall f :: f in m && m[f] == m[fp] ==> f == fp
    ensures var over' := over + if fp in m then {m[fp]} else {};
            over' !! m[fp := sid].Values && m[fp := sid].Values + over' == m.Values + over + {sid}
  {
    ValuesPut(m, fp, sid);
  }

  lemma {:induction false} ValuesPut(m: map<u64, u64>, fp: u64, sid: u64)
    requires fp in m ==> forall f :: f in m && m[f] == m[fp] ==> f == fp
    ensures m[fp := sid].Values == m.Values - (if fp in m then {m[fp]} else {}) + {sid}
  {
    var m' := m[fp := sid];
    assert m'[fp] == sid;
    forall v | v in m.Values && (fp in m ==> v != m[fp])
      ensures v in m'.Values
    {
      var f :| f in m && m[f] == v;
      assert m'[f] == v;
    }
  }

  lemma {:induction false} LeaveInStep(s: System, threshold: nat, a: Action)
    requires PairedRunning(s) && InStep(s) && a.Leave? && Enabled(s, a)
    ensures InStep(Act(s, threshold, a))
  {
    var s', m := Act(s, threshold, a), s.kernel.kmap;
    if a.fp in m {
      var sid := m[a.fp];
      forall f | f in m && m[f] == sid
        ensures f == a.fp
      {
        OneFrame(s, f, a.fp);
      }
      ValuesRemoved(m, a.fp);
      TagReturns(sid);
      if s'.lossless {
        assert s'.kernel.ring[..|s'.kernel.ring| - 1] == s.kernel.ring;
      }
    }
  }

  lemma {:induction false} ValuesRemoved(m: map<u64, u64>, fp: u64)
    requires fp in m && forall f :: f in m && m[f] == m[fp] ==> f == fp
    ensures (m - {fp}).Values == m.Values - {m[fp]}
  {
    forall v | v in m.Values - {m[fp]}
      ensures v in (m - {fp}).Values
    {
      var f :| f in m && m[f] == v;
      assert (m - {fp})[f] == v;
    }
  }

  /** In every run without losses, stolen sessions or not, whenever the ring has been drained the reader's
      map has exactly the ids of the sessions that are open in the kernel, and those that an inner
      invocation overwrote, which stay for good. */
  lemma {:induction false} RunInStep(threshold: nat, run: seq<Action>)
    requires After(threshold, run).Some?
    ensures PairedRunning(After(threshold, run).value) && InStep(After(threshold, run).value)
    ensures var s := After(threshold, run).value;
            s.lossless && s.kernel.ring == [] ==> s.user.umap.Keys == s.kernel.kmap.Values + s.overwritten
  {
    hide PairedRunning, Act;
    if run == [] {
      assert Start.kernel.kmap.Values == {};
      assert PairedRunning(Start) by { StartPaired(threshold); }
    } else {
      RunInStep(threshold, run[..|run| - 1]);
      ActInStep(After(threshold, run[..|run| - 1]).value, threshold, run[|run| - 1]);
    }
  }

  // What a stolen session shows --------------------------------------------------------------------

  /** The reader once it has handled all events of the ring. */
  function HandleAll(u: User, threshold: nat, ring: seq<Event>): User
    decreases |ring|
  {
    if ring == [] then u else HandleAll(HandleEvent(u, threshold, ring[0]), threshold, ring[1..])
  }

  lemma {:induction false} HandleLast(u: User, threshold: nat, ring: seq<Event>, e: Event)
    ensures HandleAll(u, threshold, ring + [e]) == HandleEvent(HandleAll(u, threshold, ring), threshold, e)
    decreases |ring|
  {
    hide HandleEvent;
    if ring == [] {
      assert ring + [e] == [e];
    } else {
      assert (ring + [e])[1..] == ring[1..] + [e];
      HandleLast(HandleEvent(u, threshold, ring[0]), threshold, ring[1..], e);
    }
  }

  /** The reader's sessions tell the truth. */
  ghost predicate Faithful(s: System, u: User) {
    forall sid {:trigger u.umap[sid]} :: sid in u.umap ==>
      Owned(s, sid, u.umap[sid].inv) && u.umap[sid].started == Stamp(s.entered[u.umap[sid].inv])
  }

  lemma {:induction false} HandleAllKeeps(s: System, u: User, threshold: nat, ring: seq<Event>)
    requires Faithful(s, u) && forall e :: e in ring ==> Truthful(s, e)
    ensures Faithful(s, HandleAll(u, threshold, ring))
    ensures HandleAll(u, threshold, ring).umap.Keys == Drained(u.umap.Keys, ring)
    decreases |ring|
  {
    if ring != [] {
      var u1 := HandleEvent(u, threshold, ring[0]);
      assert Truthful(s, ring[0]);
      DrainedFront(u.umap.Keys, ring);
      DeliverKeys(u, threshold, ring[0]);
      HandleAllKeeps(s, u1, threshold, ring[1..]);
    }
  }

  /** A stolen session is printed as the pair of two invocations: if its entry has reached or will reach the
      reader and the time between the two events passes the threshold, the reader has printed a wrong
      pair when it has handled the ring. */
  lemma {:induction false} StealShows(s: System, threshold: nat, a: Action)
    requires Paired(s, threshold) && Enabled(s, a) && Steals(s, a) && !a.dropped
    requires var sid := s.kernel.kmap[a.fp];
             && sid in Drained(s.user.umap.Keys, s.kernel.ring)
             && sid in s.owner && s.owner[sid] in s.entered
             && Elapsed(s.entered[s.owner[sid]], a.ns) >= threshold
    ensures var s' := Act(s, threshold, a);
            exists p :: p in HandleAll(s'.user, threshold, s'.kernel.ring).printed
                        && p.exit == Leaving(s, a.fp) && p.entry == s.owner[s.kernel.kmap[a.fp]] != p.exit
  {
    var sid, ring := s.kernel.kmap[a.fp], s.kernel.ring;
    var e := ExitEvent(Wrap(sid as int - 1), Stamp(a.ns), Leaving(s, a.fp));
    TagReturns(sid);
    HandleAllKeeps(s, s.user, threshold, ring);
    HandleLast(s.user, threshold, ring, e);
    StampElapsed(s.entered[s.owner[sid]], a.ns);
    var u := HandleAll(s.user, threshold, ring);
    assert Owned(s, sid, u.umap[sid].inv);
    var p := Printed(Leaving(s, a.fp), s.owner[sid], Elapsed(Stamp(s.entered[s.owner[sid]]), Stamp(a.ns)));
    assert p in HandleEvent(u, threshold, e).printed;
    hide HandleAll, HandleEvent, Stamp, Wrap, Elapsed;
  }

  /** The kernel's map never holds more than 65536 sessions, and an accepted entry is without one only when
      its frame has none and the map is full. */
  lemma {:induction false} RunBounded(threshold: nat, run: seq<Action>)
    requires After(threshold, run).Some?
    ensures |After(threshold, run).value.kernel.kmap| <= 65536
    ensures run != [] && run[|run| - 1].Enter? && run[|run| - 1].accepted ==>
              var before, after := After(threshold, run[..|run| - 1]).value.kernel.kmap, After(threshold, run).value.kernel.kmap;
              var a := run[|run| - 1];
              if a.fp in before || |before| < 65536 then after == before[a.fp := a.sid] else after == before
  {
    if run != [] {
      var front, a := run[..|run| - 1], run[|run| - 1];
      RunBounded(threshold, front);
      hide Submit, Stamp, HandleEvent;
      var s := After(threshold, front).value;
      if a.Leave? && a.fp in s.kernel.kmap {
        assert (s.kernel.kmap - {a.fp}).Keys < s.kernel.kmap.Keys;
        Smaller(s.kernel.kmap, a.fp);
      } else if a.Enter? {
        Larger(s.kernel.kmap, a.fp, a.sid);
      }
    }
  }

  lemma {:induction false} Smaller(m: map<u64, u64>, fp: u64)
    ensures |m - {fp}| <= |m|
  {
    if fp in m {
      assert m == (m - {fp})[fp := m[fp]];
    } else {
      assert m - {fp} == m;
    }
  }

  lemma {:induction false} Larger(m: map<u64, u64>, fp: u64, sid: u64)
    ensures |m[fp := sid]| == if fp in m then |m| else |m| + 1
  {
  }

  // Everything is shown ----------------------------------------------------------------------------

  /** No exit is printed twice. */
  predicate Once(printed: seq<Printed>) {
    forall i, j :: 0 <= i < j < |printed| ==> printed[i].exit != printed[j].exit
  }

  ghost predicate AllExited(s: System, printed: seq<Printed>) {
    forall p :: p in printed ==> p.exit in s.exited
  }

  /** The invocation has ended, and if it took long enough it is printed with its own entry and duration. */
  ghost predicate Reported(s: System, threshold: nat, inv: nat, printed: seq<Printed>) {
    && inv in s.entered && inv in s.exited
    && var d := Elapsed(s.entered[inv], s.exited[inv]);
       d >= threshold ==> Printed(inv, inv, d) in printed
  }

  /** Once the ring is drained no exit is printed twice; and without losses every accepted invocation whose
      session is neither open nor overwritten is reported. */
  ghost predicate Complete(s: System, threshold: nat) {
    var printed := HandleAll(s.user, threshold, s.kernel.ring).printed;
    && Once(printed)
    && (s.lossless ==>
          forall sid {:trigger s.owner[sid]} ::
            sid in s.owner && sid !in s.kernel.kmap.Values && sid !in s.overwritten ==>
            Reported(s, threshold, s.owner[sid], printed))
  }

  lemma {:induction false} HandleAllExited(s: System, u: User, threshold: nat, ring: seq<Event>)
    requires AllExited(s, u.printed) && forall e :: e in ring ==> Truthful(s, e)
    ensures AllExited(s, HandleAll(u, threshold, ring).printed)
    decreases |ring|
  {
    if ring != [] {
      assert Truthful(s, ring[0]);
      HandleAllExited(s, HandleEvent(u, threshold, ring[0]), threshold, ring[1..]);
    }
  }

  lemma {:induction false} EnterComplete(s: System, threshold: nat, a: Action)
    requires Paired(s, threshold) && InStep(s) && Complete(s, threshold) && a.Enter? && Enabled(s, a)
    ensures Complete(Act(s, threshold, a), threshold)
  {
    hide Act, HandleAll, HandleEvent, SessionAdded, Stamp, PairedSeen;
    var s', m := Act(s, threshold, a), s.kernel.kmap;
    EnterEffect(s, threshold, a);
    EnterHistory(s, threshold, a);
    EnterPrints(s, threshold, a);
    OpenIds(s, a.fp);
    AddedOr(m, a.fp, a.sid);
    if a.accepted && a.fp in s'.kernel.kmap {
      PutApart(m, s.overwritten, a.fp, a.sid);
    }
    hide PairedRunning, Under;
    if s'.lossless {
      var printed := HandleAll(s'.user, threshold, s'.kernel.ring).printed;
      forall sid | sid in s'.owner && sid !in s'.kernel.kmap.Values && sid !in s'.overwritten
        ensures Reported(s', threshold, s'.owner[sid], printed)
      {
        assert sid in s.owner && sid !in m.Values && sid !in s.overwritten;
        assert Reported(s, threshold, s.owner[sid], printed);
      }
    }
  }

  /** An entry changes nothing of what is known of earlier invocations. */
  lemma {:induction false} EnterHistory(s: System, threshold: nat, a: Action)
    requires a.Enter? && Enabled(s, a)
    ensures Later(s, Act(s, threshold, a)) && Act(s, threshold, a).exited == s.exited
    ensures a.accepted ==> Act(s, threshold, a).owner == s.owner[a.sid := a.inv]
    ensures !a.accepted ==> Act(s, threshold, a).owner == s.owner
  {
    hide Submit, Stamp, SessionAdded;
  }

  lemma {:induction false} EnterPrints(s: System, threshold: nat, a: Action)
    requires a.Enter? && Enabled(s, a)
    ensures var s' := Act(s, threshold, a);
            HandleAll(s'.user, threshold, s'.kernel.ring).printed == HandleAll(s.user, threshold, s.kernel.ring).printed
  {
    hide HandleAll, Stamp, SessionAdded;
    if a.accepted && !a.dropped {
      HandleLast(s.user, threshold, s.kernel.ring, EntryEvent(a.sid, Stamp(a.ns), a.inv));
    }
  }

  /** What an exit that finds a session of its own leaves: its event comes last and prints it. */
  lemma {:induction false} LeavePrints(s: System, threshold: nat, a: Action)
    requires Paired(s, threshold) && a.Leave? && Enabled(s, a) && a.fp in s.kernel.kmap && !Steals(s, a) && !a.dropped
    ensures var s', inv := Act(s, threshold, a), Leaving(s, a.fp);
            var before, after := HandleAll(s.user, threshold, s.kernel.ring), HandleAll(s'.user, threshold, s'.kernel.ring);
            && inv in s.entered && inv !in s.exited && AllExited(s, before.printed)
            && s.kernel.kmap[a.fp] in s.owner && s.owner[s.kernel.kmap[a.fp]] == inv
            && (after.printed == before.printed ||
                after.printed == before.printed + [Printed(inv, inv, Elapsed(s.entered[inv], a.ns))])
            && (s.kernel.kmap[a.fp] in Drained(s.user.umap.Keys, s.kernel.ring) && Elapsed(s.entered[inv], a.ns) >= threshold ==>
                  after.printed == before.printed + [Printed(inv, inv, Elapsed(s.entered[inv], a.ns))])
  {
    var sid, ring, inv := s.kernel.kmap[a.fp], s.kernel.ring, Leaving(s, a.fp);
    var e := ExitEvent(Wrap(sid as int - 1), Stamp(a.ns), inv);
    TagReturns(sid);
    assert Holds(s, a.fp);
    Holder(s, a.fp);
    HandleAllKeeps(s, s.user, threshold, ring);
    assert forall p :: p in s.user.printed ==> Correct(s, threshold, p);
    HandleAllExited(s, s.user, threshold, ring);
    HandleLast(s.user, threshold, ring, e);
    StampElapsed(s.entered[inv], a.ns);
    var u := HandleAll(s.user, threshold, ring);
    if sid in u.umap {
      assert Owned(s, sid, u.umap[sid].inv);
    }
    hide HandleAll, Stamp, Wrap, Elapsed;
  }

  lemma {:induction false} LeaveComplete(s: System, threshold: nat, a: Action)
    requires Paired(s, threshold) && InStep(s) && Complete(s, threshold) && a.Leave? && Enabled(s, a)
    requires !(Steals(s, a) && !a.dropped)
    ensures Complete(Act(s, threshold, a), threshold)
  {
    var s', m, inv := Act(s, threshold, a), s.kernel.kmap, Leaving(s, a.fp);
    assert inv !in s.exited;
    if a.fp in m && !a.dropped {
      LeavePrints(s, threshold, a);
      OpenIds(s, a.fp);
      ValuesRemoved(m, a.fp);
    }
    hide PairedRunning, PairedSeen, HandleAll, HandleEvent, Under, Steals, Elapsed, Drained, Stamp;
    LeaveReports(s, threshold, a);
  }

  lemma {:induction false} LeaveReports(s: System, threshold: nat, a: Action)
    requires Complete(s, threshold) && InStep(s) && a.Leave? && Enabled(s, a) && Leaving(s, a.fp) !in s.exited
    requires a.fp in s.kernel.kmap && !a.dropped ==>
               var s', inv := Act(s, threshold, a), Leaving(s, a.fp);
               var before, after := HandleAll(s.user, threshold, s.kernel.ring), HandleAll(s'.user, threshold, s'.kernel.ring);
               && inv in s.entered && inv !in s.exited && AllExited(s, before.printed)
               && s.kernel.kmap[a.fp] in s.owner && s.owner[s.kernel.kmap[a.fp]] == inv
               && (s.kernel.kmap - {a.fp}).Values == s.kernel.kmap.Values - {s.kernel.kmap[a.fp]}
               && (after.printed == before.printed ||
                   after.printed == before.printed + [Printed(inv, inv, Elapsed(s.entered[inv], a.ns))])
               && (s.kernel.kmap[a.fp] in Drained(s.user.umap.Keys, s.kernel.ring) && Elapsed(s.entered[inv], a.ns) >= threshold ==>
                     after.printed == before.printed + [Printed(inv, inv, Elapsed(s.entered[inv], a.ns))])
    ensures Complete(Act(s, threshold, a), threshold)
  {
    hide HandleAll, Elapsed, Drained, Stamp, Under;
  }

  /** In every run without losses and stolen sessions, every accepted invocation that has ended and was not
      overwritten is printed with its own entry and duration if that passes the threshold, once the ring is
      drained; and with losses too no exit is printed twice. */
  lemma {:induction false} RunPrints(threshold: nat, run: seq<Action>)
    requires After(threshold, run).Some? && !Misled(threshold, run)
    ensures var s := After(threshold, run).value;
            var printed := HandleAll(s.user, threshold, s.kernel.ring).printed;
            && Once(printed)
            && (s.lossless ==>
                  forall sid {:trigger s.owner[sid]} ::
                    sid in s.owner && s.owner[sid] in s.exited && sid !in s.overwritten ==>
                    Reported(s, threshold, s.owner[sid], printed))
  {
    hide HandleAll, Once, Reported;
    RunComplete(threshold, run);
    RunInStep(threshold, run);
    var s := After(threshold, run).value;
    forall sid | sid in s.owner && s.owner[sid] in s.exited
      ensures sid !in s.kernel.kmap.Values
    {
      EndedClosed(s, sid);
    }
  }

  /** An invocation that has ended has no open session. */
  lemma {:induction false} EndedClosed(s: System, sid: u64)
    requires PairedRunning(s) && sid in s.owner && s.owner[sid] in s.exited
    ensures sid !in s.kernel.kmap.Values
  {
    forall fp | fp in s.kernel.kmap
      ensures s.kernel.kmap[fp] in s.owner && s.owner[s.kernel.kmap[fp]] !in s.exited
    {
      assert Holds(s, fp);
    }
  }

  /** The same as an invariant, for sessions that are neither open nor overwritten. */
  lemma {:induction false} RunComplete(threshold: nat, run: seq<Action>)
    requires After(threshold, run).Some? && !Misled(threshold, run)
    ensures Complete(After(threshold, run).value, threshold)
  {
    hide Paired, Act, Steals, Complete, InStep, PairedRunning;
    if run == [] {
      assert Complete(Start, threshold) by { NothingYet(threshold); }
    } else {
      var front, a := run[..|run| - 1], run[|run| - 1];
      RunComplete(threshold, front);
      RunPaired(threshold, front);
      RunInStep(threshold, front);
      var s := After(threshold, front).value;
      match a
      case Enter(_, _, _, _, _, _) => EnterComplete(s, threshold, a);
      case Leave(_, _, _) => LeaveComplete(s, threshold, a);
      case Deliver => DeliverComplete(s, threshold);
    }
  }

  lemma {:induction false} NothingYet(threshold: nat)
    ensures Complete(Start, threshold)
  {
  }

  lemma {:induction false} DeliverComplete(s: System, threshold: nat)
    requires Complete(s, threshold) && s.kernel.ring != []
    ensures Complete(Act(s, threshold, Deliver), threshold)
  {
    hide HandleEvent, Once, Elapsed;
  }

  /** Two invocations under one frame, of which the filters refuse the inner one. */
  const Stolen: seq<Action> :=
    [Enter(8, 1, 5, 100, true, false), Enter(8, 2, 6, 200, false, false), Action.Leave(8, 300, false), Deliver, Deliver]
  const OuterExit: Action := Action.Leave(8, 400, false)

  /** The states of that run. */
  const Outer: System :=
    System(Kernel(map[8 := 5], [EntryEvent(5, 100, 1)]), User(map[], []), map[8 := [1]], map[5 := 1], map[1 := 100], map[], {}, true)
  const Inner: System := Outer.(running := map[8 := [1, 2]], entered := map[1 := 100, 2 := 200])
  const Taken: System :=
    Inner.(kernel := Kernel(map[], [EntryEvent(5, 100, 1), ExitEvent(4, 300, 2)]), running := map[8 := [1]], exited := map[2 := 300])
  const Opened: System :=
    Taken.(kernel := Kernel(map[], [ExitEvent(4, 300, 2)]), user := User(map[5 := Session(100, 1)], []))
  const Paid: System := Taken.(kernel := Kernel(map[], []), user := User(map[], [Printed(2, 1, 200)]))

  lemma {:induction false} StolenStates()
    ensures Enabled(Start, Stolen[0]) && Act(Start, 0, Stolen[0]) == Outer
    ensures Enabled(Outer, Stolen[1]) && Act(Outer, 0, Stolen[1]) == Inner
    ensures Enabled(Inner, Stolen[2]) && Act(Inner, 0, Stolen[2]) == Taken && Steals(Inner, Stolen[2])
  {
    assert Under(Start, 8) == [] && Under(Outer, 8) == [1] && Under(Inner, 8) == [1, 2];
    assert [] + [1] == [1] && [1] + [2] == [1, 2] && [1, 2][..1] == [1];
  }

  lemma {:induction false} StolenDelivered()
    ensures Enabled(Taken, Deliver) && Act(Taken, 0, Deliver) == Opened
    ensures Enabled(Opened, Deliver) && Act(Opened, 0, Deliver) == Paid
    ensures Enabled(Paid, OuterExit) && Act(Paid, 0, OuterExit).kernel == Kernel(map[], [])
    ensures Act(Paid, 0, OuterExit).user == Paid.user
  {
    assert Under(Paid, 8) == [1];
  }

  lemma {:induction false} NextIs(threshold: nat, run: seq<Action>, a: Action, s: System)
    requires After(threshold, run) == Some(s) && Enabled(s, a)
    ensures After(threshold, run + [a]) == Some(Act(s, threshold, a))
    ensures Misled(threshold, run + [a]) <==> Misled(threshold, run) || (Steals(s, a) && !a.dropped)
  {
    hide Act, Enabled;
    assert (run + [a])[..|run|] == run;
  }

  /** The exit of the inner one is printed with the entry of the outer one, and the exit of the outer one,
      which finds no session, never. */
  lemma {:induction false} StolenPair()
    ensures Misled(0, Stolen) && After(0, Stolen) == Some(Paid)
    ensures Paid.user.printed == [Printed(2, 1, 200)]
    ensures After(0, Stolen + [OuterExit]).Some?
    ensures var s := After(0, Stolen + [OuterExit]).value; s.user == Paid.user && s.kernel == Kernel(map[], [])
  {
    hide Act, Enabled, Steals;
    StolenStates();
    StolenDelivered();
    NextIs(0, [], Stolen[0], Start);
    NextIs(0, [] + [Stolen[0]], Stolen[1], Outer);
    NextIs(0, [] + [Stolen[0]] + [Stolen[1]], Stolen[2], Inner);
    NextIs(0, [] + [Stolen[0]] + [Stolen[1]] + [Stolen[2]], Deliver, Taken);
    NextIs(0, [] + [Stolen[0]] + [Stolen[1]] + [Stolen[2]] + [Deliver], Deliver, Opened);
    assert [] + [Stolen[0]] + [Stolen[1]] + [Stolen[2]] + [Deliver] + [Deliver] == Stolen;
    NextIs(0, Stolen, OuterExit, Paid);
  }

  /** Some entry of the run found another traced invocation under its frame. */
  predicate Shares(threshold: nat, run: seq<Action>) {
    if run == [] then false
    else
      Shares(threshold, run[..|run| - 1]) ||
      match After(threshold, run[..|run| - 1])
      case None => false
      case Some(s) => var a := run[|run| - 1]; a.Enter? && Under(s, a.fp) != []
  }

  /** As long as every caller frame runs one traced invocation at a time, nothing is stolen. */
  lemma {:induction false} AloneNotMisled(threshold: nat, run: seq<Action>)
    requires After(threshold, run).Some? && !Shares(threshold, run)
    ensures !Misled(threshold, run)
    ensures forall fp :: |Under(After(threshold, run).value, fp)| <= 1
  {
    hide Act, Enabled, Steals, Under;
    if run != [] {
      var front, a := run[..|run| - 1], run[|run| - 1];
      AloneNotMisled(threshold, front);
      RunInStep(threshold, front);
      AloneStep(After(threshold, front).value, threshold, a);
    } else {
      assert forall fp :: Under(Start, fp) == [] by { NothingUnder(); }
    }
  }

  lemma {:induction false} NothingUnder()
    ensures forall fp :: Under(Start, fp) == []
  {
  }

  lemma {:induction false} AloneStep(s: System, threshold: nat, a: Action)
    requires PairedRunning(s) && Enabled(s, a) && !(a.Enter? && Under(s, a.fp) != [])
    requires forall fp :: |Under(s, fp)| <= 1
    ensures !Steals(s, a)
    ensures forall fp :: |Under(Act(s, threshold, a), fp)| <= 1
  {
    if a.Leave? && a.fp in s.kernel.kmap {
      assert Holds(s, a.fp);
    }
    hide PairedRunning, Stamp;
    forall fp
      ensures |Under(Act(s, threshold, a), fp)| <= 1
    {
      assert |Under(s, fp)| <= 1;
    }
  }
}
