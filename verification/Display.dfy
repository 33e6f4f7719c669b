/** What the user sees of every requested expression, told from the request, the type and the value alone, and
    that it is what the generated function and the reader of its records come to. */
module Display {
  import opened Words
  import opened Machine
  import opened Types
  import opened Chains
  import opened Codegen
  import opened Correctness
  import opened Buffers
  import opened Records

  /** The expression that is evaluated: what is dereferenced at the top is read by the record. */
  function Evaluated(req: Request): Expr {
    if req.Plain? && req.e.Indir? then req.e.arg else req.e
  }

  /** An integer or an enumeration. */
  predicate IsNumber(t: Ty) {
    match Underlying(t)
    case Int(_) | Enum(_, _) => true
    case _ => false
  }

  /** The value is shown as it is, and for a pointer to a number so is what it points to. */
  predicate NumberShown(ty: Ty, v: u64, mem: Memory, s: Shown) {
    match Underlying(ty)
    case Pointer(t) => s == Numeric(v, if IsNumber(t) && v != 0 then Load(mem, v, 8) else 0)
    case _ => s == Numeric(v, 0)
  }

  /** What is shown of a request whose expression has type `ty` and value `res`: nothing when a null pointer was
      met; for a built-in its bytes or text at the offset; for `*x` the bytes of what is pointed to; for a
      char array of n elements up to n - 1 characters; for a `const char *` up to 63; otherwise the number. A
      null pointer that would be followed to show it shows nothing either. */
  ghost predicate Displays(spec: Spec, req: Request, ty: Ty, res: Res, mem: Memory, s: Shown) {
    match res
    case Null => s == Nothing
    case Val(v) =>
      match req
      case Buffer(_, off, size, str) =>
        if v == 0 then s == Nothing
        else if str then s.Text? && TextAt(mem, Wrap(v + Int32(off)), size, s.s)
        else s == Raw(ReadBytes(mem, Wrap(v + Int32(off)), size))
      case Sampled(_) => s == Point(LeBytes(v, 8))
      case Plain(e, text) =>
        if e.Indir? then
          if v == 0 then s == Nothing
          else Underlying(ty).Pointer? && s == Raw(ReadBytes(mem, v, SizeOrZero(spec, Underlying(ty).target)))
        else if text then
          match Underlying(ty)
          case Array(_, n) => s.Text? && TextAt(mem, v, n, s.s)
          case _ => if v == 0 then s == Nothing else s.Text? && TextAt(mem, v, 64, s.s)
        else NumberShown(ty, v, mem, s)
  }

  /** The requests that are accepted, by the type and member of their value. */
  predicate Displayable(spec: Spec, req: Request, ty: Ty, field: Option<Field>) {
    var bits := if field.Some? then field.value.bits else 0;
    match req
    case Buffer(_, _, _, _) => bits == 0 && (Underlying(ty).Pointer? || Underlying(ty).Array?) && SizeOf(spec, ty).Some?
    case Sampled(_) => bits == 0 && Underlying(ty).Int? && 0 < SizeOrZero(spec, ty) <= 8
    case Plain(e, text) =>
      if e.Indir? then bits == 0 && Underlying(ty).Pointer? && SizeOrZero(spec, Underlying(ty).target) > 0
      else if text then SizeOf(spec, ty).Some?
      else bits <= 64 && 0 < SizeOrZero(spec, ty) <= 8
  }

  /** The bytes of the record in front of its flag. */
  function Occupied(spec: Spec, req: Request, ty: Ty): nat {
    match req
    case Buffer(_, _, size, _) => size
    case Sampled(_) => 8
    case Plain(e, text) =>
      match Underlying(ty)
      case Array(_, n) => if text && !e.Indir? then n else 8
      case Pointer(t) => if e.Indir? then SizeOrZero(spec, t) else if text then 64 else if IsNumber(t) then 16 else 8
      case _ => if text then 64 else 8
  }

  /** The layout of a record exists for exactly those requests, and what is read back shows the value; the
      layouts that the reader does not step over are those of sampled values. */
  lemma {:induction false} LayoutShows(spec: Spec, req: Request, v: Value, res: Res, mem: Memory)
    ensures LayoutOf(spec, req, v).Some? <==> v.VReg? && Displayable(spec, req, v.ty, v.mem)
    ensures LayoutOf(spec, req, v).Some? ==>
              && Displays(spec, req, v.ty, res, mem, Expected(LayoutOf(spec, req, v).value, res, mem))
              && (LayoutOf(spec, req, v).value.Sample? <==> req.Sampled?)
              && RecordSize(LayoutOf(spec, req, v).value) == Occupied(spec, req, v.ty) + 1
  {
    hide NullTerminated, ReadStr, ReadBytes, LeBytes, Load, TextAt;
    if LayoutOf(spec, req, v).Some? && res.Val? {
      match LayoutOf(spec, req, v).value
      case TextOf(n, _) => TextShown(mem, res.v, n);
      case Block(off, n, str) => TextShown(mem, Wrap(res.v + Int32(off)), n);
      case _ =>
    }
  }

  /** A request is accepted exactly when its expression compiles to a register of a type that can be shown. */
  lemma {:induction false} AcceptedIff(cfg: Config, req: Request, offset: nat, target: Label)
    requires |cfg.vars| == |cfg.tys|
    ensures var o := Compile(cfg, Evaluated(req), OutputUsed);
            CompileOutput(cfg, req, offset, target).Some? <==>
            o.Some? && o.value.val.VReg? && Displayable(cfg.spec, req, o.value.val.ty, o.value.val.mem)
  {
    hide Compile, LayoutOf, OutputCode, Displayable;
    if Compile(cfg, Evaluated(req), OutputUsed).Some? {
      LayoutShows(cfg.spec, req, Compile(cfg, Evaluated(req), OutputUsed).value.val, Null, map[]);
    }
  }

  /** What the user sees of a request in an environment. */
  ghost predicate ShownFor(cfg: Config, req: Request, env: Env, s: Shown)
    requires ValidConfig(cfg) && ValidEnv(cfg, env)
  {
    match ShapeOf(cfg, Evaluated(req))
    case Some(SReg(ty, _)) => Displays(cfg.spec, req, ty, Actual(cfg, Evaluated(req), env), env.mem, s)
    case _ => false
  }

  lemma {:induction false} OneShown(cfg: Config, req: Request, offset: nat, target: Label, env: Env)
    requires ValidConfig(cfg) && ValidEnv(cfg, env) && CompileOutput(cfg, req, offset, target).Some?
    ensures var l := CompileOutput(cfg, req, offset, target).value.layout;
            && ShownFor(cfg, req, env, Expected(l, Actual(cfg, Evaluated(req), env), env.mem))
            && (l.Sample? <==> req.Sampled?)
  {
    hide Compile, LayoutOf, OutputCode, Displays, Displayable, Expected, Actual, ShapeOf;
    CompileShape(cfg, Evaluated(req), OutputUsed);
    LayoutShows(cfg.spec, req, Compile(cfg, Evaluated(req), OutputUsed).value.val, Actual(cfg, Evaluated(req), env), env.mem);
  }

  /** Every request has its record, in order. */
  lemma {:induction false} AllShown(cfg: Config, reqs: seq<Request>, offset: nat, target: Label, env: Env)
    requires ValidConfig(cfg) && ValidEnv(cfg, env) && CompileOutputs(cfg, reqs, offset, target).Some?
    ensures |Layouts(CompileOutputs(cfg, reqs, offset, target).value)| == |reqs|
    ensures forall i :: 0 <= i < |reqs| ==>
              var l := Layouts(CompileOutputs(cfg, reqs, offset, target).value)[i];
              && ShownFor(cfg, reqs[i], env, Expected(l, Results(cfg, reqs, env)[i], env.mem))
              && (l.Sample? <==> reqs[i].Sampled?)
    decreases |reqs|
  {
    hide CompileOutput, ShownFor, Expected, Actual, Evaluated;
    if reqs != [] {
      OneShown(cfg, reqs[0], offset, target, env);
      SubjectIs(reqs[0]);
      AllShown(cfg, reqs[1..], offset + RecordSize(CompileOutput(cfg, reqs[0], offset, target).value.layout), target + 1, env);
    }
  }

  lemma {:induction false} SubjectIs(req: Request)
    ensures Subject(req) == Evaluated(req)
  {
  }

  lemma {:induction false} ExpectedAt(ls: seq<Layout>, rs: seq<Res>, mem: Memory, n: nat)
    requires n <= |ls| == |rs|
    ensures |ExpectedAll(ls, rs, mem, n)| == n
    ensures forall i :: 0 <= i < n ==> ExpectedAll(ls, rs, mem, n)[i] == Expected(ls[i], rs[i], mem)
  {
    hide Expected;
    if n > 0 {
      ExpectedAt(ls, rs, mem, n - 1);
    }
  }

  /** The whole way from the requests to what the user sees: when at most the last one is sampled, the run
      returns and the reader shows every request what its type and its value ask for. */
  lemma {:induction false} RecordsShown(cfg: Config, reqs: seq<Request>, target: Label, env: Env, st: State)
    requires ValidConfig(cfg) && ValidEnv(cfg, env) && cfg.mode != ModeDirect
    requires forall i :: 0 <= i < |reqs| ==> Supported(cfg, reqs[i])
    requires forall i :: 0 <= i < |reqs| - 1 ==> !reqs[i].Sampled?
    requires CompileOutputs(cfg, reqs, 0, target).Some? && OutputCalled(st, env)
    requires TotalSize(Layouts(CompileOutputs(cfg, reqs, 0, target).value)) <= MaxOffset
    requires Present(st.buf, 0, TotalSize(Layouts(CompileOutputs(cfg, reqs, 0, target).value)))
    ensures var outs := CompileOutputs(cfg, reqs, 0, target).value;
            var p, size := OutputProgram(outs, target), TotalSize(Layouts(outs));
            var o := Exec(p.insns, p.labels, 0, st);
            && o.Return? && Present(o.st.buf, 0, size)
            && match ReadRecords(Layouts(outs), |Layouts(outs)|, Bytes(o.st.buf, 0, size))
               case None => false
               case Some((shown, _)) =>
                 |shown| == |reqs| && forall i :: 0 <= i < |reqs| ==> ShownFor(cfg, reqs[i], env, shown[i])
  {
    hide Exec, CompileOutputs, OutputProgram, ReadRecords, ShownFor, Expected, ExpectedAll, AllRecorded, Results, Layouts;
    RecordsRoundTrip(cfg, reqs, target, env, st);
    AllShown(cfg, reqs, 0, target, env);
    var ls, rs := Layouts(CompileOutputs(cfg, reqs, 0, target).value), Results(cfg, reqs, env);
    ExpectedAt(ls, rs, env.mem, |ls|);
  }
}
