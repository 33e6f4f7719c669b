/** What expressions mean in C, over byte-addressed memory and unsigned 64-bit words, and the
    fragment on which the compiler computes that meaning. */
module CLang {
  import opened Words
  import opened Machine
  import opened Types
  import opened Chains
  import opened Operators
  import opened Faithful
  import opened CTypes
  import opened Codegen
  import opened Correctness
  import opened Cuts

  // Places -----------------------------------------------------------------------------------------

  /** An lvalue, or a pointer value that is already known. */
  datatype Place =
    | At(addr: u64, ty: Ty, field: Option<Field>)
    | Temp(v: u64, ty: Ty)

  datatype PlaceRes = NoPlace | Has(place: Place)

  predicate IsArray(t: Ty) {
    Underlying(t).Array?
  }

  /** The pointer value of a place that is used further: an array is its address, a pointer is read
      from memory, and a null pointer read from memory ends the evaluation. */
  function Following(mem: Memory, p: Place): Res {
    match p
    case Temp(v, _) => Val(v)
    case At(addr, ty, _) =>
      if IsArray(ty) then Val(addr)
      else if Load(mem, addr, 8) == 0 then Null
      else Val(Load(mem, addr, 8))
  }

  function AtMember(addr: u64, f: Field): Place {
    At(Wrap(addr + f.off), f.ty, if IsArray(f.ty) then None else Some(f))
  }

  /** Member selection: through a pointer, or within a structure that is an lvalue. */
  function CMember(cfg: Config, mem: Memory, p: Place, name: string): PlaceRes {
    var t := Underlying(p.ty);
    match CField(cfg.spec, if t.Pointer? then Underlying(t.target) else t, name)
    case None => NoPlace
    case Some(f) =>
      if t.Pointer? then
        match Following(mem, p)
        case Null => NoPlace
        case Val(v) => Has(AtMember(v, f))
      else if p.At? then Has(AtMember(p.addr, f))
      else NoPlace
  }

  /** The pointee or element type. */
  function Target(t: Ty): Ty {
    match Underlying(t)
    case Pointer(u) => u
    case Array(u, _) => u
    case _ => Void
  }

  /** Pointer plus a number of elements; adding no element leaves the place as it is. */
  function CPointerAdd(cfg: Config, mem: Memory, p: Place, num: int): PlaceRes {
    match Following(mem, p)
    case Null => NoPlace
    case Val(v) =>
      var size := if Underlying(Target(p.ty)).Void? then 1 else SizeOrZero(cfg.spec, Target(p.ty));
      Has(Temp(Wrap(v + size * num), if IsArray(p.ty) then Pointer(Target(p.ty)) else p.ty))
  }

  function CIndex(cfg: Config, mem: Memory, p: Place, index: int): PlaceRes {
    match Following(mem, p)
    case Null => NoPlace
    case Val(v) => Has(At(Wrap(v + index * SizeOrZero(cfg.spec, Target(p.ty))), Target(p.ty), None))
  }

  function CIndir(mem: Memory, p: Place): PlaceRes {
    match Following(mem, p)
    case Null => NoPlace
    case Val(v) => Has(At(v, Target(p.ty), None))
  }

  function CAddress(p: Place): PlaceRes {
    if p.At? then Has(Temp(p.addr, Pointer(p.ty))) else NoPlace
  }

  /** A cast of a pointer that is still in memory stays there; an array decays first. */
  function CCast(p: Place, to: Ty): Place {
    match p
    case Temp(v, _) => Temp(v, to)
    case At(addr, ty, _) => if IsArray(ty) then Temp(addr, to) else At(addr, to, None)
  }

  /** The place an lvalue or pointer expression denotes. */
  function CPlace(cfg: Config, e: Expr, env: Env): PlaceRes
    requires ValidConfig(cfg) && ValidEnv(cfg, env)
    decreases e, 1
  {
    match e
    case Name(text) =>
      var i := IndexOf(cfg.vars, text);
      if i == -1 then NoPlace else Has(Temp(env.args[i], cfg.tys[i]))
    case Dot(arg, field) =>
      (match CPlace(cfg, arg, env)
       case NoPlace => NoPlace
       case Has(p) => CMember(cfg, env.mem, p, field))
    case Arrow(arg, field) =>
      (match CPlace(cfg, arg, env)
       case NoPlace => NoPlace
       case Has(p) => CMember(cfg, env.mem, p, field))
    case Bin(OAdd, l, r) =>
      if l.Number? then CPlus(cfg, env.mem, CPlace(cfg, r, env), Int64(l.value))
      else if r.Number? then CPlus(cfg, env.mem, CPlace(cfg, l, env), Int64(r.value))
      else NoPlace
    case Bin(OSub, l, r) =>
      if r.Number? then
        match CPlace(cfg, l, env)
        case NoPlace => NoPlace
        case Has(p) => CPointerAdd(cfg, env.mem, p, 0 - Int64(r.value))
      else NoPlace
    case Bin(_, _, _) =>
      (match (CValueOf(cfg, e, env), CShape(cfg, e))
       case (Val(x), Some(SReg(ty, _))) => Has(Temp(x, ty))
       case _ => NoPlace)
    case Addr(arg) =>
      (match CPlace(cfg, arg, env)
       case NoPlace => NoPlace
       case Has(p) => CAddress(p))
    case Cast(to, arg) =>
      var inner := if arg.Number? then Has(Temp(arg.value, Void)) else CPlace(cfg, arg, env);
      (match (inner, to)
       case (Has(p), Some(ty)) => Has(CCast(p, ty))
       case _ => NoPlace)
    case Index(arg, index) =>
      (match CPlace(cfg, arg, env)
       case NoPlace => NoPlace
       case Has(p) => if index.Number? then CIndex(cfg, env.mem, p, Int64(index.value)) else NoPlace)
    case Indir(arg) =>
      (match CPlace(cfg, arg, env)
       case NoPlace => NoPlace
       case Has(p) => CIndir(env.mem, p))
    case Paren(arg) => CPlace(cfg, arg, env)
    case _ => NoPlace
  }

  function CPlus(cfg: Config, mem: Memory, p: PlaceRes, num: int): PlaceRes {
    match p
    case NoPlace => NoPlace
    case Has(place) => if num == 0 then p else CPointerAdd(cfg, mem, place, num)
  }

  /** The value of a place: a bitfield, the address of an array, or a number of its own size. */
  function CRead(spec: Spec, mem: Memory, p: Place): u64 {
    match p
    case Temp(v, _) => v
    case At(addr, ty, field) =>
      if IsBitfield(field) then Extract(field.value, Load(mem, addr, 8))
      else if IsArray(ty) then addr
      else
        match SizeOf(spec, ty)
        case Some(n) => Load(mem, addr, if n == 1 || n == 2 || n == 4 then n else 8)
        case None => 0
  }

  /** The value of an expression in C. As in the compiled code all operands are evaluated, and a constant
      meets another operand in the type of that one. */
  function CValueOf(cfg: Config, e: Expr, env: Env): Res
    requires ValidConfig(cfg) && ValidEnv(cfg, env)
    decreases e, if IsAccess(e) then 2 else 0
  {
    match e
    case Name(text) => Val(CNameValue(cfg, text, env.args))
    case Number(v) => Val(v)
    case Bin(op, l, r) =>
      (match (CValueOf(cfg, l, env), CValueOf(cfg, r, env), CShape(cfg, l), CShape(cfg, r))
       case (Val(x), Val(y), Some(a), Some(b)) =>
         (match CCoerce(cfg.spec, a, b)
          case Some((a', b')) => Val(CMeaning(cfg.spec, op, a', b', x, y))
          case None => Null)
       case _ => Null)
    case Un(op, arg) =>
      (match (CValueOf(cfg, arg, env), CShape(cfg, arg))
       case (Val(x), Some(a)) => Val(if a.SReg? then CMeaningUn(cfg.spec, op, a, x) else CUnWord(op, x))
       case _ => Null)
    case Cond(c, t, f) =>
      (match (CValueOf(cfg, c, env), CValueOf(cfg, t, env), CValueOf(cfg, f, env))
       case (Val(x), Val(y), Val(z)) => Val(if x != 0 then y else z)
       case _ => Null)
    case Cast(_, arg) => CValueOf(cfg, arg, env)
    case Paren(arg) => CValueOf(cfg, arg, env)
    case Plus(arg) => CValueOf(cfg, arg, env)
    case _ =>
      (match CPlace(cfg, e, env)
       case NoPlace => Null
       case Has(p) => Val(CRead(cfg.spec, env.mem, p)))
  }

  /** Unary operators on a constant, as a 64-bit word. */
  function CUnWord(op: UnOp, x: u64): u64 {
    match op
    case UMinus => Wrap(TWO64 - x)
    case UNot => if x == 0 then 1 else 0
    case UPreDec => Wrap(x - 1)
    case UPreInc => Wrap(x + 1)
    case UTwid => TWO64 - 1 - x
  }

  /** Sizes are what places take: an array ends where its elements do, a pointer is as wide as the value that is
      followed, and a name has the size of its type. */
  lemma {:induction false} PlacesSized(cfg: Config, mem: Memory, addr: u64, elem: Ty, count: nat, name: Ty)
    ensures SizeOf(cfg.spec, Array(elem, count)).Some? <==> SizeOf(cfg.spec, elem).Some?
    ensures SizeOf(cfg.spec, elem).Some? ==>
              CIndex(cfg, mem, At(addr, Array(elem, count), None), count) ==
              Has(At(Wrap(addr + SizeOf(cfg.spec, Array(elem, count)).value), elem, None))
    ensures Load(mem, addr, 8) != 0 ==>
              Following(mem, At(addr, Pointer(elem), None)) == Val(CRead(cfg.spec, mem, At(addr, Pointer(elem), None)))
    ensures SizeOf(cfg.spec, name) == SizeOf(cfg.spec, Underlying(name))
  {
    hide Load;
    SizeOfUnderlying(cfg.spec, name);
    assert count * SizeOrZero(cfg.spec, elem) == SizeOrZero(cfg.spec, elem) * count;
  }

  // The fragment -----------------------------------------------------------------------------------

  /** Expressions that denote an object in memory. */
  predicate IsLvalue(e: Expr) {
    match e
    case Paren(arg) => IsLvalue(arg)
    case _ => e.Dot? || e.Arrow? || e.Index? || e.Indir?
  }

  /** Lvalue and pointer expressions that are lowered to their C meaning: `.` on a structure lvalue,
      `->` on a pointer, `&` on an lvalue that is no bitfield; indexing and dereferencing give no
      array; what is cast is an array or eight bytes wide, and the target is no array. */
  predicate PlaceOk(cfg: Config, e: Expr)
    requires |cfg.vars| == |cfg.tys|
    decreases e, 1
  {
    match e
    case Name(_) => true
    case Dot(arg, _) => PlaceOk(cfg, arg) && IsLvalue(arg) && !HasType(cfg, arg, Kind.IsPointer)
    case Arrow(arg, _) => PlaceOk(cfg, arg) && HasType(cfg, arg, Kind.IsPointer)
    case Bin(OAdd, l, r) =>
      if l.Number? then PlaceOk(cfg, r) && !HasType(cfg, r, Kind.OfNothing)
      else PlaceOk(cfg, l) && !HasType(cfg, l, Kind.OfNothing)
    case Bin(OSub, l, r) => PlaceOk(cfg, l) && !HasType(cfg, l, Kind.OfNothing)
    case Bin(_, _, _) => Supported(cfg, e) && SameBase(cfg, e)
    case Addr(arg) => PlaceOk(cfg, arg) && IsLvalue(arg) && !HasType(cfg, arg, Kind.Bits)
    case Cast(to, arg) =>
      && (to.Some? ==> !IsArray(to.value))
      && (if arg.Number? then arg.value != 0 && Exact(arg.value)
          else PlaceOk(cfg, arg) && HasType(cfg, arg, Kind.Wide))
    case Index(arg, _) => PlaceOk(cfg, arg) && !HasType(cfg, arg, Kind.OfArrays)
    case Indir(arg) => PlaceOk(cfg, arg) && !HasType(cfg, arg, Kind.OfArrays)
    case Paren(arg) => PlaceOk(cfg, arg)
    case _ => false
  }

  datatype Kind = IsPointer | Bits | Wide | OfArrays | OfNothing

  /** Static facts of an lvalue or pointer expression. */
  predicate HasType(cfg: Config, e: Expr, k: Kind)
    requires |cfg.vars| == |cfg.tys|
  {
    match PlaceType(cfg, e)
    case None => false
    case Some(pt) =>
      match k
      case IsPointer => Underlying(pt.ty).Pointer?
      case Bits => IsBits(pt)
      case Wide => IsArray(pt.ty) || SizeOf(cfg.spec, pt.ty) == Some(8)
      case OfArrays => IsArray(Target(pt.ty))
      case OfNothing => IsArray(pt.ty) && Underlying(Target(pt.ty)).Void?
  }

  /** A computed start has the type that C gives it. */
  predicate SameBase(cfg: Config, e: Expr)
    requires |cfg.vars| == |cfg.tys|
  {
    match (ShapeOf(cfg, e), CShape(cfg, e))
    case (Some(SReg(t, _)), Some(SReg(u, _))) => t == u
    case _ => true
  }

  /** One step of pointer arithmetic is the same for both types. */
  predicate SameStep(t: Ty, u: Ty) {
    || (!IsPointerLike(t) && !IsPointerLike(u))
    || Underlying(t) == Underlying(u)
  }

  /** The compiler's view of a coerced operand has the effect of C's: the same constant, and for addition and
      subtraction the same step. */
  predicate Alike(op: BinOp, a: Shape, c: Shape) {
    match (a, c)
    case (SNum(n), SNum(m)) => n == m
    case (SEnum(x), SEnum(y)) => x == y
    case (SReg(t, _), SReg(u, _)) => op == OAdd || op == OSub ==> SameStep(t, u)
    case _ => false
  }

  /** An operator computes its C meaning on its operands. */
  predicate BinOk(cfg: Config, op: BinOp, l: Expr, r: Expr)
    requires |cfg.vars| == |cfg.tys|
  {
    match (ShapeOf(cfg, l), ShapeOf(cfg, r), CShape(cfg, l), CShape(cfg, r))
    case (Some(a), Some(b), Some(c), Some(d)) =>
      (match (PreHandle(cfg.spec, a, b), CCoerce(cfg.spec, c, d))
       case (Some((a', b')), Some((c', d'))) =>
         Alike(op, a', c') && Alike(op, b', d') && CTyped(op, c', d') && FaithfulBin(cfg.spec, op, a', b')
       case (None, None) => true
       case _ => false)
    case _ => true
  }

  predicate UnOk(cfg: Config, op: UnOp, arg: Expr)
    requires |cfg.vars| == |cfg.tys|
  {
    match (ShapeOf(cfg, arg), CShape(cfg, arg))
    case (Some(SReg(t, f)), Some(SReg(u, _))) =>
      FaithfulUn(cfg.spec, op, SReg(t, f)) && (op == UPreInc || op == UPreDec ==> SameStep(t, u))
    case _ => true
  }

  /** The offsets of a chain survive the 32-bit immediate field. */
  predicate ExactOffsets(steps: seq<Offset>) {
    forall i :: 0 <= i < |steps| ==> Exact(steps[i].off)
  }

  /** The final cut gives the value: an exact bitfield within what is read, an array whose size is
      none that would be cut, or a number of 1, 2, 4 or 8 bytes. */
  predicate CutOk(cfg: Config, a: Access) {
    if IsBitfield(a.mem) then
      ExactBitfield(a.mem.value) && a.mem.value.delta + a.mem.value.bits <= 8 * LastWidth(cfg, a.steps)
    else if IsArray(a.ty) then
      var n := SizeOf(cfg.spec, a.ty);
      n != Some(1) && n != Some(2) && n != Some(4)
    else
      var n := SizeOf(cfg.spec, a.ty);
      n == Some(1) || n == Some(2) || n == Some(4) || n == Some(8)
  }

  predicate AccessOk(cfg: Config, e: Expr)
    requires |cfg.vars| == |cfg.tys|
  {
    match Lower(cfg, e)
    case None => true
    case Some(a) => ChainFaithful(cfg, a.steps) && ExactOffsets(a.steps) && CutOk(cfg, a)
  }

  /** The fragment on which compiled code computes the C meaning. */
  predicate Supported(cfg: Config, e: Expr)
    requires |cfg.vars| == |cfg.tys|
    decreases e, if IsAccess(e) then 2 else 0
  {
    match e
    case Name(_) => true
    case Number(_) => true
    case Bin(op, l, r) =>
      Supported(cfg, l) && Supported(cfg, r) && BinOk(cfg, op, l, r)
    case Un(op, arg) => Supported(cfg, arg) && UnOk(cfg, op, arg)
    case Cond(c, t, f) =>
      && Supported(cfg, c) && Supported(cfg, t) && Supported(cfg, f)
      && NotEnum(cfg, c) && NotEnum(cfg, t) && NotEnum(cfg, f)
      && (SomeConst(cfg, c) || (ExactIfConst(cfg, t) && ExactIfConst(cfg, f)))
    case Cast(_, arg) => Supported(cfg, arg) && ExactIfConst(cfg, arg)
    case Paren(arg) => Supported(cfg, arg)
    case Plus(arg) => Supported(cfg, arg)
    case _ => PlaceOk(cfg, e) && AccessOk(cfg, e)
  }

  predicate SomeConst(cfg: Config, e: Expr)
    requires |cfg.vars| == |cfg.tys|
  {
    match ShapeOf(cfg, e)
    case Some(SNum(_)) => true
    case _ => false
  }

  predicate ExactIfConst(cfg: Config, e: Expr)
    requires |cfg.vars| == |cfg.tys|
  {
    match ShapeOf(cfg, e)
    case Some(SNum(n)) => Exact(n)
    case _ => true
  }

  /** No read that the value of an expression ends with straddles the end of mapped memory. */
  predicate ReadsWhole(cfg: Config, e: Expr, env: Env)
    requires ValidConfig(cfg) && ValidEnv(cfg, env)
  {
    match e
    case Name(_) => true
    case Number(_) => true
    case Bin(_, l, r) => ReadsWhole(cfg, l, env) && ReadsWhole(cfg, r, env)
    case Un(_, arg) => ReadsWhole(cfg, arg, env)
    case Cond(c, t, f) => ReadsWhole(cfg, c, env) && ReadsWhole(cfg, t, env) && ReadsWhole(cfg, f, env)
    case Cast(_, arg) => ReadsWhole(cfg, arg, env)
    case Paren(arg) => ReadsWhole(cfg, arg, env)
    case Plus(arg) => ReadsWhole(cfg, arg, env)
    case _ =>
      && (match Lower(cfg, e)
          case Some(a) => a.base.FromExpr? ==> ReadsWhole(cfg, a.base.e, env)
          case None => true)
      && (match CPlace(cfg, e, env)
          case Has(At(addr, _, _)) => WholeRead(env.mem, addr, 1)
          case _ => true)
  }

  // The compiler's types are C's -----------------------------------------------------------------------

  lemma {:induction false} NamesAgree(cfg: Config, text: string)
    requires |cfg.vars| == |cfg.tys|
    ensures NameShape(cfg, text) == CName(cfg, text)
  {
  }

  /** Both refuse the expression, or both give it the same constant, the same enumerator, or a register of the
      same type or at least of types that can be operands. */
  predicate Agree(s: Option<Shape>, c: Option<Shape>) {
    match (s, c)
    case (None, None) => true
    case (Some(SNum(n)), Some(SNum(m))) => n == m
    case (Some(SEnum(x)), Some(SEnum(y))) => x == y
    case (Some(SReg(t, _)), Some(SReg(u, _))) => t == u || (CNumeric(t) && CNumeric(u))
    case _ => false
  }

  lemma {:induction false} CalculateIs(t: Ty)
    ensures CanCalculate(t) <==> CNumeric(t)
  {
  }

  lemma {:induction false} ScalesAgree(spec: Spec, t: Ty, u: Ty)
    requires SameStep(t, u)
    ensures AddScale(spec, t) == None <==> CUnsized(spec, u)
    ensures SubScale(spec, t) == None <==> Underlying(u).Array? && CUnsized(spec, u)
    ensures IsPtr(SReg(t, None)) <==> IsPtr(SReg(u, None))
    ensures CScale(spec, SReg(t, None)) == CScale(spec, SReg(u, None))
  {
  }

  /** On operands of like effect, both refuse the operator or both accept it, with like results. */
  lemma {:induction false} ResultsAgree(spec: Spec, op: BinOp, a: Shape, b: Shape, c: Shape, d: Shape)
    requires Alike(op, a, c) && Alike(op, b, d) && FaithfulBin(spec, op, a, b)
    requires (a.SReg? ==> CNumeric(a.ty) && CNumeric(c.ty)) && (b.SReg? ==> CNumeric(b.ty) && CNumeric(d.ty))
    ensures Agree(match BinPlan(spec, op, a, b) case None => None case Some(plan) => Some(PlanShape(plan, a, b)),
                  CResult(spec, op, c, d))
  {
    if a.SNum? && b.SNum? {
      hide FoldConst, CConst;
      FoldMeans(op, a.n, b.n);
    } else if op == OAdd || op == OSub {
      SumsAgree(spec, op, a, b, c, d);
    } else if a.SReg? && b.SReg? {
      hide FoldConst, CConst, AddScale, SubScale, CUnsized, IsPtr, IsIntOrEnum;
    } else if a.SNum? {
      LeftConstAgrees(spec, op, a, b, c, d);
    } else {
      hide FoldConst, CConst, AddScale, SubScale, CUnsized, IsPtr, IsIntOrEnum;
    }
  }

  lemma {:induction false} LeftConstAgrees(spec: Spec, op: BinOp, a: Shape, b: Shape, c: Shape, d: Shape)
    requires Alike(op, a, c) && Alike(op, b, d) && FaithfulBin(spec, op, a, b)
    requires a.SNum? && !b.SNum? && op != OAdd && op != OSub && (b.SReg? ==> CNumeric(b.ty) && CNumeric(d.ty))
    ensures Agree(match BinPlan(spec, op, a, b) case None => None case Some(plan) => Some(PlanShape(plan, a, b)),
                  CResult(spec, op, c, d))
  {
    hide FoldConst, CConst, AddScale, SubScale, CUnsized, IsPtr, IsIntOrEnum;
  }

  lemma {:induction false} SumsAgree(spec: Spec, op: BinOp, a: Shape, b: Shape, c: Shape, d: Shape)
    requires op == OAdd || op == OSub
    requires Alike(op, a, c) && Alike(op, b, d) && !(a.SNum? && b.SNum?)
    requires (a.SReg? ==> CNumeric(a.ty) && CNumeric(c.ty)) && (b.SReg? ==> CNumeric(b.ty) && CNumeric(d.ty))
    ensures Agree(match BinPlan(spec, op, a, b) case None => None case Some(plan) => Some(PlanShape(plan, a, b)),
                  CResult(spec, op, c, d))
  {
    hide FoldConst, CConst, AddScale, SubScale, CUnsized;
    if a.SReg? {
      ScalesAgree(spec, a.ty, c.ty);
    }
    if b.SReg? {
      ScalesAgree(spec, b.ty, d.ty);
    }
  }

  /** The lowered access has the type of the expression, or both are refused. */
  predicate TypedAs(l: Option<Access>, p: Option<Typed>) {
    match (l, p)
    case (None, None) => true
    case (Some(a), Some(pt)) =>
      && a.ty == pt.ty && a.mem == pt.field && WellIndexed(a)
      && (pt.stepped <==> a.steps != [])
      && (pt.bare <==> a.steps == [] && a.last == 0)
    case _ => false
  }

  lemma {:induction false} MemberTyped(cfg: Config, a: Access, pt: Typed, name: string)
    requires TypedAs(Some(a), Some(pt))
    ensures TypedAs(LowerMember(cfg, a, name), MemberType(cfg.spec, pt, name))
  {
  }

  lemma {:induction false} SumTyped(cfg: Config, a: Access, pt: Typed, num: int)
    requires TypedAs(Some(a), Some(pt))
    ensures TypedAs(LowerAdd(cfg, a, num), SumType(cfg.spec, pt))
    ensures -0x8000_0000_0000_0000 <= num < 0x8000_0000_0000_0000 ==>
              TypedAs(LowerPlus(cfg, Some(a), num), PlusType(cfg, Some(pt), num))
  {
  }

  lemma {:induction false} StepTyped(cfg: Config, a: Access, pt: Typed, index: i64, to: Ty)
    requires TypedAs(Some(a), Some(pt))
    ensures TypedAs(LowerIndex(cfg, a, index), IndexType(cfg.spec, pt))
    ensures TypedAs(LowerIndir(a), IndirType(pt))
    ensures TypedAs(LowerAddr(a), if pt.stepped then Some(Typed(Pointer(pt.ty), None, true, false)) else None)
    ensures TypedAs(Some(LowerCast(a, to)), Some(Typed(to, None, pt.stepped, pt.bare)))
  {
  }

  /** Lvalue and pointer expressions are lowered exactly when they have a type, and to that type. */
  lemma {:induction false} LowerTyped(cfg: Config, e: Expr)
    requires |cfg.vars| == |cfg.tys| && PlaceOk(cfg, e)
    ensures TypedAs(Lower(cfg, e), PlaceType(cfg, e))
    decreases e, 1
  {
    hide LowerMember, LowerAdd, LowerIndex, LowerIndir, LowerAddr, LowerCast, LowerPlus, MemberType, SumType, IndexType,
         IndirType, PlusType, Supported, ShapeOf, CShape;
    match e
    case Name(text) =>
    case Dot(arg, field) =>
      LowerTyped(cfg, arg);
      if PlaceType(cfg, arg).Some? {
        MemberTyped(cfg, Lower(cfg, arg).value, PlaceType(cfg, arg).value, field);
      }
    case Arrow(arg, field) =>
      LowerTyped(cfg, arg);
      if PlaceType(cfg, arg).Some? {
        MemberTyped(cfg, Lower(cfg, arg).value, PlaceType(cfg, arg).value, field);
      }
    case Bin(OAdd, l, r) =>
      if l.Number? || r.Number? {
        var (arg, num) := if l.Number? then (r, Int64(l.value)) else (l, Int64(r.value));
        LowerTyped(cfg, arg);
        if PlaceType(cfg, arg).Some? {
          SumTyped(cfg, Lower(cfg, arg).value, PlaceType(cfg, arg).value, num);
        } else {
          NothingAdded(cfg, num);
        }
      }
    case Bin(OSub, l, r) =>
      LowerTyped(cfg, l);
      if PlaceType(cfg, l).Some? && r.Number? {
        SumTyped(cfg, Lower(cfg, l).value, PlaceType(cfg, l).value, 0 - Int64(r.value));
      }
    case Bin(_, _, _) => ShapesAgree(cfg, e);
    case Addr(arg) =>
      LowerTyped(cfg, arg);
      if PlaceType(cfg, arg).Some? {
        StepTyped(cfg, Lower(cfg, arg).value, PlaceType(cfg, arg).value, 0, Void);
      }
    case Cast(to, arg) =>
      if arg.Number? {
        StepTyped(cfg, Access(FromConst(arg.value), Void, None, 0, []), Typed(Void, None, false, true), 0,
                  if to.Some? then to.value else Void);
      } else {
        LowerTyped(cfg, arg);
        if PlaceType(cfg, arg).Some? {
          StepTyped(cfg, Lower(cfg, arg).value, PlaceType(cfg, arg).value, 0, if to.Some? then to.value else Void);
        }
      }
    case Index(arg, index) =>
      LowerTyped(cfg, arg);
      if PlaceType(cfg, arg).Some? && index.Number? {
        StepTyped(cfg, Lower(cfg, arg).value, PlaceType(cfg, arg).value, Int64(index.value), Void);
      }
    case Indir(arg) =>
      LowerTyped(cfg, arg);
      if PlaceType(cfg, arg).Some? {
        StepTyped(cfg, Lower(cfg, arg).value, PlaceType(cfg, arg).value, 0, Void);
      }
    case Paren(arg) => LowerTyped(cfg, arg);
  }

  lemma {:induction false} NothingAdded(cfg: Config, num: i64)
    ensures LowerPlus(cfg, None, num) == None && PlusType(cfg, None, num) == None
  {
  }

  /** On the fragment the compiler accepts exactly the expressions that C's typing accepts, and gives them
      constants, enumerators and registers where C does. */
  lemma {:induction false} ShapesAgree(cfg: Config, e: Expr)
    requires |cfg.vars| == |cfg.tys| && Supported(cfg, e)
    ensures Agree(ShapeOf(cfg, e), CShape(cfg, e))
    decreases e, if IsAccess(e) then 2 else 0
  {
    hide PreHandle, CCoerce, BinPlan, CResult, Lower, PlaceType, UnPlan, CUnResult, FaithfulBin, ChainFaithful, CutOk,
         ExactOffsets, PlaceOk;
    match e
    case Name(text) => NamesAgree(cfg, text);
    case Number(_) =>
    case Bin(op, l, r) =>
      ShapesAgree(cfg, l);
      ShapesAgree(cfg, r);
      if ShapeOf(cfg, l).Some? && ShapeOf(cfg, r).Some? {
        BinAgrees(cfg, op, l, r);
      }
    case Un(op, arg) =>
      ShapesAgree(cfg, arg);
      if ShapeOf(cfg, arg).Some? {
        UnAgrees(op, ShapeOf(cfg, arg).value, CShape(cfg, arg).value);
      }
    case Cond(c, t, f) =>
      ShapesAgree(cfg, c);
      ShapesAgree(cfg, t);
      ShapesAgree(cfg, f);
      if ShapeOf(cfg, c).Some? && ShapeOf(cfg, t).Some? && ShapeOf(cfg, f).Some? {
        CondAgrees(ShapeOf(cfg, c).value, ShapeOf(cfg, t).value, ShapeOf(cfg, f).value,
                   CShape(cfg, c).value, CShape(cfg, t).value, CShape(cfg, f).value);
      }
    case Cast(_, arg) => ShapesAgree(cfg, arg);
    case Paren(arg) => ShapesAgree(cfg, arg);
    case Plus(arg) => ShapesAgree(cfg, arg);
    case _ =>
      LowerTyped(cfg, e);
      if Lower(cfg, e).Some? {
        FaithfulCompiles(cfg, Lower(cfg, e).value.steps);
      }
  }

  lemma {:induction false} FaithfulCompiles(cfg: Config, steps: seq<Offset>)
    requires ChainFaithful(cfg, steps)
    ensures ChainCompiles(cfg, steps)
  {
  }

  lemma {:induction false} BinAgrees(cfg: Config, op: BinOp, l: Expr, r: Expr)
    requires |cfg.vars| == |cfg.tys| && BinOk(cfg, op, l, r)
    requires ShapeOf(cfg, l).Some? && ShapeOf(cfg, r).Some? && CShape(cfg, l).Some? && CShape(cfg, r).Some?
    ensures Agree(ShapeOf(cfg, Bin(op, l, r)), CShape(cfg, Bin(op, l, r)))
  {
    hide BinPlan, CResult, FaithfulBin;
    var a, b, c, d := ShapeOf(cfg, l).value, ShapeOf(cfg, r).value, CShape(cfg, l).value, CShape(cfg, r).value;
    CoerceAgrees(cfg.spec, a, b);
    hide PreHandle;
    match (CCoerce(cfg.spec, a, b), CCoerce(cfg.spec, c, d))
    case (Some((a', b')), Some((c', d'))) => ResultsAgree(cfg.spec, op, a', b', c', d');
    case _ =>
  }

  lemma {:induction false} UnAgrees(op: UnOp, a: Shape, c: Shape)
    requires Agree(Some(a), Some(c))
    ensures Agree(UnShape(op, a), CUnResult(op, c))
  {
    if a.SReg? {
      CalculateIs(a.ty);
    }
  }

  lemma {:induction false} CondAgrees(a: Shape, b: Shape, d: Shape, a': Shape, b': Shape, d': Shape)
    requires Agree(Some(a), Some(a')) && Agree(Some(b), Some(b')) && Agree(Some(d), Some(d')) && !a.SEnum?
    ensures Agree(CondShape(a, b, d), CCondResult(a', b', d'))
  {
  }

  // Lowering ---------------------------------------------------------------------------------------

  /** The fold of a chain with the offsets as they are. */
  function FoldExact(mem: Memory, steps: seq<Offset>, n: nat, v: u64): Res
    requires n <= |steps|
  {
    if n == 0 then Val(v)
    else
      match FoldExact(mem, steps, n - 1, v)
      case Null => Null
      case Val(p) =>
        var a := Wrap(p + steps[n - 1].off);
        if steps[n - 1].address then Val(a)
        else if Load(mem, a, 8) == 0 then Null
        else Val(Load(mem, a, 8))
  }

  lemma {:induction false} FoldExactIs(mem: Memory, steps: seq<Offset>, n: nat, v: u64)
    requires n <= |steps| && ExactOffsets(steps)
    ensures FoldExact(mem, steps, n, v) == FoldUse(mem, steps, n, v)
  {
    hide Load;
    if n > 0 {
      FoldExactIs(mem, steps, n - 1, v);
      var r := FoldUse(mem, steps, n - 1, v);
      if r.Val? {
        ExactAdvance(r.v, steps[n - 1].off);
      }
    }
  }

  lemma {:induction false} ExactAdvance(p: u64, off: int)
    requires Exact(off)
    ensures Advance(p, off) == Wrap(p + off)
  {
    WrapAddLeft(p, off);
    WrapAddLeft(p, Int32(off));
  }

  lemma {:induction false} FoldExactPrefix(mem: Memory, s1: seq<Offset>, s2: seq<Offset>, n: nat, v: u64)
    requires n <= |s1| && n <= |s2| && s1[..n] == s2[..n]
    ensures FoldExact(mem, s1, n, v) == FoldExact(mem, s2, n, v)
  {
    if n > 0 {
      assert s1[n - 1] == s1[..n][n - 1] == s2[n - 1];
      assert s1[..n - 1] == s1[..n][..n - 1] == s2[..n - 1];
      FoldExactPrefix(mem, s1, s2, n - 1, v);
    }
  }

  /** A lowered access stands for a place: everything but its last step is the fold so far, and the
      last step is an address exactly when nothing is left to read. */
  ghost predicate Denotes(a: Access, v: u64, mem: Memory, p: Place) {
    && SameType(a.ty, p) && WellIndexed(a)
    && (a.steps != [] ==> FoldExact(mem, a.steps, |a.steps| - 1, v).Val?)
    && match p
       case Temp(x, _) =>
         a.mem == None &&
         (if a.steps == [] then x == v
          else a.steps[a.last].address && LastAddr(a, v, mem) == x)
       case At(addr, ty, field) =>
         && a.steps != [] && LastAddr(a, v, mem) == addr
         && a.mem == field && a.steps[a.last].ty == ty
         && (a.steps[a.last].address <==> IsArray(ty))
         && (IsArray(ty) ==> field == None)
  }

  /** Adding to an array leaves the array type in the lowered access, where C has a pointer. */
  predicate SameType(ty: Ty, p: Place) {
    ty == p.ty || (p.Temp? && IsArray(ty) && p.ty == Pointer(Target(ty)))
  }

  function LastAddr(a: Access, v: u64, mem: Memory): u64
    requires WellIndexed(a) && a.steps != []
    requires FoldExact(mem, a.steps, |a.steps| - 1, v).Val?
  {
    Wrap(FoldExact(mem, a.steps, |a.steps| - 1, v).v + a.steps[a.last].off)
  }

  /** The same for a result that may be the null exit. */
  ghost predicate DenotesRes(a: Access, start: Res, mem: Memory, r: PlaceRes) {
    && WellIndexed(a)
    && match start
       case Null => r == NoPlace
       case Val(v) =>
         match r
         case NoPlace => a.steps != [] && FoldExact(mem, a.steps, |a.steps| - 1, v) == Null
         case Has(p) => Denotes(a, v, mem, p)
  }

  lemma {:induction false} UsedFurther(a: Access, v: u64, mem: Memory, p: Place)
    requires Denotes(a, v, mem, p)
    ensures FoldExact(mem, a.steps, |a.steps|, v) == Following(mem, p)
  {
  }

  /** Appending a step to what a place stands for. */
  lemma {:induction false} Appended(a: Access, o: Offset, v: u64, mem: Memory)
    requires WellIndexed(a)
    ensures var b := AddOffset(a, o);
            && WellIndexed(b) && b.steps[b.last] == o
            && FoldExact(mem, b.steps, |b.steps| - 1, v) == FoldExact(mem, a.steps, |a.steps|, v)
  {
    var b := AddOffset(a, o);
    assert b.steps[..|a.steps|] == a.steps[..|a.steps|];
    FoldExactPrefix(mem, b.steps, a.steps, |a.steps|, v);
  }

  /** Once Null, a chain stays Null. */
  lemma {:induction false} StaysNull(a: Access, v: u64, mem: Memory)
    requires a.steps != [] && FoldExact(mem, a.steps, |a.steps| - 1, v) == Null
    ensures FoldExact(mem, a.steps, |a.steps|, v) == Null
  {
  }

  /** Replacing the last step keeps the fold before it. */
  lemma {:induction false} Replaced(a: Access, o: Offset, v: u64, mem: Memory)
    requires WellIndexed(a) && a.steps != []
    ensures var s := a.steps[a.last := o];
            FoldExact(mem, s, |s| - 1, v) == FoldExact(mem, a.steps, |a.steps| - 1, v)
  {
    var s := a.steps[a.last := o];
    assert s[..|s| - 1] == a.steps[..|s| - 1];
    FoldExactPrefix(mem, s, a.steps, |s| - 1, v);
  }

  /** A step appended to what `r` stands for, with the value it adds to. */
  lemma {:induction false} AppendedTo(a: Access, o: Offset, start: Res, mem: Memory, r: PlaceRes)
    requires WellIndexed(a) && DenotesRes(a, start, mem, r) && start.Val?
    ensures var b := AddOffset(a, o);
            && WellIndexed(b) && b.steps != [] && b.steps[b.last] == o
            && FoldExact(mem, b.steps, |b.steps| - 1, start.v) ==
               match r case NoPlace => Null case Has(p) => Following(mem, p)
  {
    Appended(a, o, start.v, mem);
    if r.Has? {
      UsedFurther(a, start.v, mem, r.place);
    } else {
      StaysNull(a, start.v, mem);
    }
  }

  /** Marking the last step as an address. */
  lemma {:induction false} Marked(a: Access, v: u64, mem: Memory)
    requires WellIndexed(a) && a.steps != []
    ensures var s := a.steps[a.last := a.steps[a.last].(address := true)];
            FoldExact(mem, s, |s| - 1, v) == FoldExact(mem, a.steps, |a.steps| - 1, v)
  {
    Replaced(a, a.steps[a.last].(address := true), v, mem);
  }

  lemma {:induction false} ArrowDenotes(cfg: Config, a: Access, name: string, start: Res, mem: Memory, r: PlaceRes)
    requires WellIndexed(a) && LowerMember(cfg, a, name).Some? && DenotesRes(a, start, mem, r)
    requires Underlying(a.ty).Pointer?
    ensures DenotesRes(LowerMember(cfg, a, name).value, start, mem,
                       match r case NoPlace => NoPlace case Has(p) => CMember(cfg, mem, p, name))
  {
    hide FoldExact, Following;
    var f := FindField(cfg, Underlying(Underlying(a.ty).target), name).value;
    var o := Offset(f.off, false, f.ty, Some(a.ty), false);
    if start.Val? {
      AppendedTo(a, o, start, mem, r);
      Marked(AddOffset(a, o), start.v, mem);
    }
  }

  lemma {:induction false} DotDenotes(cfg: Config, a: Access, name: string, start: Res, mem: Memory, r: PlaceRes)
    requires WellIndexed(a) && LowerMember(cfg, a, name).Some? && DenotesRes(a, start, mem, r)
    requires !Underlying(a.ty).Pointer? && (r.Has? ==> r.place.At?)
    ensures DenotesRes(LowerMember(cfg, a, name).value, start, mem,
                       match r case NoPlace => NoPlace case Has(p) => CMember(cfg, mem, p, name))
  {
    hide FoldExact, Following;
    var f := FindField(cfg, Underlying(a.ty), name).value;
    if start.Val? {
      var s := a.steps[a.last];
      var o := s.(off := s.off + f.off, ty := f.ty);
      Replaced(a, o, start.v, mem);
      Marked(a.(steps := a.steps[a.last := o]), start.v, mem);
      if r.Has? {
        WrapAddLeft(f.off, FoldExact(mem, a.steps, |a.steps| - 1, start.v).v + s.off);
      }
    }
  }

  /** The step a constant adds. */
  lemma {:induction false} AddStep(cfg: Config, a: Access, num: int) returns (o: Offset)
    requires LowerAdd(cfg, a, num).Some? && !(IsArray(a.ty) && Underlying(Target(a.ty)).Void?)
    ensures LowerAdd(cfg, a, num).value == AddOffset(a, o).(mem := None)
    ensures o.address && o.ty == if IsArray(a.ty) then Pointer(Target(a.ty)) else a.ty
    ensures o.off == (if Underlying(Target(a.ty)).Void? then 1 else SizeOrZero(cfg.spec, Target(a.ty))) * num
  {
    o := LowerAdd(cfg, a, num).value.steps[|a.steps|];
  }

  lemma {:induction false} AddDenotes(cfg: Config, a: Access, num: int, start: Res, mem: Memory, r: PlaceRes)
    requires LowerAdd(cfg, a, num).Some? && DenotesRes(a, start, mem, r)
    requires !(IsArray(a.ty) && Underlying(Target(a.ty)).Void?)
    ensures DenotesRes(LowerAdd(cfg, a, num).value, start, mem,
                       match r case NoPlace => NoPlace case Has(p) => CPointerAdd(cfg, mem, p, num))
  {
    hide FoldExact, Following, Load, SizeOf, LowerAdd;
    var o := AddStep(cfg, a, num);
    if start.Val? {
      AppendedTo(a, o, start, mem, r);
    }
  }

  lemma {:induction false} IndexDenotes(cfg: Config, a: Access, index: i64, start: Res, mem: Memory, r: PlaceRes)
    requires LowerIndex(cfg, a, index).Some? && DenotesRes(a, start, mem, r)
    requires !IsArray(Target(a.ty))
    ensures DenotesRes(LowerIndex(cfg, a, index).value, start, mem,
                       match r case NoPlace => NoPlace case Has(p) => CIndex(cfg, mem, p, index))
  {
    var b := LowerIndex(cfg, a, index).value;
    var o := b.steps[|a.steps|];
    hide FoldExact, Following;
    if start.Val? {
      AppendedTo(a, o, start, mem, r);
    }
  }

  lemma {:induction false} IndirDenotes(a: Access, start: Res, mem: Memory, r: PlaceRes)
    requires LowerIndir(a).Some? && DenotesRes(a, start, mem, r)
    requires !IsArray(Target(a.ty))
    ensures DenotesRes(LowerIndir(a).value, start, mem,
                       match r case NoPlace => NoPlace case Has(p) => CIndir(mem, p))
  {
    hide FoldExact, Following, Load;
    var o := Offset(0, false, Underlying(a.ty).target, Some(a.ty), false);
    if start.Val? {
      AppendedTo(a, o, start, mem, r);
    }
  }

  lemma {:induction false} AddrDenotes(a: Access, start: Res, mem: Memory, r: PlaceRes)
    requires WellIndexed(a) && LowerAddr(a).Some? && DenotesRes(a, start, mem, r)
    requires r.Has? ==> r.place.At?
    ensures DenotesRes(LowerAddr(a).value, start, mem, match r case NoPlace => NoPlace case Has(p) => CAddress(p))
  {
    if start.Val? {
      Replaced(a, a.steps[a.last].(address := true, ty := Pointer(a.ty)), start.v, mem);
    }
  }

  lemma {:induction false} CastDenotes(a: Access, to: Ty, start: Res, mem: Memory, r: PlaceRes)
    requires DenotesRes(a, start, mem, r) && !IsArray(to)
    ensures DenotesRes(LowerCast(a, to), start, mem, match r case NoPlace => NoPlace case Has(p) => Has(CCast(p, to)))
  {
    hide FoldExact, Load;
    if start.Val? && a.steps != [] {
      Replaced(a, a.steps[a.last].(ty := to), start.v, mem);
    }
  }

  /** An lvalue expression denotes an object, never a bare value. */
  lemma {:induction false} LvalueAt(cfg: Config, e: Expr, env: Env)
    requires ValidConfig(cfg) && ValidEnv(cfg, env) && IsLvalue(e)
    ensures CPlace(cfg, e, env).Has? ==> CPlace(cfg, e, env).place.At?
  {
    match e
    case Paren(arg) => LvalueAt(cfg, arg, env);
    case _ =>
  }

  /** The start value of a chain in C. */
  function CStart(cfg: Config, b: Base, env: Env): Res
    requires ValidConfig(cfg) && ValidEnv(cfg, env) && (b.FromArg? ==> b.idx < |cfg.vars|)
  {
    match b
    case FromArg(i) => Val(env.args[i])
    case FromConst(n) => Val(n)
    case FromExpr(e) => CValueOf(cfg, e, env)
  }

  /** Lowering is right: the chain of an lvalue or pointer expression denotes its place, with the
      pending read of `.`, the decay of arrays and the null checks of pointers on the way. */
  lemma {:induction false} LowerMeans(cfg: Config, e: Expr, env: Env)
    requires ValidConfig(cfg) && ValidEnv(cfg, env) && PlaceOk(cfg, e) && Lower(cfg, e).Some?
    ensures var a := Lower(cfg, e).value;
            DenotesRes(a, CStart(cfg, a.base, env), env.mem, CPlace(cfg, e, env))
    decreases e
  {
    hide LowerMember, LowerAdd, LowerIndex, LowerIndir, LowerAddr, LowerCast, CMember, CPointerAdd, CIndex, CIndir;
    hide DenotesRes, Supported, ShapeOf, CValueOf;
    match e
    case Name(text) =>
      assert DenotesRes(Lower(cfg, e).value, Val(env.args[IndexOf(cfg.vars, text)]), env.mem, CPlace(cfg, e, env)) by {
        StartDenotes(Lower(cfg, e).value, env.args[IndexOf(cfg.vars, text)], env.mem);
      }
    case Dot(arg, field) =>
      LowerTyped(cfg, arg);
      LowerMeans(cfg, arg, env);
      LvalueAt(cfg, arg, env);
      var a := Lower(cfg, arg).value;
      LowerKeepsBase(cfg, a, field, 0);
      DotDenotes(cfg, a, field, CStart(cfg, a.base, env), env.mem, CPlace(cfg, arg, env));
    case Arrow(arg, field) =>
      LowerTyped(cfg, arg);
      LowerMeans(cfg, arg, env);
      var a := Lower(cfg, arg).value;
      LowerKeepsBase(cfg, a, field, 0);
      ArrowDenotes(cfg, a, field, CStart(cfg, a.base, env), env.mem, CPlace(cfg, arg, env));
    case Bin(OAdd, l, r) =>
      var (arg, num) := if l.Number? then (r, Int64(l.value)) else (l, Int64(r.value));
      LowerTyped(cfg, arg);
      LowerMeans(cfg, arg, env);
      var a := Lower(cfg, arg).value;
      LowerKeepsBase(cfg, a, "", num);
      if num != 0 {
        AddDenotes(cfg, a, num, CStart(cfg, a.base, env), env.mem, CPlace(cfg, arg, env));
      }
    case Bin(OSub, l, r) =>
      LowerTyped(cfg, l);
      LowerMeans(cfg, l, env);
      var a, num := Lower(cfg, l).value, 0 - Int64(r.value);
      LowerKeepsBase(cfg, a, "", num);
      AddDenotes(cfg, a, num, CStart(cfg, a.base, env), env.mem, CPlace(cfg, l, env));
    case Bin(_, _, _) => ExprBaseDenotes(cfg, e, env);
    case Addr(arg) =>
      LowerMeans(cfg, arg, env);
      LvalueAt(cfg, arg, env);
      var a := Lower(cfg, arg).value;
      LowerKeepsBase(cfg, a, "", 0);
      AddrDenotes(a, CStart(cfg, a.base, env), env.mem, CPlace(cfg, arg, env));
    case Cast(to, arg) =>
      if arg.Number? {
        var a := Access(FromConst(arg.value), Void, None, 0, []);
        StartDenotes(a, arg.value, env.mem);
        LowerKeepsBase(cfg, a, "", 0);
        CastDenotes(a, to.value, Val(arg.value), env.mem, Has(Temp(arg.value, Void)));
      } else {
        LowerMeans(cfg, arg, env);
        var a := Lower(cfg, arg).value;
        LowerKeepsBase(cfg, a, "", 0);
        CastDenotes(a, to.value, CStart(cfg, a.base, env), env.mem, CPlace(cfg, arg, env));
      }
    case Index(arg, index) =>
      LowerTyped(cfg, arg);
      LowerMeans(cfg, arg, env);
      var a, i := Lower(cfg, arg).value, Int64(index.value);
      LowerKeepsBase(cfg, a, "", i);
      IndexDenotes(cfg, a, i, CStart(cfg, a.base, env), env.mem, CPlace(cfg, arg, env));
    case Indir(arg) =>
      LowerTyped(cfg, arg);
      LowerMeans(cfg, arg, env);
      var a := Lower(cfg, arg).value;
      LowerKeepsBase(cfg, a, "", 0);
      IndirDenotes(a, CStart(cfg, a.base, env), env.mem, CPlace(cfg, arg, env));
    case Paren(arg) => LowerMeans(cfg, arg, env);
  }

  lemma {:induction false} StartDenotes(a: Access, v: u64, mem: Memory)
    requires a.steps == [] && a.mem == None && WellIndexed(a)
    ensures DenotesRes(a, Val(v), mem, Has(Temp(v, a.ty)))
  {
  }

  lemma {:induction false} ExprBaseDenotes(cfg: Config, e: Expr, env: Env)
    requires ValidConfig(cfg) && ValidEnv(cfg, env) && PlaceOk(cfg, e)
    requires e.Bin? && e.bop != OAdd && e.bop != OSub && Lower(cfg, e).Some?
    ensures var a := Lower(cfg, e).value;
            DenotesRes(a, CStart(cfg, a.base, env), env.mem, CPlace(cfg, e, env))
  {
    hide CValueOf, ShapeOf, CShape, Supported;
    ShapesAgree(cfg, e);
  }

  lemma {:induction false} LowerKeepsBase(cfg: Config, a: Access, name: string, num: int)
    requires WellIndexed(a)
    ensures LowerMember(cfg, a, name).Some? ==> LowerMember(cfg, a, name).value.base == a.base
    ensures LowerAdd(cfg, a, num).Some? ==> LowerAdd(cfg, a, num).value.base == a.base
    ensures LowerAddr(a).Some? ==> LowerAddr(a).value.base == a.base
    ensures forall to :: LowerCast(a, to).base == a.base
    ensures forall i :: LowerIndex(cfg, a, i).Some? ==> LowerIndex(cfg, a, i).value.base == a.base
    ensures LowerIndir(a).Some? ==> LowerIndir(a).value.base == a.base
  {
  }
}
