/** What C's typing says of an expression, on its own: names, enumerators, the coercion of a constant that
    meets a register, the static result of every operator and the type of every lvalue. */
module CTypes {
  import opened Words
  import opened Machine
  import opened Types
  import opened Operators
  import opened Faithful

  // Names and constants ----------------------------------------------------------------------------

  /** The three constants by name, a variable, or else the name of an enumerator. */
  function CName(cfg: Config, text: string): Shape
    requires |cfg.vars| == |cfg.tys|
  {
    if text == "true" then SNum(1)
    else if text == "false" || text == "NULL" then SNum(0)
    else if text in cfg.vars then SReg(cfg.tys[IndexOf(cfg.vars, text)], None)
    else SEnum(text)
  }

  /** The value of a name; an enumerator has none until it meets an operand of its type. */
  function CNameValue(cfg: Config, text: string, args: seq<u64>): u64
    requires |cfg.vars| == |cfg.tys| <= |args|
  {
    if text == "true" then 1
    else if text == "false" || text == "NULL" then 0
    else if text in cfg.vars then args[IndexOf(cfg.vars, text)]
    else 0
  }

  /** Integers, enumerations, pointers and arrays can be operands. */
  predicate CNumeric(t: Ty) {
    match Underlying(t)
    case Int(_) | Enum(_, _) | Pointer(_) | Array(_, _) => true
    case _ => false
  }

  /** The first enumerator of that name, found from the back. */
  function Enumerator(values: seq<(string, int)>, name: string): Option<i64> {
    if values == [] then None
    else
      var n := |values| - 1;
      match Enumerator(values[..n], name)
      case Some(v) => Some(v)
      case None => if values[n].0 == name then Some(Int64(values[n].1)) else None
  }

  predicate FirstNamed(values: seq<(string, int)>, name: string, i: int) {
    0 <= i < |values| && values[i].0 == name && forall j :: 0 <= j < i ==> values[j].0 != name
  }

  function CEnumValue(t: Ty, name: string): Option<i64> {
    match Underlying(t)
    case Enum(_, values) => Enumerator(values, name)
    case _ => None
  }

  /** A constant next to an operand of that type: modulo 2^bits for a bitfield, modulo 2^(8k) for k of 1, 2
      or 4 bytes, and as it is otherwise. */
  function CFit(spec: Spec, n: i64, ty: Ty, field: Option<Field>): i64 {
    match field
    case Some(Field(_, _, bits, _)) =>
      if bits == 0 then CFitSize(n, SizeOf(spec, ty))
      else if bits >= 64 then n
      else
        Pow2Monotone(bits, 63);
        Pow2Values();
        n % Pow2(bits)
    case None => CFitSize(n, SizeOf(spec, ty))
  }

  function CFitSize(n: i64, size: Option<nat>): i64 {
    match size
    case Some(1) => n % 256
    case Some(2) => n % 65536
    case Some(4) => n % 4294967296
    case _ => n
  }

  /** Operands as they meet: a constant or an enumerator takes the type of the other operand. */
  function CCoerce(spec: Spec, a: Shape, b: Shape): Option<(Shape, Shape)> {
    match (a, b)
    case (SReg(t, _), SReg(u, _)) => if CNumeric(t) && CNumeric(u) then Some((a, b)) else None
    case (SReg(t, f), SNum(n)) => if CNumeric(t) then Some((a, SNum(CFit(spec, n, t, f)))) else None
    case (SNum(n), SReg(u, g)) => if CNumeric(u) then Some((SNum(CFit(spec, n, u, g)), b)) else None
    case (SReg(t, f), SEnum(name)) =>
      (match CEnumValue(t, name)
       case Some(n) => Some((a, SNum(CFit(spec, n, t, f))))
       case None => None)
    case (SEnum(name), SReg(u, g)) =>
      (match CEnumValue(u, name)
       case Some(n) => Some((SNum(CFit(spec, n, u, g)), b))
       case None => None)
    case _ => Some((a, b))
  }

  // Results of operators -----------------------------------------------------------------------------

  /** A constant operand that decides the result whatever the other one is. */
  function CAbsorbed(op: BinOp, a: Shape, b: Shape): Option<i64> {
    match op
    case OAndAnd => if a == SNum(0) || b == SNum(0) then Some(0) else None
    case OOrOr => if (a.SNum? && a.n != 0) || (b.SNum? && b.n != 0) then Some(1) else None
    case OMul => if a == SNum(0) || b == SNum(0) then Some(0) else None
    case OLsh | ORsh | OMod => if a == SNum(0) then Some(0) else None
    case _ => None
  }

  /** What is pointed to has no size. */
  predicate CUnsized(spec: Spec, t: Ty) {
    match Underlying(t)
    case Pointer(u) => SizeOrZero(spec, u) == 0 && !Underlying(u).Void?
    case Array(u, _) => SizeOrZero(spec, u) == 0
    case _ => false
  }

  /** A zero divisor, a negative shift count, arithmetic on a pointer to something without a size, and a
      constant minus a pointer are refused. */
  predicate CRefused(spec: Spec, op: BinOp, a: Shape, b: Shape) {
    match op
    case ODiv | OMod => b == SNum(0)
    case OLsh | ORsh => b.SNum? && b.n < 0
    case OAdd =>
      || (a.SReg? && b.SNum? && b.n != 0 && CUnsized(spec, a.ty))
      || (a.SNum? && a.n != 0 && b.SReg? && CUnsized(spec, b.ty))
    case OSub =>
      || (a.SReg? && b.SNum? && b.n != 0 && Underlying(a.ty).Array? && CUnsized(spec, a.ty))
      || (a.SNum? && IsPtr(b))
    case _ => false
  }

  predicate IsTruth(op: BinOp) {
    match op
    case OAndAnd | OOrOr | OEq | ONe | OGt | OGe | OLt | OLe => true
    case _ => false
  }

  /** The static result of an operator on coerced operands. Truth values are ints, a difference of pointers is
      a long, pointer arithmetic gives the pointer, and otherwise the type is that of the left operand, or
      of the right one beside a constant. */
  function CResult(spec: Spec, op: BinOp, a: Shape, b: Shape): Option<Shape> {
    if a.SEnum? || b.SEnum? || CRefused(spec, op, a, b) then None
    else if a.SNum? && b.SNum? then Some(SNum(Int64(CConst(op, a.n, b.n))))
    else if CAbsorbed(op, a, b).Some? then Some(SNum(CAbsorbed(op, a, b).value))
    else if IsTruth(op) then Some(SReg(Int(4), None))
    else if op == OSub && IsPtr(a) && IsPtr(b) then Some(SReg(Int(8), None))
    else if a.SReg? && !(op == OAdd && IsPtr(b)) then Some(SReg(a.ty, None))
    else if b.SReg? then Some(SReg(b.ty, None))
    else None
  }

  /** Unary operators on a constant, as a signed number. */
  function CConstUn(op: UnOp, n: i64): int {
    match op
    case UMinus => 0 - n
    case UNot => if n == 0 then 1 else 0
    case UPreDec => n - 1
    case UPreInc => n + 1
    case UTwid => -1 - n
  }

  function CUnResult(op: UnOp, a: Shape): Option<Shape> {
    match a
    case SEnum(_) => None
    case SNum(n) => Some(SNum(Int64(CConstUn(op, n))))
    case SReg(t, _) =>
      if op != UMinus && !CNumeric(t) then None
      else Some(SReg(if op == UNot then Int(4) else t, None))
  }

  predicate COperand(a: Shape) {
    match a
    case SReg(t, _) => CNumeric(t)
    case SNum(_) => true
    case SEnum(_) => true
  }

  /** `?:` has the type of its arms, or is the chosen arm when the condition is a constant. */
  function CCondResult(c: Shape, t: Shape, f: Shape): Option<Shape> {
    if !COperand(c) || !COperand(t) || !COperand(f) || c.SEnum? then None
    else if c.SNum? then Some(if c.n != 0 then t else f)
    else if t.SReg? then Some(SReg(t.ty, None))
    else if f.SReg? then Some(SReg(f.ty, None))
    else Some(SReg(Int(8), None))
  }

  function CCastResult(to: Option<Ty>, a: Shape): Option<Shape> {
    match to
    case None => None
    case Some(t) => Some(if a.SEnum? then a else SReg(t, None))
  }

  // Types of lvalues and pointers ----------------------------------------------------------------------

  /** The type of an lvalue or pointer expression, its member if it is one, whether anything has been read or
      computed on the way, and whether it is still a bare number that was cast. */
  datatype Typed = Typed(ty: Ty, field: Option<Field>, stepped: bool, bare: bool)

  function CField(spec: Spec, t: Ty, name: string): Option<Field> {
    match t
    case Aggregate(tag) => if (tag, name) in spec.fields then Some(spec.fields[(tag, name)]) else None
    case _ => None
  }

  predicate IsBits(pt: Typed) {
    match pt.field
    case Some(f) => f.bits > 0
    case None => false
  }

  function MemberType(spec: Spec, pt: Typed, name: string): Option<Typed> {
    var t := Underlying(pt.ty);
    if IsBits(pt) || (!t.Pointer? && !pt.stepped) then None
    else
      match CField(spec, if t.Pointer? then Underlying(t.target) else t, name)
      case None => None
      case Some(f) => Some(Typed(f.ty, if Underlying(f.ty).Array? then None else Some(f), true, false))
  }

  /** Pointer or array plus a constant. */
  function SumType(spec: Spec, pt: Typed): Option<Typed> {
    if IsBits(pt) || pt.bare then None
    else
      match Underlying(pt.ty)
      case Pointer(t) => if SizeOf(spec, t).Some? then Some(Typed(pt.ty, None, true, false)) else None
      case Array(t, _) => if SizeOf(spec, t).Some? then Some(Typed(pt.ty, None, true, false)) else None
      case _ => None
  }

  function IndexType(spec: Spec, pt: Typed): Option<Typed> {
    if IsBits(pt) || pt.bare then None
    else
      match Underlying(pt.ty)
      case Pointer(t) => if SizeOrZero(spec, t) == 0 then None else Some(Typed(t, None, true, false))
      case Array(t, _) => if SizeOrZero(spec, t) == 0 then None else Some(Typed(t, None, true, false))
      case _ => None
  }

  function IndirType(pt: Typed): Option<Typed> {
    if IsBits(pt) then None
    else
      match Underlying(pt.ty)
      case Pointer(t) => Some(Typed(t, None, true, false))
      case _ => None
  }

  /** The type of an lvalue or pointer expression; None where it is no such expression or is refused. */
  function PlaceType(cfg: Config, e: Expr): Option<Typed>
    requires |cfg.vars| == |cfg.tys|
    decreases e, 1
  {
    match e
    case Name(text) =>
      if text in cfg.vars then Some(Typed(cfg.tys[IndexOf(cfg.vars, text)], None, false, false)) else None
    case Dot(arg, field) =>
      (match PlaceType(cfg, arg)
       case None => None
       case Some(pt) => MemberType(cfg.spec, pt, field))
    case Arrow(arg, field) =>
      (match PlaceType(cfg, arg)
       case None => None
       case Some(pt) => MemberType(cfg.spec, pt, field))
    case Bin(OAdd, l, r) =>
      if l.Number? then PlusType(cfg, PlaceType(cfg, r), Int64(l.value))
      else if r.Number? then PlusType(cfg, PlaceType(cfg, l), Int64(r.value))
      else None
    case Bin(OSub, l, r) =>
      (match PlaceType(cfg, l)
       case None => None
       case Some(pt) => if r.Number? then SumType(cfg.spec, pt) else None)
    case Bin(op, _, _) =>
      if op != OAnd && op != OOr then None
      else
        (match CShape(cfg, e)
         case Some(SReg(ty, _)) => Some(Typed(ty, None, false, false))
         case _ => None)
    case Addr(arg) =>
      (match PlaceType(cfg, arg)
       case None => None
       case Some(pt) => if pt.stepped then Some(Typed(Pointer(pt.ty), None, true, false)) else None)
    case Cast(to, arg) =>
      var inner := if arg.Number? then Some(Typed(Void, None, false, true)) else PlaceType(cfg, arg);
      (match (inner, to)
       case (Some(pt), Some(ty)) => Some(Typed(ty, None, pt.stepped, pt.bare))
       case _ => None)
    case Index(arg, index) =>
      (match PlaceType(cfg, arg)
       case None => None
       case Some(pt) => if index.Number? then IndexType(cfg.spec, pt) else None)
    case Indir(arg) =>
      (match PlaceType(cfg, arg)
       case None => None
       case Some(pt) => IndirType(pt))
    case Paren(arg) => PlaceType(cfg, arg)
    case _ => None
  }

  /** Adding no element changes nothing. */
  function PlusType(cfg: Config, pt: Option<Typed>, num: int): Option<Typed> {
    match pt
    case None => None
    case Some(t) => if IsBits(t) then None else if num == 0 then pt else SumType(cfg.spec, t)
  }

  /** The static result of an expression. */
  function CShape(cfg: Config, e: Expr): Option<Shape>
    requires |cfg.vars| == |cfg.tys|
    decreases e, if e.Dot? || e.Arrow? || e.Index? || e.Addr? || e.Indir? then 2 else 0
  {
    match e
    case Name(text) => Some(CName(cfg, text))
    case Number(v) => Some(SNum(Int64(v)))
    case Bin(op, l, r) =>
      (match (CShape(cfg, l), CShape(cfg, r))
       case (Some(a), Some(b)) =>
         (match CCoerce(cfg.spec, a, b)
          case Some((a', b')) => CResult(cfg.spec, op, a', b')
          case None => None)
       case _ => None)
    case Un(op, arg) =>
      (match CShape(cfg, arg)
       case Some(a) => CUnResult(op, a)
       case None => None)
    case Cond(c, t, f) =>
      (match (CShape(cfg, c), CShape(cfg, t), CShape(cfg, f))
       case (Some(a), Some(b), Some(d)) => CCondResult(a, b, d)
       case _ => None)
    case Cast(to, arg) =>
      (match CShape(cfg, arg)
       case Some(a) => CCastResult(to, a)
       case None => None)
    case Paren(arg) => CShape(cfg, arg)
    case Plus(arg) => CShape(cfg, arg)
    case _ =>
      (match PlaceType(cfg, e)
       case None => None
       case Some(pt) => Some(SReg(pt.ty, pt.field)))
  }

  // The compiler's coercion -----------------------------------------------------------------------------

  /** An enumerator has the value of the first one of its name. */
  lemma {:induction false} EnumeratorIff(values: seq<(string, int)>, name: string)
    ensures Enumerator(values, name) == None <==> forall i :: 0 <= i < |values| ==> values[i].0 != name
    ensures forall i :: FirstNamed(values, name, i) ==> Enumerator(values, name) == Some(Int64(values[i].1))
  {
    if values != [] {
      var n := |values| - 1;
      EnumeratorIff(values[..n], name);
      forall i | FirstNamed(values, name, i)
        ensures Enumerator(values, name) == Some(Int64(values[i].1))
      {
        if i < n {
          assert FirstNamed(values[..n], name, i);
        }
      }
    }
  }

  lemma {:induction false} FindsFirst(values: seq<(string, int)>, name: string)
    ensures FindEnum(values, name) == None <==> forall i :: 0 <= i < |values| ==> values[i].0 != name
    ensures FindEnum(values, name).Some? ==> exists i :: FirstNamed(values, name, i) && FindEnum(values, name) == Some(Int64(values[i].1))
  {
    if values != [] {
      var rest := values[1..];
      assert forall i :: 1 <= i < |values| ==> values[i] == rest[i - 1];
      FindsFirst(rest, name);
      if values[0].0 == name {
        assert FirstNamed(values, name, 0);
      } else if FindEnum(values, name).Some? {
        var i :| FirstNamed(rest, name, i) && FindEnum(rest, name) == Some(Int64(rest[i].1));
        assert FirstNamed(values, name, i + 1);
      }
    }
  }

  lemma {:induction false} EnumsAgree(t: Ty, name: string)
    ensures ExtractEnum(t, name) == CEnumValue(t, name)
  {
    if Underlying(t).Enum? {
      EnumeratorIff(Underlying(t).values, name);
      FindsFirst(Underlying(t).values, name);
    }
  }

  lemma {:induction false} FitAgrees(spec: Spec, n: i64, ty: Ty, field: Option<Field>)
    ensures AdjustNum(spec, n, SReg(ty, field)) == CFit(spec, n, ty, field)
  {
    if field.Some? && 0 < field.value.bits < 64 {
      Pow2Monotone(field.value.bits, 63);
      Pow2Values();
    }
  }

  /** What the compiler does to operands before an operator is the coercion, on all operands. */
  lemma {:induction false} CoerceAgrees(spec: Spec, a: Shape, b: Shape)
    ensures PreHandle(spec, a, b) == CCoerce(spec, a, b)
  {
    hide AdjustNum, ExtractEnum, CFit, CEnumValue;
    match (a, b)
    case (SReg(t, f), SNum(n)) => FitAgrees(spec, n, t, f);
    case (SNum(n), SReg(u, g)) => FitAgrees(spec, n, u, g);
    case (SReg(t, f), SEnum(name)) =>
      EnumsAgree(t, name);
      EnumNumeric(t, name);
      if CEnumValue(t, name).Some? {
        FitAgrees(spec, CEnumValue(t, name).value, t, f);
      }
    case (SEnum(name), SReg(u, g)) =>
      EnumsAgree(u, name);
      EnumNumeric(u, name);
      if CEnumValue(u, name).Some? {
        FitAgrees(spec, CEnumValue(u, name).value, u, g);
      }
    case (SNum(n), SNum(m)) => FitsAlone(spec, n, b); FitsAlone(spec, m, a);
    case (SNum(n), SEnum(_)) => FitsAlone(spec, n, b);
    case (SEnum(_), SNum(m)) => FitsAlone(spec, m, a);
    case _ =>
  }

  lemma {:induction false} EnumNumeric(t: Ty, name: string)
    ensures CEnumValue(t, name).Some? ==> CNumeric(t)
  {
  }

  lemma {:induction false} FitsAlone(spec: Spec, n: i64, other: Shape)
    requires !other.SReg?
    ensures AdjustNum(spec, n, other) == n
  {
  }
}
