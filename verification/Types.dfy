/** Type information the compiler consults, the C expressions it accepts, and its options. */
module Types {
  import opened Words
  import opened Machine

  /** A BTF type; struct and union bodies are looked up by tag, so a type may refer to itself. */
  datatype Ty =
    | Int(bytes: nat)
    | Enum(bytes: nat, values: seq<(string, int)>)
    | Pointer(target: Ty)
    | Array(elem: Ty, count: nat)
    | Aggregate(tag: string)
    | Void
    | Proto
    | Named(of: Ty)

  /** Strips typedefs and qualifiers. */
  function Underlying(t: Ty): (u: Ty)
    ensures !u.Named?
  {
    if t.Named? then Underlying(t.of) else t
  }

  type BitOffset = n: nat | n < 8

  /** A struct or union member: its byte offset, and for a bitfield its width and the bit offset
      within its first byte. */
  datatype Field = Field(ty: Ty, off: nat, bits: nat, delta: BitOffset)

  datatype Spec = Spec(
    fields: map<(string, string), Field>,
    sizes: map<string, nat>,
    castIds: map<string, int>)

  function SizeOf(spec: Spec, t: Ty): Option<nat> {
    match t
    case Int(n) => Some(n)
    case Enum(n, _) => Some(n)
    case Pointer(_) => Some(8)
    case Array(e, n) => (match SizeOf(spec, e) case Some(s) => Some(s * n) case None => None)
    case Aggregate(tag) => if tag in spec.sizes then Some(spec.sizes[tag]) else None
    case Void => Some(0)
    case Proto => None
    case Named(u) => SizeOf(spec, u)
  }

  lemma {:induction false} SizeOfUnderlying(spec: Spec, t: Ty)
    ensures SizeOf(spec, t) == SizeOf(spec, Underlying(t))
  {
    if t.Named? {
      SizeOfUnderlying(spec, t.of);
    }
  }

  /** The size, or zero for a type that has none. */
  function SizeOrZero(spec: Spec, t: Ty): nat {
    match SizeOf(spec, t)
    case Some(s) => s
    case None => 0
  }

  predicate CanCalculate(t: Ty) {
    var u := Underlying(t);
    u.Int? || u.Enum? || u.Pointer? || u.Array?
  }

  predicate IsBitfield(mem: Option<Field>) {
    mem.Some? && mem.value.bits != 0
  }

  datatype BinOp =
    | OAdd | OAnd | OAndAnd | ODiv | OEq | OGt | OGe | OLsh | OLt | OLe
    | OMod | OMul | ONe | OOr | OOrOr | ORsh | OSub | OXor

  datatype UnOp = UMinus | UNot | UPreDec | UPreInc | UTwid

  /** Parsed expressions. A cast carries its resolved target type, or None when lookup fails. */
  datatype Expr =
    | Name(text: string)
    | Number(value: u64)
    | Bin(bop: BinOp, left: Expr, right: Expr)
    | Un(uop: UnOp, arg: Expr)
    | Cond(cond: Expr, yes: Expr, no: Expr)
    | Cast(to: Option<Ty>, arg: Expr)
    | Paren(arg: Expr)
    | Plus(arg: Expr)
    | Dot(arg: Expr, field: string)
    | Arrow(arg: Expr, field: string)
    | Index(arg: Expr, index: Expr)
    | Addr(arg: Expr)
    | Indir(arg: Expr)

  predicate IsAccess(e: Expr) {
    e.Dot? || e.Arrow? || e.Index? || e.Addr? || e.Indir?
  }

  datatype Mode = ModeProbe | ModeCore | ModeDirect

  /** What does not change while one expression is compiled. */
  datatype Config = Config(
    spec: Spec,
    vars: seq<string>,
    tys: seq<Ty>,
    mode: Mode,
    fastcall: bool,
    reserved: int)

  /** The reserved stack is whole dwords, and with six spill slots fits the 512 bytes of a frame. */
  predicate ValidReserve(reserved: int) {
    reserved % 8 == 0 && 8 <= reserved <= 464
  }

  /** One type per variable, and offsets into the argument array that fit a load. */
  predicate ValidConfig(cfg: Config) {
    |cfg.vars| == |cfg.tys| && |cfg.vars| <= 4095 && ValidReserve(cfg.reserved)
  }

  /** The rounding of the option by the constructor. */
  function ReservedStack(requested: int): (r: int)
    ensures r % 8 == 0 && r >= 8 && (requested > 0 ==> requested <= r < requested + 8)
  {
    if requested <= 0 then 8 else (requested + 7) / 8 * 8
  }

  function IndexOf(names: seq<string>, name: string): (i: int)
    ensures -1 <= i < |names|
    ensures i >= 0 ==> names[i] == name && forall j :: 0 <= j < i ==> names[j] != name
    ensures i == -1 ==> name !in names
  {
    if names == [] then -1
    else if names[0] == name then 0
    else
      var i := IndexOf(names[1..], name);
      if i == -1 then -1 else i + 1
  }

  // Static results of expressions -----------------------------------------------------------------

  /** What is known of a value at compile time. */
  datatype Shape =
    | SNum(n: i64)
    | SReg(ty: Ty, mem: Option<Field>)
    | SEnum(name: string)

  /** The value an expression has at run time, or the null exit. */
  datatype Res = Null | Val(v: u64)

  /** What the code sees of its caller: the argument array and kernel memory. */
  datatype Env = Env(args: seq<u64>, mem: Memory)
}
