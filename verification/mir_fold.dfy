/// Constant folding (src/mir_optimizer.cpp:114-240) against the operations the
/// backend selects (src/codegen_internal.hpp:125-150, 334-360; casts in
/// src/codegen_function.cpp:384-423). The folder works on
/// 64-bit integers, the backend on bit patterns of the type's width.

module ConstantFold {
  // Types are 64 bits wide, or `bool`.

  import opened Mir
  import IL = IntegerLiteral

  const TWO63: int := 0x8000_0000_0000_0000
  const TWO64: int := 0x1_0000_0000_0000_0000

  /// A 64-bit pattern read as a signed number.
  predicate Signed(n: int) { -TWO63 <= n < TWO63 }

  function Wrap(n: int): (r: int)
    ensures Signed(r)
  {
    var m := n % TWO64;
    if m < TWO63 then m else m - TWO64
  }

  lemma WrapSigned(n: int)
    requires Signed(n)
    ensures Wrap(n) == n
  {
  }

  /// The same pattern read as an unsigned number.
  function Unsigned(n: int): (r: nat)
    requires Signed(n)
    ensures r < TWO64
  {
    if n < 0 then n + TWO64 else n
  }

  // ---- arithmetic on patterns ----

  function Magnitude(n: int): nat { if n < 0 then -n else n }

  /// Division that truncates, as C++ and the target divide signed numbers.
  function Quotient(a: int, b: int): int
    requires b != 0
  {
    var q := Magnitude(a) / Magnitude(b);
    if (a < 0) == (b < 0) then q else -q
  }

  function Remainder(a: int, b: int): int
    requires b != 0
  {
    a - b * Quotient(a, b)
  }

  datatype Logic = AndBits | OrBits | XorBits

  /// One bit from two.
  function OnBit(op: Logic, x: nat, y: nat): (r: nat)
    requires x < 2 && y < 2
    ensures r < 2
  {
    match op
    case AndBits => x * y
    case OrBits => if x + y > 0 then 1 else 0
    case XorBits => if x == y then 0 else 1
  }

  /// The lowest `width` bits of two numbers, bit by bit.
  function Combine(op: Logic, m: nat, n: nat, width: nat): nat
    decreases width
  {
    if width == 0 then 0 else 2 * Combine(op, m / 2, n / 2, width - 1) + OnBit(op, m % 2, n % 2)
  }

  function Bitwise(op: Logic, a: int, b: int): (r: int)
    requires Signed(a) && Signed(b)
    ensures Signed(r)
  {
    Wrap(Combine(op, Unsigned(a), Unsigned(b), 64))
  }

  function And(a: int, b: int): (r: int)
    requires Signed(a) && Signed(b)
    ensures Signed(r)
  {
    Bitwise(AndBits, a, b)
  }

  function Or(a: int, b: int): (r: int)
    requires Signed(a) && Signed(b)
    ensures Signed(r)
  {
    Bitwise(OrBits, a, b)
  }

  function Xor(a: int, b: int): (r: int)
    requires Signed(a) && Signed(b)
    ensures Signed(r)
  {
    Bitwise(XorBits, a, b)
  }

  function Power2(k: nat): (p: nat)
    ensures p > 0
  {
    if k == 0 then 1 else 2 * Power2(k - 1)
  }

  function ShiftLeft(a: int, k: nat): int { Wrap(a * Power2(k)) }

  /// Dafny's division rounds down for a positive divisor, as an arithmetic shift does.
  function ShiftRight(a: int, k: nat): int { a / Power2(k) }

  /// All bits flipped; for `bool`, the other truth value.
  function Complement(ty: Ty, a: int): (r: int)
    requires Signed(a)
    ensures Signed(r)
  {
    if ty == BoolTy then (if a == 0 then 1 else 0) else -a - 1
  }

  // ---- the backend ----

  datatype Opcode = Add | Sub | Mul | UDiv | SDiv | URem | SRem | AndOp | OrOp | XorOp | Shl | LShr | AShr

  function ArithmeticOpcode(unsigned: bool, op: string): Opcode {
    if op == "+" then Add
    else if op == "-" then Sub
    else if op == "*" then Mul
    else if op == "/" then (if unsigned then UDiv else SDiv)
    else if op == "%" then (if unsigned then URem else SRem)
    else if op == "&&" || op == "&" then AndOp
    else if op == "||" || op == "|" then OrOp
    else if op == "^" then XorOp
    else if op == "<<" then Shl
    else if op == ">>" then (if unsigned then LShr else AShr)
    else Add
  }

  /// `None` where the target leaves the result undefined.
  function Execute(op: Opcode, a: int, b: int): Option<int>
    requires Signed(a) && Signed(b)
  {
    match op
    case Add => Some(Wrap(a + b))
    case Sub => Some(Wrap(a - b))
    case Mul => Some(Wrap(a * b))
    case UDiv => if b == 0 then None else Some(Wrap(Unsigned(a) / Unsigned(b)))
    case SDiv => if b == 0 || (a == -TWO63 && b == -1) then None else Some(Quotient(a, b))
    case URem => if b == 0 then None else Some(Wrap(Unsigned(a) % Unsigned(b)))
    case SRem => if b == 0 || (a == -TWO63 && b == -1) then None else Some(Remainder(a, b))
    case AndOp => Some(And(a, b))
    case OrOp => Some(Or(a, b))
    case XorOp => Some(Xor(a, b))
    case Shl => if 0 <= b < 64 then Some(ShiftLeft(a, b)) else None
    case LShr => if 0 <= b < 64 then Some(Wrap(ShiftRight(Unsigned(a), b))) else None
    case AShr => if 0 <= b < 64 then Some(ShiftRight(a, b)) else None
  }

  datatype Predicate = Eq | Ne | Ult | Slt | Ule | Sle | Ugt | Sgt | Uge | Sge

  function ComparePredicate(unsigned: bool, op: string): Predicate {
    if op == "==" then Eq
    else if op == "!=" then Ne
    else if op == "<" then (if unsigned then Ult else Slt)
    else if op == "<=" then (if unsigned then Ule else Sle)
    else if op == ">" then (if unsigned then Ugt else Sgt)
    else if unsigned then Uge else Sge
  }

  predicate Test(p: Predicate, a: int, b: int)
    requires Signed(a) && Signed(b)
  {
    match p
    case Eq => a == b
    case Ne => a != b
    case Ult => Unsigned(a) < Unsigned(b)
    case Slt => a < b
    case Ule => Unsigned(a) <= Unsigned(b)
    case Sle => a <= b
    case Ugt => Unsigned(a) > Unsigned(b)
    case Sgt => a > b
    case Uge => Unsigned(a) >= Unsigned(b)
    case Sge => a >= b
  }

  predicate UnsignedTy(ty: Ty) { ty.IntTy? && ty.name in {"u8", "u16", "u32", "u64", "u128", "usize"} }

  /// Types whose values fill the folding width, and `bool`.
  predicate Wide(ty: Ty) { ty == BoolTy || (ty.IntTy? && ty.name in {"i64", "u64", "isize", "usize"}) }

  /// One bit.
  predicate IsBit(n: int) { n == 0 || n == 1 }

  /// Numbers that a register of the type can hold.
  predicate Held(ty: Ty, v: Value) { v.Num? && Signed(v.i) && (ty == BoolTy ==> IsBit(v.i)) }

  /// What a comparison reads in a pattern: `bool` is one bit wide and is not
  /// among the unsigned types, so its `true` reads as -1.
  function Reading(ty: Ty, n: int): int { if ty == BoolTy then -n else n }

  predicate IsFlip(op: string) { op == "!" || op == "~" }

  predicate IsLogical(op: string) { op in {"&&", "||", "&", "|", "^"} }

  /// The type that a cast names as the one it converts from.
  function Named(text: string): Ty { if text == "bool" then BoolTy else IntTy(text) }

  /// The operations that the target is told of: on `bool`, no arithmetic, and no
  /// cast to it.
  predicate Specified(op: Op, ty: Ty, text: string) {
    && Wide(ty)
    && (|| op == ConstInt || op == ConstBool || op == Compare
        || (op == Binary && (ty == BoolTy ==> IsFlip(text) || IsLogical(text)))
        || (op == Cast && ty != BoolTy && Wide(Named(text))))
  }

  /// What the target computes for the operations that can be folded.
  function Target(op: Op, ty: Ty, text: string, vs: seq<Value>): Option<Value> {
    match op
    case ConstInt =>
      (match IL.Meaning(text)
       case None => None
       case Some(n) => if Held(ty, Num(Wrap(n))) then Some(Num(Wrap(n))) else None)
    case ConstBool => if text == "1" then Some(Num(1)) else if text == "0" then Some(Num(0)) else None
    case Binary =>
      if |vs| == 1 && Held(ty, vs[0]) && IsFlip(text) then Some(Num(Complement(ty, vs[0].i)))
      else if |vs| == 2 && Held(ty, vs[0]) && Held(ty, vs[1]) then
        match Execute(ArithmeticOpcode(UnsignedTy(ty), text), vs[0].i, vs[1].i)
        case None => None
        case Some(n) => Some(Num(n))
      else None
    case Compare =>
      if |vs| == 2 && Held(ty, vs[0]) && Held(ty, vs[1]) then
        Some(Num(if Test(ComparePredicate(UnsignedTy(ty), text), Reading(ty, vs[0].i), Reading(ty, vs[1].i)) then 1 else 0))
      else None
    case Cast =>
      // `bitcast` between types of one width, `zext` from `bool`.
      if |vs| == 1 && Held(Named(text), vs[0]) then Some(vs[0]) else None
    case _ => None
  }

  ghost predicate Machine(w: World) {
    forall op: Op, ty: Ty, text: string, vs: seq<Value> ::
      Specified(op, ty, text) ==> w.apply(op, ty, text, vs) == Target(op, ty, text, vs)
  }

  // ---- the pass ----

  /// Digits of a base up to the end of the text, as `strtoll` reads them.
  function Digits(s: string, base: nat, so: nat): Option<nat>
    decreases |s|
  {
    if s == [] then Some(so)
    else match IL.DigitValue(s[0])
      case None => None
      case Some(d) => if d >= base then None else Digits(s[1..], base, so * base + d)
  }

  function Saturate(n: int): (r: int)
    ensures Signed(r)
  {
    if n >= TWO63 then TWO63 - 1 else if n < -TWO63 then -TWO63 else n
  }

  /// `strtoll(text, &end, 0)` when it consumes all of a text without spaces: a
  /// leading zero means octal, and values out of range saturate.
  function Parse(text: string): (r: Option<int>)
    ensures r.Some? ==> Signed(r.value)
  {
    var negative := text != [] && text[0] == '-';
    var body := if negative then text[1..] else text;
    if body == [] then None
    else
      var hex := |body| > 2 && body[0] == '0' && (body[1] == 'x' || body[1] == 'X');
      match (if hex then Digits(body[2..], 16, 0) else if body[0] == '0' then Digits(body, 8, 0) else Digits(body, 10, 0))
      case None => None
      case Some(n) =>
        var v: int := n;
        Some(Saturate(if negative then -v else v))
  }

  type Constants = m: map<Name, int> | forall r :: r in m ==> Signed(m[r])

  function Get(known: Constants, a: Name): Option<int> { if a in known then Some(known[a]) else None }

  /// One folded operation, in 64-bit arithmetic; `None` leaves the instruction.
  function FoldBinary(op: string, unsigned: bool, a: int, b: int): (r: Option<int>)
    requires Signed(a) && Signed(b)
    ensures r.Some? ==> Signed(r.value)
  {
    if op == "+" then Some(Wrap(Unsigned(a) + Unsigned(b)))
    else if op == "-" then Some(Wrap(Unsigned(a) - Unsigned(b)))
    else if op == "*" then Some(Wrap(Unsigned(a) * Unsigned(b)))
    else if op == "/" then
      if b == 0 then None else Some(if unsigned then Wrap(Unsigned(a) / Unsigned(b)) else Wrap(Quotient(a, b)))
    else if op == "%" then
      if b == 0 then None else Some(if unsigned then Wrap(Unsigned(a) % Unsigned(b)) else Wrap(Remainder(a, b)))
    else if op == "&" || op == "&&" then Some(And(a, b))
    else if op == "|" || op == "||" then Some(Or(a, b))
    else if op == "^" then Some(Xor(a, b))
    else if op == "<<" then if b < 0 || b >= 64 then None else Some(Wrap(Unsigned(a) * Power2(b)))
    else if op == ">>" then
      if b < 0 || b >= 64 then None
      else Some(Wrap(if unsigned then ShiftRight(Unsigned(a), b) else ShiftRight(a, b)))
    else None
  }

  predicate IsComparison(op: string) { op in {"==", "!=", "<", "<=", ">", ">="} }

  predicate FoldCompare(op: string, unsigned: bool, a: int, b: int)
    requires Signed(a) && Signed(b)
  {
    if op == "==" then a == b
    else if op == "!=" then a != b
    else if op == "<" then (if unsigned then Unsigned(a) < Unsigned(b) else a < b)
    else if op == "<=" then (if unsigned then Unsigned(a) <= Unsigned(b) else a <= b)
    else if op == ">" then (if unsigned then Unsigned(a) > Unsigned(b) else a > b)
    else if op == ">=" then (if unsigned then Unsigned(a) >= Unsigned(b) else a >= b)
    else false
  }

  /// Instructions that define a constant or become one.
  function FoldInstr(i: Instr, known: Constants): (Instr, Constants) {
    if i.result.None? then (i, known)
    else
      var r := i.result.value;
      if i.op == ConstInt || i.op == ConstBool || i.op == ConstChar then
        match Parse(i.text)
        case None => (i, known)
        case Some(v) => (i, known[r := v])
      else if i.ty.IntTy? && (i.ty.name == "i128" || i.ty.name == "u128") then (i, known)
      else if i.op == Binary && i.text == "!" && |i.args| == 1 && Get(known, i.args[0]).Some? then
        var v := Complement(i.ty, Get(known, i.args[0]).value);
        (Instr(if i.ty == BoolTy then ConstBool else ConstInt, i.result, i.ty, [], IL.Numeral(v), i.flag), known[r := v])
      else if i.op == Binary && |i.args| == 2 && Get(known, i.args[0]).Some? && Get(known, i.args[1]).Some? then
        match FoldBinary(i.text, UnsignedTy(i.ty), Get(known, i.args[0]).value, Get(known, i.args[1]).value)
        case None => (i, known)
        case Some(v) => (Instr(ConstInt, i.result, i.ty, [], IL.Numeral(v), i.flag), known[r := v])
      else if i.op == Compare && |i.args| == 2 && Get(known, i.args[0]).Some? && Get(known, i.args[1]).Some? then
        var holds := FoldCompare(i.text, UnsignedTy(i.ty), Get(known, i.args[0]).value, Get(known, i.args[1]).value);
        (Instr(ConstBool, i.result, BoolTy, [], if holds then "1" else "0", i.flag), known[r := if holds then 1 else 0])
      else (i, known)
  }

  function Fold(instrs: seq<Instr>, known: Constants): seq<Instr>
    decreases instrs
  {
    if instrs == [] then []
    else
      var (i, known') := FoldInstr(instrs[0], known);
      [i] + Fold(instrs[1..], known')
  }

  function FoldAll(blocks: seq<Block>): (r: seq<Block>)
    ensures |r| == |blocks| && forall i :: 0 <= i < |blocks| ==> r[i] == blocks[i].(instrs := Fold(blocks[i].instrs, map[]))
  {
    if blocks == [] then [] else [blocks[0].(instrs := Fold(blocks[0].instrs, map[]))] + FoldAll(blocks[1..])
  }

  // ---- folding computes what the target would ----

  lemma WrapCongruent(n: int, k: int)
    ensures Wrap(n + k * TWO64) == Wrap(n)
  {
    assert (n + k * TWO64) % TWO64 == n % TWO64;
  }

  /// Unsigned and signed readings of a pattern differ by a multiple of 2^64.
  lemma UnsignedIs(a: int) returns (k: int)
    requires Signed(a)
    ensures Unsigned(a) == a + k * TWO64 && (k == 0 || k == 1)
  {
    k := if a < 0 then 1 else 0;
  }

  lemma FoldSum(a: int, b: int)
    requires Signed(a) && Signed(b)
    ensures Wrap(Unsigned(a) + Unsigned(b)) == Wrap(a + b) && Wrap(Unsigned(a) - Unsigned(b)) == Wrap(a - b)
  {
    var j := UnsignedIs(a);
    var k := UnsignedIs(b);
    assert (a + j * TWO64) + (b + k * TWO64) == (a + b) + (j + k) * TWO64;
    WrapCongruent(a + b, j + k);
    assert (a + j * TWO64) - (b + k * TWO64) == (a - b) + (j - k) * TWO64;
    WrapCongruent(a - b, j - k);
  }

  lemma FoldProduct(a: int, b: int)
    requires Signed(a)
    ensures Wrap(Unsigned(a) * b) == Wrap(a * b)
  {
    var j := UnsignedIs(a);
    assert (a + j * TWO64) * b == a * b + (j * b) * TWO64;
    WrapCongruent(a * b, j * b);
  }

  lemma MulAtLeast(n: nat, q: nat)
    requires n >= 1
    ensures n * q >= q && (n >= 2 && q >= 1 ==> n * q > q)
  {
    assert n * q == (n - 1) * q + q;
    if n >= 2 && q >= 1 { assert (n - 1) * q >= 1; }
  }

  lemma DivideShrinks(m: nat, n: nat)
    requires n > 0
    ensures m / n <= m && (n > 1 && m > 0 ==> m / n < m)
  {
    var q := m / n;
    Division(m, n);
    MulAtLeast(n, q);
  }

  lemma Division(m: nat, n: nat)
    requires n > 0
    ensures m == n * (m / n) + m % n && m % n < n
  {
  }

  lemma QuotientFits(a: int, b: int)
    requires Signed(a) && Signed(b) && b != 0 && !(a == -TWO63 && b == -1)
    ensures Signed(Quotient(a, b))
  {
    DivideShrinks(Magnitude(a), Magnitude(b));
  }

  /// The remainder has the sign of the dividend and the magnitude of the
  /// remainder of the magnitudes.
  lemma RemainderCases(a: int, b: int, q: int, r: int)
    requires b != 0 && Magnitude(a) == Magnitude(b) * q + r
    ensures a - b * (if (a < 0) == (b < 0) then q else -q) == if a < 0 then -r else r
  {
    var n := Magnitude(b);
    Signs(b, n, q);
  }

  lemma RemainderIs(a: int, b: int) returns (r: int)
    requires b != 0
    ensures Remainder(a, b) == (if a < 0 then -r else r) && 0 <= r < Magnitude(b)
  {
    var m: nat, n: nat := Magnitude(a), Magnitude(b);
    var q: nat := m / n;
    r := m % n;
    Division(m, n);
    Definition(a, b, q);
    hide Remainder, Quotient;
    RemainderCases(a, b, q, r);
  }

  lemma Definition(a: int, b: int, q: int)
    requires b != 0 && q == Magnitude(a) / Magnitude(b)
    ensures Remainder(a, b) == a - b * if (a < 0) == (b < 0) then q else -q
  {
  }

  lemma RemainderFits(a: int, b: int)
    requires Signed(a) && Signed(b) && b != 0
    ensures Signed(Remainder(a, b))
  {
    hide Remainder;
    var r := RemainderIs(a, b);
  }

  lemma Signs(b: int, n: int, q: int)
    requires n == b || n == -b
    ensures n == -b ==> b * q == -(n * q) && b * (-q) == n * q
    ensures n == b ==> b * q == n * q && b * (-q) == -(n * q)
  {
  }

  lemma FloorFits(a: int, p: nat)
    requires p > 0
    ensures (a >= 0 ==> 0 <= a / p <= a) && (a < 0 ==> a <= a / p < 0)
  {
    var q := a / p;
    if a >= 0 {
      DivideShrinks(a, p);
    } else {
      FloorBelow(a, p);
    }
  }

  lemma FloorBelow(a: int, p: nat)
    requires p > 0 && a < 0
    ensures a <= a / p < 0
  {
    var q := a / p;
    assert a == p * q + a % p && a % p < p;
    assert q < 0;
    var down: nat := -(q + 1);
    MulAtLeast(p, down);
    assert p * (q + 1) == -(p * down);
    assert p * (q + 1) == p * q + p;
  }

  lemma ShiftRightFits(a: int, k: nat)
    ensures (a >= 0 ==> 0 <= ShiftRight(a, k) <= a) && (a < 0 ==> a <= ShiftRight(a, k) < 0)
  {
    FloorFits(a, Power2(k));
  }

  /// Whatever is folded is what the operation that the backend selects computes,
  /// signed division overflow aside.
  lemma FoldMatchesBackend(op: string, unsigned: bool, a: int, b: int)
    requires Signed(a) && Signed(b) && FoldBinary(op, unsigned, a, b).Some?
    requires !((op == "/" || op == "%") && !unsigned && a == -TWO63 && b == -1)
    ensures Execute(ArithmeticOpcode(unsigned, op), a, b) == FoldBinary(op, unsigned, a, b)
  {
    hide Wrap, And, Or, Xor, Quotient, Remainder, ShiftRight, Unsigned, Power2;
    if op == "+" || op == "-" {
      FoldSum(a, b);
    } else if op == "*" {
      var k := UnsignedIs(b);
      FoldProduct(a, Unsigned(b));
      FoldProduct(b, a);
      assert a * Unsigned(b) == Unsigned(b) * a && b * a == a * b;
    } else if op == "/" {
      if !unsigned {
        QuotientFits(a, b);
        WrapSigned(Quotient(a, b));
      }
    } else if op == "%" {
      if !unsigned {
        RemainderFits(a, b);
        WrapSigned(Remainder(a, b));
      }
    } else if op == "<<" {
      FoldProduct(a, Power2(b));
    } else if op == ">>" {
      ShiftRightFits(a, b);
      if !unsigned { WrapSigned(ShiftRight(a, b)); }
    }
  }

  /// Comparisons of integers fold to what the selected predicate answers.
  lemma CompareMatchesBackend(op: string, unsigned: bool, a: int, b: int)
    requires Signed(a) && Signed(b) && IsComparison(op)
    ensures FoldCompare(op, unsigned, a, b) <==> Test(ComparePredicate(unsigned, op), a, b)
  {
  }

  /// Comparisons of `bool` do so if and only if the operator asks for equality
  /// or the operands are equal: the target orders `true` below `false`.
  lemma BoolCompareMatchesBackend(op: string, a: int, b: int)
    requires IsBit(a) && IsBit(b) && IsComparison(op)
    ensures (FoldCompare(op, false, a, b) <==> Test(ComparePredicate(false, op), Reading(BoolTy, a), Reading(BoolTy, b)))
            <==> (op == "==" || op == "!=" || a == b)
  {
  }

  lemma {:induction false} CombineBits(op: Logic, x: nat, y: nat, width: nat)
    requires x < 2 && y < 2 && width > 0
    ensures Combine(op, x, y, width) == OnBit(op, x, y)
    decreases width
  {
    assert OnBit(op, 0, 0) == 0;
    if width > 1 { CombineBits(op, 0, 0, width - 1); }
  }

  lemma BitwiseOfBits(op: Logic, a: int, b: int)
    requires IsBit(a) && IsBit(b)
    ensures Bitwise(op, a, b) == OnBit(op, a, b) && IsBit(Bitwise(op, a, b))
  {
    hide Combine, OnBit, Power2;
    CombineBits(op, a, b, 64);
    WrapSigned(OnBit(op, a, b));
  }

  /// On single bits the logical operators stay with single bits.
  lemma LogicalKeepsBits(op: string, a: int, b: int)
    requires IsBit(a) && IsBit(b) && IsLogical(op)
    ensures FoldBinary(op, false, a, b).Some? && IsBit(FoldBinary(op, false, a, b).value)
  {
    hide Bitwise, Wrap, Quotient, Remainder, Power2, Unsigned, ShiftRight;
    if op == "&&" || op == "&" {
      BitwiseOfBits(AndBits, a, b);
    } else if op == "||" || op == "|" {
      BitwiseOfBits(OrBits, a, b);
    } else {
      BitwiseOfBits(XorBits, a, b);
    }
  }
}
