/// What folded constants are, in numbers and bits: the operations of the folder
/// and of the backend are pinned by arithmetic that neither of them is written in.

module ConstantMeaning {
  import opened Mir
  import opened ConstantFold
  import IL = IntegerLiteral

  // ---- bits ----

  /// Bit `k` of a number in two's complement, sign bits without end.
  function BitOf(n: int, k: nat): (b: nat)
    ensures b < 2
    decreases k
  {
    if k == 0 then n % 2 else BitOf(n / 2, k - 1)
  }

  /// Bit `k` of the 64-bit pattern of a number.
  function Bit(n: int, k: nat): (b: nat)
    ensures b < 2
  {
    BitOf(n % 0x1_0000_0000_0000_0000, k)
  }

  /// 2 to the 64.
  lemma Power64()
    ensures Power2(64) == TWO64 && Power2(63) == TWO63
  {
    assert Power2(8) == 0x100 && Power2(16) == 0x1_0000;
    assert Power2(24) == 0x100_0000;
    assert Power2(32) == 0x1_0000_0000;
    assert Power2(40) == 0x100_0000_0000;
    assert Power2(48) == 0x1_0000_0000_0000;
    assert Power2(56) == 0x100_0000_0000_0000;
  }

  lemma {:induction false} PowerSum(i: nat, k: nat)
    ensures Power2(i + k) == Power2(i) * Power2(k)
    decreases i
  {
    if i > 0 {
      PowerSum(i - 1, k);
      Regroup(Power2(i - 1), Power2(k));
    }
  }

  lemma Regroup(a: nat, b: nat)
    ensures 2 * a * b == 2 * (a * b)
  {
  }

  /// Multiples of a higher power of two do not show in the lower bits.
  lemma {:induction false} LowBits(n: int, c: int, width: nat, k: nat)
    requires k < width
    ensures BitOf(n + c * Power2(width), k) == BitOf(n, k)
    decreases k
  {
    var p := Power2(width - 1);
    assert c * (2 * p) == 2 * (c * p);
    if k > 0 {
      assert (n + 2 * (c * p)) / 2 == n / 2 + c * p;
      LowBits(n / 2, c, width - 1, k - 1);
    }
  }

  /// Below 64, the bits of a number are those of its pattern.
  lemma BitIs(n: int, k: nat)
    requires k < 64
    ensures Bit(n, k) == BitOf(n, k)
  {
    Power64();
    var c := n / TWO64;
    assert n == n % TWO64 + c * TWO64;
    LowBits(n % TWO64, c, 64, k);
  }

  lemma WrapBit(n: int, k: nat)
    requires k < 64
    ensures Bit(Wrap(n), k) == BitOf(n, k)
  {
    BitIs(n, k);
    WrapMod(n);
  }

  lemma WrapMod(n: int)
    ensures Wrap(n) % TWO64 == n % TWO64
  {
  }

  lemma UnsignedBit(a: int, k: nat)
    requires Signed(a) && k < 64
    ensures BitOf(Unsigned(a), k) == Bit(a, k)
  {
    UnsignedMod(a);
  }

  lemma UnsignedMod(a: int)
    requires Signed(a)
    ensures Unsigned(a) == a % TWO64
  {
  }

  /// Numbers with the same 64 bits are the same.
  lemma BitsDetermine(a: int, b: int)
    requires Signed(a) && Signed(b) && forall k: nat :: k < 64 ==> Bit(a, k) == Bit(b, k)
    ensures a == b
  {
    Power64();
    hide Power2, BitOf;
    forall k: nat | k < 64 ensures BitOf(a % TWO64, k) == BitOf(b % TWO64, k) {
      assert Bit(a, k) == Bit(b, k);
    }
    SameBits(a % TWO64, b % TWO64, 64);
    UnsignedMod(a);
    UnsignedMod(b);
  }

  lemma {:induction false} SameBits(m: nat, n: nat, width: nat)
    requires m < Power2(width) && n < Power2(width) && forall k: nat :: k < width ==> BitOf(m, k) == BitOf(n, k)
    ensures m == n
    decreases width
  {
    if width > 0 {
      assert BitOf(m, 0) == BitOf(n, 0);
      forall k: nat | k < width - 1 ensures BitOf(m / 2, k) == BitOf(n / 2, k) {
        assert BitOf(m, k + 1) == BitOf(n, k + 1);
      }
      SameBits(m / 2, n / 2, width - 1);
    }
  }

  // ---- the operations ----

  lemma {:induction false} CombineBit(op: Logic, m: nat, n: nat, width: nat, k: nat)
    requires k < width
    ensures BitOf(Combine(op, m, n, width), k) == OnBit(op, BitOf(m, k), BitOf(n, k))
    decreases width
  {
    var rest := Combine(op, m / 2, n / 2, width - 1);
    var low := OnBit(op, m % 2, n % 2);
    assert Combine(op, m, n, width) == 2 * rest + low;
    hide Combine, OnBit;
    assert (2 * rest + low) / 2 == rest && (2 * rest + low) % 2 == low;
    if k > 0 { CombineBit(op, m / 2, n / 2, width - 1, k - 1); }
  }

  lemma BitwiseBit(op: Logic, a: int, b: int, k: nat)
    requires Signed(a) && Signed(b) && k < 64
    ensures Bit(Bitwise(op, a, b), k) == OnBit(op, Bit(a, k), Bit(b, k))
  {
    var n := Combine(op, Unsigned(a), Unsigned(b), 64);
    WrapBit(n, k);
    CombineBit(op, Unsigned(a), Unsigned(b), 64, k);
    UnsignedBit(a, k);
    UnsignedBit(b, k);
  }

  lemma {:induction false} ShiftedLeft(a: int, n: nat, k: nat)
    ensures BitOf(a * Power2(n), k) == if k < n then 0 else BitOf(a, k - n)
    decreases n
  {
    if n > 0 {
      var p := Power2(n - 1);
      assert a * (2 * p) == 2 * (a * p);
      if k > 0 { ShiftedLeft(a, n - 1, k - 1); }
    }
  }

  lemma HalfFirst(a: int, p: nat)
    requires p > 0
    ensures a / (2 * p) == (a / 2) / p
  {
    var h := a / 2;
    var q, r := h / p, h % p;
    assert h == p * q + r;
    var s := a - (2 * p) * q;
    assert (2 * p) * q == 2 * (p * q);
    assert 0 <= s < 2 * p;
    DivideIs(a, 2 * p, q, s);
  }

  lemma DivideIs(a: int, d: nat, q: int, s: nat)
    requires s < d && a == d * q + s
    ensures a / d == q
  {
    var t := a / d;
    assert a == d * t + a % d;
    assert d * (q - t) == d * q - d * t;
    IL.Multiples(d, q - t);
  }

  lemma {:induction false} ShiftedRight(a: int, n: nat, k: nat)
    ensures BitOf(a / Power2(n), k) == BitOf(a, n + k)
    decreases n
  {
    if n > 0 {
      HalfFirst(a, Power2(n - 1));
      ShiftedRight(a / 2, n - 1, k);
    }
  }

  /// From the sign bit on all bits are the sign.
  lemma {:induction false} HighBits(a: int, k: nat)
    requires -1 - a < Power2(k) && a < Power2(k)
    ensures BitOf(a, k) == if a < 0 then 1 else 0
    decreases k
  {
    if k > 0 { HighBits(a / 2, k - 1); }
  }

  lemma {:induction false} HighBitsFrom(a: int, k: nat)
    requires Signed(a) && k >= 63
    ensures BitOf(a, k) == if a < 0 then 1 else 0
  {
    Power64();
    PowerSum(k - 63, 63);
    IL.Multiples(Power2(63), Power2(k - 63));
    assert Power2(63) * Power2(k - 63) == Power2(k - 63) * Power2(63);
    HighBits(a, k);
  }

  // ---- what an operator computes ----

  predicate Congruent(m: int, n: int) { (m - n) % 0x1_0000_0000_0000_0000 == 0 }

  function Size(n: int): nat { if n < 0 then -n else n }

  /// `q` is `a / b` rounded toward zero: what is left has the sign of `a`.
  predicate Divides(a: int, b: int, q: int) {
    var left := a - b * q;
    Size(left) < Size(b) && (left == 0 || (left < 0 <==> a < 0))
  }

  /// `r` is what is left.
  ghost predicate Leaves(a: int, b: int, r: int) { exists q :: Divides(a, b, q) && r == a - b * q }

  ghost predicate OnEveryBit(op: Logic, a: int, b: int, v: int) {
    forall k: nat :: k < 64 ==>
      var (x, y) := (Bit(a, k) == 1, Bit(b, k) == 1);
      Bit(v, k) == 1 <==> match op case AndBits => x && y case OrBits => x || y case XorBits => x != y
  }

  ghost predicate MovedUp(a: int, n: nat, v: int) {
    forall k: nat :: k < 64 ==> Bit(v, k) == if k < n then 0 else Bit(a, k - n)
  }

  /// `fill` comes in at the top.
  ghost predicate MovedDown(a: int, n: nat, fill: nat, v: int) {
    forall k: nat :: k < 64 ==> Bit(v, k) == if k + n < 64 then Bit(a, k + n) else fill
  }

  /// The 64-bit number `v` is `a op b`: modulo 2^64, truncated, or bit by bit.
  ghost predicate Computes(op: string, unsigned: bool, a: int, b: int, v: int) {
    var (m, n) := (a % 0x1_0000_0000_0000_0000, b % 0x1_0000_0000_0000_0000);
    Signed(v) &&
    if op == "+" then Congruent(v, a + b)
    else if op == "-" then Congruent(v, a - b)
    else if op == "*" then Congruent(v, a * b)
    else if op == "/" then (if unsigned then exists q :: Divides(m, n, q) && Congruent(v, q) else Divides(a, b, v))
    else if op == "%" then (if unsigned then exists r :: Leaves(m, n, r) && Congruent(v, r) else Leaves(a, b, v))
    else if op == "&" || op == "&&" then OnEveryBit(AndBits, a, b, v)
    else if op == "|" || op == "||" then OnEveryBit(OrBits, a, b, v)
    else if op == "^" then OnEveryBit(XorBits, a, b, v)
    else if op == "<<" then 0 <= b && MovedUp(a, b, v)
    else if op == ">>" then 0 <= b && MovedDown(a, b, if unsigned then 0 else Bit(a, 63), v)
    else false
  }

  /// The operands for which an operator is defined.
  predicate Defined(op: string, b: int) {
    || op in {"+", "-", "*", "&", "&&", "|", "||", "^"}
    || (op in {"/", "%"} && b != 0)
    || (op in {"<<", ">>"} && 0 <= b < 64)
  }

  predicate Overflows(op: string, unsigned: bool, a: int, b: int) {
    op in {"/", "%"} && !unsigned && a == -TWO63 && b == -1
  }

  lemma WrapCongruent64(n: int)
    ensures Congruent(Wrap(n), n)
  {
    var c := n / TWO64;
    assert n == n % TWO64 + c * TWO64;
    var d := c + if n % TWO64 < TWO63 then 0 else 1;
    assert Wrap(n) - n == (-d) * TWO64;
  }

  lemma QuotientDivides(a: int, b: int)
    requires b != 0
    ensures Divides(a, b, Quotient(a, b)) && Leaves(a, b, Remainder(a, b))
  {
    var r := RemainderIs(a, b);
    hide Quotient;
  }

  lemma NaturalQuotient(m: nat, n: nat)
    requires n > 0
    ensures Divides(m, n, m / n) && Leaves(m, n, m % n)
  {
    Division(m, n);
    var q := m / n;
    assert n * q == n * (m / n);
  }

  /// There is one quotient and one remainder.
  lemma DividesUnique(a: int, b: int, q: int, q': int)
    requires Divides(a, b, q) && Divides(a, b, q')
    ensures q == q'
  {
    var left, left' := a - b * q, a - b * q';
    assert left - left' == b * (q' - q);
    Signs(b, Size(b), q' - q);
    IL.Multiples(Size(b), q' - q);
    IL.Multiples(Size(b), q - q');
    assert Size(b) * (q - q') == -(Size(b) * (q' - q));
  }

  lemma LogicComputes(op: Logic, a: int, b: int)
    requires Signed(a) && Signed(b)
    ensures OnEveryBit(op, a, b, Bitwise(op, a, b))
  {
    hide Bitwise, Bit;
    forall k: nat | k < 64
      ensures var (x, y) := (Bit(a, k) == 1, Bit(b, k) == 1);
        Bit(Bitwise(op, a, b), k) == 1 <==> match op case AndBits => x && y case OrBits => x || y case XorBits => x != y
    {
      BitwiseBit(op, a, b, k);
    }
  }

  lemma UpComputes(a: int, n: nat)
    requires Signed(a)
    ensures MovedUp(a, n, Wrap(Unsigned(a) * Power2(n)))
  {
    forall k: nat | k < 64 ensures Bit(Wrap(Unsigned(a) * Power2(n)), k) == if k < n then 0 else Bit(a, k - n) {
      WrapBit(Unsigned(a) * Power2(n), k);
      ShiftedLeft(Unsigned(a), n, k);
      if k >= n { UnsignedBit(a, k - n); }
    }
  }

  lemma DownComputes(a: int, n: nat, unsigned: bool)
    requires Signed(a)
    ensures MovedDown(a, n, if unsigned then 0 else Bit(a, 63), Wrap(if unsigned then ShiftRight(Unsigned(a), n) else ShiftRight(a, n)))
  {
    var from := if unsigned then Unsigned(a) else a;
    var fill := if unsigned then 0 else Bit(a, 63);
    forall k: nat | k < 64 ensures Bit(Wrap(ShiftRight(from, n)), k) == if k + n < 64 then Bit(a, k + n) else fill {
      WrapBit(ShiftRight(from, n), k);
      ShiftedRight(from, n, k);
      BitIs(a, 63);
      if k + n < 64 {
        BitIs(a, k + n);
        UnsignedBit(a, k + n);
      } else {
        HighBitsFrom(a, 63);
        HighBitsFrom(a, k + n);
        Beyond(Unsigned(a), k + n);
      }
    }
  }

  /// An unsigned pattern has no bit at 64 or above.
  lemma Beyond(m: nat, k: nat)
    requires m < TWO64 && k >= 64
    ensures BitOf(m, k) == 0
  {
    Power64();
    PowerSum(k - 64, 64);
    IL.Multiples(Power2(64), Power2(k - 64));
    assert Power2(64) * Power2(k - 64) == Power2(k - 64) * Power2(64);
    HighBits(m, k);
  }

  /// The folder folds where the operator is defined, to what it computes.
  lemma FoldComputes(op: string, unsigned: bool, a: int, b: int)
    requires Signed(a) && Signed(b)
    ensures FoldBinary(op, unsigned, a, b).Some? <==> Defined(op, b)
    ensures Defined(op, b) && !Overflows(op, unsigned, a, b) ==> Computes(op, unsigned, a, b, FoldBinary(op, unsigned, a, b).value)
  {
    hide Wrap, Bitwise, Quotient, Remainder, ShiftRight, Unsigned, Power2, OnEveryBit, MovedUp, MovedDown, Divides, Leaves, Congruent, Bit;
    if op == "+" || op == "-" {
      FoldSum(a, b);
      WrapCongruent64(a + b);
      WrapCongruent64(a - b);
    } else if op == "*" {
      ProductFolds(a, b);
      WrapCongruent64(a * b);
    } else if op == "/" || op == "%" {
      if b != 0 { DivisionFolds(unsigned, a, b); }
    } else if op == "&" || op == "&&" {
      LogicComputes(AndBits, a, b);
    } else if op == "|" || op == "||" {
      LogicComputes(OrBits, a, b);
    } else if op == "^" {
      LogicComputes(XorBits, a, b);
    } else if op == "<<" {
      if b >= 0 { UpComputes(a, b); }
    } else if op == ">>" {
      if b >= 0 { DownComputes(a, b, unsigned); }
    }
  }

  lemma ProductFolds(a: int, b: int)
    requires Signed(a) && Signed(b)
    ensures Wrap(Unsigned(a) * Unsigned(b)) == Wrap(a * b)
  {
    FoldProduct(a, Unsigned(b));
    FoldProduct(b, a);
    assert a * Unsigned(b) == Unsigned(b) * a && b * a == a * b;
  }

  lemma DivisionFolds(unsigned: bool, a: int, b: int)
    requires Signed(a) && Signed(b) && b != 0
    ensures unsigned ==> a % TWO64 == Unsigned(a) && b % TWO64 == Unsigned(b) && Unsigned(b) != 0
    ensures unsigned ==> Divides(Unsigned(a), Unsigned(b), Unsigned(a) / Unsigned(b)) && Leaves(Unsigned(a), Unsigned(b), Unsigned(a) % Unsigned(b))
    ensures unsigned ==> Congruent(Wrap(Unsigned(a) / Unsigned(b)), Unsigned(a) / Unsigned(b))
    ensures unsigned ==> Congruent(Wrap(Unsigned(a) % Unsigned(b)), Unsigned(a) % Unsigned(b))
    ensures !unsigned && !(a == -TWO63 && b == -1) ==>
              && Divides(a, b, Wrap(Quotient(a, b))) && Leaves(a, b, Wrap(Remainder(a, b)))
  {
    UnsignedMod(a);
    UnsignedMod(b);
    if unsigned {
      NaturalQuotient(Unsigned(a), Unsigned(b));
      WrapCongruent64(Unsigned(a) / Unsigned(b));
      WrapCongruent64(Unsigned(a) % Unsigned(b));
    } else if !(a == -TWO63 && b == -1) {
      QuotientDivides(a, b);
      QuotientFits(a, b);
      WrapSigned(Quotient(a, b));
      RemainderFits(a, b);
      WrapSigned(Remainder(a, b));
    }
  }

  lemma CongruentIs(v: int, v': int, n: int)
    requires Signed(v) && Signed(v') && Congruent(v, n) && Congruent(v', n)
    ensures v == v'
  {
  }

  /// No two numbers are `a op b`.
  lemma ComputesUnique(op: string, unsigned: bool, a: int, b: int, v: int, v': int)
    requires Signed(a) && Signed(b) && Computes(op, unsigned, a, b, v) && Computes(op, unsigned, a, b, v')
    ensures v == v'
  {
    hide Bit, Divides, Congruent;
    var (m, n) := (a % TWO64, b % TWO64);
    if op == "+" {
      CongruentIs(v, v', a + b);
    } else if op == "-" {
      CongruentIs(v, v', a - b);
    } else if op == "*" {
      CongruentIs(v, v', a * b);
    } else if op == "/" {
      if unsigned {
        var q, q' :| Divides(m, n, q) && Congruent(v, q) && Divides(m, n, q') && Congruent(v', q');
        DividesUnique(m, n, q, q');
        CongruentIs(v, v', q);
      } else {
        DividesUnique(a, b, v, v');
      }
    } else if op == "%" {
      if unsigned {
        var r, r' :| Leaves(m, n, r) && Congruent(v, r) && Leaves(m, n, r') && Congruent(v', r');
        LeavesUnique(m, n, r, r');
        CongruentIs(v, v', r);
      } else {
        LeavesUnique(a, b, v, v');
      }
    } else {
      forall k: nat | k < 64 ensures Bit(v, k) == Bit(v', k) { }
      BitsDetermine(v, v');
    }
  }

  lemma LeavesUnique(a: int, b: int, r: int, r': int)
    requires Leaves(a, b, r) && Leaves(a, b, r')
    ensures r == r'
  {
    var q :| Divides(a, b, q) && r == a - b * q;
    var q' :| Divides(a, b, q') && r' == a - b * q';
    DividesUnique(a, b, q, q');
  }

  /// The operation that the backend selects computes the operator, and where it is
  /// defined the folder and the backend agree.
  lemma BackendComputes(op: string, unsigned: bool, a: int, b: int)
    requires Signed(a) && Signed(b) && Defined(op, b) && !Overflows(op, unsigned, a, b)
    ensures var e := Execute(ArithmeticOpcode(unsigned, op), a, b); e.Some? && Computes(op, unsigned, a, b, e.value)
  {
    FoldComputes(op, unsigned, a, b);
    hide Computes, FoldBinary, Execute, ArithmeticOpcode;
    FoldMatchesBackend(op, unsigned, a, b);
  }

  /// On truth values the operators are those of logic.
  lemma LogicOnTruth(x: bool, y: bool)
    ensures var (a, b) := (if x then 1 else 0, if y then 1 else 0);
      && FoldBinary("&&", false, a, b) == Some(if x && y then 1 else 0)
      && FoldBinary("||", false, a, b) == Some(if x || y then 1 else 0)
      && FoldBinary("^", false, a, b) == Some(if x != y then 1 else 0)
  {
    hide Bitwise;
    var (a, b) := (if x then 1 else 0, if y then 1 else 0);
    BitwiseOfBits(AndBits, a, b);
    BitwiseOfBits(OrBits, a, b);
    BitwiseOfBits(XorBits, a, b);
  }

  // ---- comparisons ----

  /// How two 64-bit numbers stand to each other, read as signed or unsigned.
  predicate Ordered(op: string, unsigned: bool, a: int, b: int) {
    var (m, n) := if unsigned then (a % 0x1_0000_0000_0000_0000, b % 0x1_0000_0000_0000_0000) else (a, b);
    if op == "==" then m == n
    else if op == "!=" then m != n
    else if op == "<" then m < n
    else if op == "<=" then m <= n
    else if op == ">" then m > n
    else op == ">=" && m >= n
  }

  lemma FoldOrders(op: string, unsigned: bool, a: int, b: int)
    requires Signed(a) && Signed(b)
    ensures FoldCompare(op, unsigned, a, b) <==> Ordered(op, unsigned, a, b)
  {
    UnsignedMod(a);
    UnsignedMod(b);
  }

  // ---- the instructions the folder writes ----

  /// `j` is the instruction `i` made a constant, and the same number is noted for
  /// its result.
  ghost predicate Becomes(i: Instr, j: Instr, known': Constants, op: Op, ty: Ty) {
    && j.op == op && j.result == i.result && j.ty == ty && j.args == []
    && i.result.Some? && i.result.value in known' && IL.Denotes(j.text, known'[i.result.value])
  }

  /// Types wider than the folder's numbers, which it leaves alone.
  predicate TooWide(ty: Ty) { ty.IntTy? && (ty.name == "i128" || ty.name == "u128") }

  /// A binary operator on two known operands becomes the constant that it
  /// computes wherever it is defined, and is left alone elsewhere.
  lemma FoldedBinary(i: Instr, known: Constants)
    requires i.op == Binary && i.result.Some? && |i.args| == 2 && i.args[0] in known && i.args[1] in known && !TooWide(i.ty)
    ensures var (j, known') := FoldInstr(i, known);
      var (a, b) := (known[i.args[0]], known[i.args[1]]);
      && (!Defined(i.text, b) ==> j == i && known' == known)
      && (Defined(i.text, b) && !Overflows(i.text, UnsignedTy(i.ty), a, b) ==>
            Becomes(i, j, known', ConstInt, i.ty) && Computes(i.text, UnsignedTy(i.ty), a, b, known'[i.result.value]))
  {
    var (a, b) := (known[i.args[0]], known[i.args[1]]);
    var f := FoldBinary(i.text, UnsignedTy(i.ty), a, b);
    FoldComputes(i.text, UnsignedTy(i.ty), a, b);
    hide FoldBinary, Computes, Defined, Overflows, IL.Numeral, IL.Denotes, UnsignedTy;
    if f.Some? { NumeralDenotes(f.value); }
  }

  lemma NumeralDenotes(v: int)
    ensures IL.Denotes(IL.Numeral(v), v)
  {
    hide *;
    IL.NumeralReads(v);
    IL.MeaningIsPositional(IL.Numeral(v), v);
  }

  /// A comparison of two known operands becomes its truth.
  lemma FoldedCompare(i: Instr, known: Constants)
    requires i.op == Compare && i.result.Some? && |i.args| == 2 && i.args[0] in known && i.args[1] in known && !TooWide(i.ty)
    ensures var (j, known') := FoldInstr(i, known);
      && Becomes(i, j, known', ConstBool, BoolTy)
      && known'[i.result.value] == if Ordered(i.text, UnsignedTy(i.ty), known[i.args[0]], known[i.args[1]]) then 1 else 0
  {
    var (a, b) := (known[i.args[0]], known[i.args[1]]);
    FoldOrders(i.text, UnsignedTy(i.ty), a, b);
    hide FoldCompare, Ordered, IL.Denotes;
    NumeralDenotes(0);
    NumeralDenotes(1);
    SmallNumerals();
  }

  lemma SmallNumerals()
    ensures IL.Numeral(0) == "0" && IL.Numeral(1) == "1"
  {
  }

  /// `!` of a known operand becomes the other truth value, or flips every bit.
  lemma FoldedNot(i: Instr, known: Constants)
    requires i.op == Binary && i.result.Some? && i.text == "!" && |i.args| == 1 && i.args[0] in known && !TooWide(i.ty)
    ensures var (j, known') := FoldInstr(i, known);
      && Becomes(i, j, known', if i.ty == BoolTy then ConstBool else ConstInt, i.ty)
      && var (a, v) := (known[i.args[0]], known'[i.result.value]);
        if i.ty == BoolTy then v == (if a == 0 then 1 else 0) else forall k: nat :: k < 64 ==> Bit(v, k) != Bit(a, k)
  {
    var a := known[i.args[0]];
    var v := Complement(i.ty, a);
    NumeralDenotes(v);
    if i.ty != BoolTy {
      forall k: nat | k < 64 ensures Bit(v, k) != Bit(a, k) {
        BitIs(v, k);
        BitIs(a, k);
        Flipped(a, k);
      }
    }
    hide IL.Numeral, IL.Denotes, Bit;
  }

  lemma {:induction false} Flipped(a: int, k: nat)
    ensures BitOf(-a - 1, k) == 1 - BitOf(a, k)
    decreases k
  {
    if k > 0 {
      assert (-a - 1) / 2 == -(a / 2) - 1;
      Flipped(a / 2, k - 1);
    }
  }
}
