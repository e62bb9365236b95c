/// Integer literals of any length become decimal numerals
/// (`llvm_integer_constant`, src/codegen_internal.hpp:45-123): limbs to base 10^9.

module IntegerLiteral {
  datatype Option<+T> = None | Some(value: T)

  // ---- what a literal means ----

  function DigitValue(c: char): Option<nat> {
    if '0' <= c <= '9' then Some((c - '0') as nat)
    else if 'a' <= c <= 'f' then Some((c - 'a') as nat + 10)
    else if 'A' <= c <= 'F' then Some((c - 'A') as nat + 10)
    else None
  }

  /// The number the digits spell after `so`; underscores do not count.
  function Magnitude(digits: string, base: nat, so: nat): Option<nat>
    decreases |digits|
  {
    if digits == [] then Some(so)
    else if digits[0] == '_' then Magnitude(digits[1..], base, so)
    else match DigitValue(digits[0])
      case None => None
      case Some(d) => if d >= base then None else Magnitude(digits[1..], base, so * base + d)
  }

  predicate HasDigit(digits: string) { exists c :: c in digits && c != '_' }

  function Signless(literal: string): string { if literal != [] && literal[0] == '-' then literal[1..] else literal }

  /// Base and digits after the optional prefix.
  function Base(body: string): (nat, string) {
    if |body| >= 2 && body[0] == '0' && (body[1] == 'x' || body[1] == 'X') then (16, body[2..])
    else if |body| >= 2 && body[0] == '0' && (body[1] == 'b' || body[1] == 'B') then (2, body[2..])
    else if |body| >= 2 && body[0] == '0' && (body[1] == 'o' || body[1] == 'O') then (8, body[2..])
    else (10, body)
  }

  /// The integer a literal denotes, if it is well formed.
  function Meaning(literal: string): Option<int> {
    var (base, digits) := Base(Signless(literal));
    match Magnitude(digits, base, 0)
    case None => None
    case Some(n) =>
      var v: int := n;
      if !HasDigit(digits) then None else Some(if Signless(literal) != literal then -v else v)
  }

  // ---- decimal numerals ----

  function Digit(d: nat): char
    requires d < 10
  {
    '0' + d as char
  }

  /// The canonical numeral: no leading zeros.
  function Decimal(n: nat): (s: string)
    ensures s != []
    decreases n
  {
    if n < 10 then [Digit(n)] else Decimal(n / 10) + [Digit(n % 10)]
  }

  function Numeral(n: int): string { if n < 0 then "-" + Decimal(-n) else Decimal(n) }

  /// Exactly `k` digits.
  function Padded(n: nat, k: nat): (s: string)
    ensures |s| == k
    decreases k
  {
    if k == 0 then [] else Padded(n / 10, k - 1) + [Digit(n % 10)]
  }

  function Power10(k: nat): (p: nat)
    ensures p > 0
  {
    if k == 0 then 1 else 10 * Power10(k - 1)
  }

  function Zeros(k: nat): (s: string)
    ensures |s| == k
  {
    if k == 0 then [] else Zeros(k - 1) + ['0']
  }

  lemma {:induction false} ZerosFront(k: nat)
    requires k > 0
    ensures Zeros(k) == ['0'] + Zeros(k - 1)
    decreases k
  {
    if k > 1 {
      ZerosFront(k - 1);
      assert Zeros(k) == (['0'] + Zeros(k - 2)) + ['0'];
    }
  }

  /// A padded numeral is the numeral behind zeros.
  lemma {:induction false} PaddedIs(n: nat, k: nat)
    requires k > 0 && n < Power10(k)
    ensures |Decimal(n)| <= k && Padded(n, k) == Zeros(k - |Decimal(n)|) + Decimal(n)
    decreases k
  {
    if k == 1 {
      assert Power10(1) == 10 * Power10(0);
      assert Padded(n / 10, 0) == [];
    } else if n < 10 {
      PaddedIs(0, k - 1);
      assert Decimal(0) == ['0'];
      assert Zeros(k - 1) == Zeros(k - 2) + ['0'];
    } else {
      PaddedIs(n / 10, k - 1);
      assert Zeros(k - |Decimal(n)|) + (Decimal(n / 10) + [Digit(n % 10)]) == (Zeros(k - |Decimal(n)|) + Decimal(n / 10)) + [Digit(n % 10)];
    }
  }

  /// The last `k` digits split off.
  lemma {:induction false} DecimalSplit(high: nat, low: nat, k: nat)
    requires high > 0 && low < Power10(k)
    ensures Decimal(high * Power10(k) + low) == Decimal(high) + Padded(low, k)
    decreases k
  {
    if k == 0 {
      assert Padded(low, 0) == [];
      assert Decimal(high) + [] == Decimal(high);
    } else {
      var q := Power10(k - 1);
      assert Power10(k) == 10 * q;
      hide Power10;
      ShiftOut(high, low, q);
      DecimalSplit(high, low / 10, k - 1);
      var n := high * (10 * q) + low;
      DecimalStep(n);
      PaddedStep(low, k);
      hide Decimal, Padded, Digit;
      assert (Decimal(high) + Padded(low / 10, k - 1)) + [Digit(low % 10)] == Decimal(high) + (Padded(low / 10, k - 1) + [Digit(low % 10)]);
    }
  }

  lemma DecimalStep(n: nat)
    requires n >= 10
    ensures Decimal(n) == Decimal(n / 10) + [Digit(n % 10)]
  {
  }

  lemma PaddedStep(n: nat, k: nat)
    requires k > 0
    ensures Padded(n, k) == Padded(n / 10, k - 1) + [Digit(n % 10)]
  {
  }

  lemma ShiftOut(high: nat, low: nat, q: nat)
    requires high > 0 && q > 0 && low < 10 * q
    ensures var n := high * (10 * q) + low; n >= 10 && n / 10 == high * q + low / 10 && n % 10 == low % 10 && low / 10 < q
  {
    var m := high * q;
    assert high * (10 * q) == 10 * m;
    assert m >= 1;
  }

  // ---- limbs ----

  const LIMB: nat := 1000000000

  function LimbValue(limbs: seq<nat>): nat
    decreases |limbs|
  {
    if limbs == [] then 0 else limbs[0] + LIMB * LimbValue(limbs[1..])
  }

  ghost predicate Limbs(limbs: seq<nat>) { forall i :: 0 <= i < |limbs| ==> limbs[i] < LIMB }

  function Product(limb: nat, base: nat, carry: nat): nat { limb * base + carry }

  /// `limbs * base + carry`; what is carried out of the last limb is a new one.
  function MulAdd(limbs: seq<nat>, base: nat, carry: nat): seq<nat>
    decreases |limbs|
  {
    if limbs == [] then (if carry != 0 then [carry] else [])
    else [Product(limbs[0], base, carry) % LIMB] + MulAdd(limbs[1..], base, Product(limbs[0], base, carry) / LIMB)
  }

  /// A step carries less than the base, which fits one limb and 64 bits.
  lemma CarrySmall(limb: nat, base: nat, carry: nat)
    requires limb < LIMB && carry < base <= 16
    ensures Product(limb, base, carry) < 0x1_0000_0000_0000_0000 && Product(limb, base, carry) / LIMB < base
  {
    assert limb * base + carry <= (LIMB - 1) * base + (base - 1);
    assert limb * base + carry < LIMB * base;
  }

  lemma {:induction false} MulAddIs(limbs: seq<nat>, base: nat, carry: nat)
    requires Limbs(limbs) && carry < base <= 16
    ensures LimbValue(MulAdd(limbs, base, carry)) == base * LimbValue(limbs) + carry && Limbs(MulAdd(limbs, base, carry))
    decreases |limbs|
  {
    if limbs == [] {
      assert [carry][1..] == [];
    } else {
      var next := Product(limbs[0], base, carry);
      CarrySmall(limbs[0], base, carry);
      MulAddIs(limbs[1..], base, next / LIMB);
      var rest := LimbValue(limbs[1..]);
      assert MulAdd(limbs, base, carry)[1..] == MulAdd(limbs[1..], base, next / LIMB);
      assert LimbValue(MulAdd(limbs, base, carry)) == next % LIMB + LIMB * (base * rest + next / LIMB);
      Distribute(limbs[0], rest, base);
    }
  }

  lemma Distribute(a: nat, rest: nat, base: nat)
    ensures base * (a + LIMB * rest) == a * base + LIMB * (base * rest)
  {
    assert base * (LIMB * rest) == LIMB * (base * rest);
    assert base * (a + LIMB * rest) == base * a + base * (LIMB * rest);
  }

  /// No leading zero limb, but at least one limb.
  predicate Trimmed(limbs: seq<nat>) { |limbs| > 0 && (|limbs| > 1 ==> limbs[|limbs| - 1] != 0) }

  /// The numeral: the last limb, then nine digits for each one before it.
  function Spell(limbs: seq<nat>): string
    requires |limbs| > 0
    decreases |limbs|
  {
    if |limbs| == 1 then Decimal(limbs[0]) else Spell(limbs[1..]) + Padded(limbs[0], 9)
  }

  lemma {:induction false} SpellIs(limbs: seq<nat>)
    requires Limbs(limbs) && Trimmed(limbs)
    ensures Spell(limbs) == Decimal(LimbValue(limbs)) && (|limbs| > 1 ==> LimbValue(limbs) > 0)
    decreases |limbs|
  {
    hide Decimal, Padded, Power10;
    if |limbs| == 1 {
      assert limbs[1..] == [];
    } else {
      var rest := limbs[1..];
      assert rest[|rest| - 1] == limbs[|limbs| - 1];
      SpellIs(rest);
      if |limbs| == 2 { assert rest[1..] == []; }
      BillionIs();
      DecimalSplit(LimbValue(rest), limbs[0], 9);
    }
  }

  lemma BillionIs()
    ensures Power10(9) == LIMB
  {
    assert Power10(3) == 1000;
    assert Power10(6) == 1000000;
  }

  lemma {:induction false} TrailingZero(limbs: seq<nat>)
    requires |limbs| > 1 && limbs[|limbs| - 1] == 0
    ensures LimbValue(limbs[..|limbs| - 1]) == LimbValue(limbs)
    decreases |limbs|
  {
    var front := limbs[..|limbs| - 1];
    if |limbs| == 2 {
      assert limbs[1..][1..] == [] && front[1..] == [];
    } else {
      assert limbs[1..][..|limbs| - 2] == front[1..];
      TrailingZero(limbs[1..]);
    }
  }

  // ---- the routine ----

  lemma MulAddStep(limbs: seq<nat>, i: nat, base: nat, carry: nat, done: seq<nat>)
    requires i < |limbs|
    ensures var next := Product(limbs[i], base, carry);
      done + MulAdd(limbs[i..], base, carry) == (done + [next % LIMB]) + MulAdd(limbs[i + 1..], base, next / LIMB)
  {
    hide Product;
    assert limbs[i..][1..] == limbs[i + 1..];
    var next := Product(limbs[i], base, carry);
    var rest := MulAdd(limbs[i + 1..], base, next / LIMB);
    assert done + ([next % LIMB] + rest) == (done + [next % LIMB]) + rest;
  }

  /// One digit more: every limb is multiplied in place and the carry passed on.
  method Accumulate(limbs: seq<nat>, base: nat, d: nat) returns (digits: seq<nat>)
    requires Limbs(limbs) && d < base <= 16
    ensures digits == MulAdd(limbs, base, d)
  {
    digits := limbs;
    var carry: nat := d;
    var i := 0;
    assert limbs[0..] == limbs;
    while i < |digits|
      invariant i <= |digits| == |limbs| && carry < base
      invariant forall j :: i <= j < |digits| ==> digits[j] == limbs[j]
      invariant digits[..i] + MulAdd(limbs[i..], base, carry) == MulAdd(limbs, base, d)
    {
      hide MulAdd, Product;
      CarrySmall(digits[i], base, carry);
      MulAddStep(limbs, i, base, carry, digits[..i]);
      var next := Product(digits[i], base, carry);
      ghost var before := digits;
      digits := digits[i := next % LIMB];
      assert digits[..i + 1] == before[..i] + [next % LIMB];
      carry := next / LIMB;
      i := i + 1;
    }
    assert limbs[i..] == [] && digits[..i] == digits;
    if carry != 0 { digits := digits + [carry]; }
  }

  method Trim(limbs: seq<nat>) returns (r: seq<nat>)
    requires |limbs| > 0 && Limbs(limbs)
    ensures Limbs(r) && Trimmed(r) && LimbValue(r) == LimbValue(limbs)
  {
    r := limbs;
    while |r| > 1 && r[|r| - 1] == 0
      invariant |r| > 0 && Limbs(r) && LimbValue(r) == LimbValue(limbs)
    {
      TrailingZero(r);
      r := r[..|r| - 1];
    }
  }

  lemma SpellStep(limbs: seq<nat>, i: nat)
    requires Limbs(limbs) && 0 < i < |limbs|
    ensures var chunk := Decimal(limbs[i - 1]);
      |chunk| <= 9 && Spell(limbs[i - 1..]) == Spell(limbs[i..]) + (Zeros(9 - |chunk|) + chunk)
  {
    hide Decimal, Power10;
    BillionIs();
    PaddedIs(limbs[i - 1], 9);
    hide Padded;
    assert limbs[i - 1..][1..] == limbs[i..];
  }

  method Print(limbs: seq<nat>) returns (result: string)
    requires Limbs(limbs) && Trimmed(limbs)
    ensures result == Decimal(LimbValue(limbs))
  {
    hide Decimal, Zeros, Spell, LimbValue, Limbs, Padded;
    SpellIs(limbs);
    SpellLast(limbs);
    result := Decimal(limbs[|limbs| - 1]);
    var i := |limbs| - 1;
    while i > 0
      invariant 0 <= i < |limbs| && result == Spell(limbs[i..])
    {
      SpellStep(limbs, i);
      var chunk := Decimal(limbs[i - 1]);
      var zeros := Zeros(9 - |chunk|);
      result := result + (zeros + chunk);
      i := i - 1;
    }
    assert limbs[0..] == limbs;
  }

  lemma SpellLast(limbs: seq<nat>)
    requires |limbs| > 0
    ensures Spell(limbs[|limbs| - 1..]) == Decimal(limbs[|limbs| - 1])
  {
    hide Decimal;
    assert limbs[|limbs| - 1..] == [limbs[|limbs| - 1]];
  }

  lemma DigitsSeen(digits: string, i: nat)
    requires i < |digits|
    ensures HasDigit(digits[..i + 1]) <==> HasDigit(digits[..i]) || digits[i] != '_'
  {
    assert digits[..i + 1] == digits[..i] + [digits[i]];
    if HasDigit(digits[..i]) {
      var c :| c in digits[..i] && c != '_';
      assert c in digits[..i + 1];
    }
    if digits[i] != '_' { assert digits[i] in digits[..i + 1]; }
  }

  /// For every literal, however long: the decimal numeral of the integer it
  /// denotes, or the literal itself when it denotes none.
  method Constant(literal: string) returns (result: string)
    ensures result == match Meaning(literal) case None => literal case Some(v) => Numeral(v)
    ensures forall v :: Denotes(literal, v) ==> result == Numeral(v)
    ensures (forall v :: !Denotes(literal, v)) ==> result == literal
  {
    MeaningIsUnique(literal);
    hide Denotes;
    var negative := literal != [] && literal[0] == '-';
    var (base, digits) := Base(Signless(literal));
    var limbs: seq<nat> := [0];
    var hasDigit := false;
    var i := 0;
    ghost var so := 0;
    assert digits[0..] == digits;
    assert [0][1..] == [];
    while i < |digits|
      invariant i <= |digits| && |limbs| > 0 && Limbs(limbs) && LimbValue(limbs) == so
      invariant Magnitude(digits[i..], base, so) == Magnitude(digits, base, 0)
      invariant hasDigit <==> HasDigit(digits[..i])
    {
      assert digits[i..][0] == digits[i] && digits[i..][1..] == digits[i + 1..];
      DigitsSeen(digits, i);
      if digits[i] != '_' {
        var d := DigitValue(digits[i]);
        if d.None? || d.value >= base { return literal; }
        hasDigit := true;
        MulAddIs(limbs, base, d.value);
        limbs := Accumulate(limbs, base, d.value);
        so := base * so + d.value;
      }
      i := i + 1;
    }
    assert digits[..i] == digits && digits[i..] == [];
    if !hasDigit { return literal; }
    limbs := Trim(limbs);
    if |limbs| == 1 && limbs[0] == 0 {
      assert limbs[1..] == [];
      return "0";
    }
    result := Print(limbs);
    if negative {
      PositiveValue(limbs);
      result := "-" + result;
    }
  }

  lemma PositiveValue(limbs: seq<nat>)
    requires Limbs(limbs) && Trimmed(limbs) && !(|limbs| == 1 && limbs[0] == 0)
    ensures LimbValue(limbs) > 0
  {
    SpellIs(limbs);
    if |limbs| == 1 { assert limbs[1..] == []; }
  }

  // ---- reading a numeral back ----

  lemma {:induction false} MagnitudeAppend(digits: string, c: char, so: nat)
    requires forall d :: d in digits ==> '0' <= d <= '9'
    requires '0' <= c <= '9' && Magnitude(digits, 10, so).Some?
    ensures Magnitude(digits + [c], 10, so) == Some(Magnitude(digits, 10, so).value * 10 + (c - '0') as nat)
    decreases |digits|
  {
    if digits == [] {
      assert digits + [c] == [c] && [c][1..] == [];
    } else {
      assert (digits + [c])[1..] == digits[1..] + [c];
      assert digits[0] in digits && forall d :: d in digits[1..] ==> d in digits;
      MagnitudeAppend(digits[1..], c, so * 10 + (digits[0] - '0') as nat);
    }
  }

  lemma {:induction false} DecimalReads(n: nat)
    ensures Magnitude(Decimal(n), 10, 0) == Some(n) && forall d :: d in Decimal(n) ==> '0' <= d <= '9'
    decreases n
  {
    if n < 10 {
      assert [Digit(n)][1..] == [];
    } else {
      DecimalReads(n / 10);
      MagnitudeAppend(Decimal(n / 10), Digit(n % 10), 0);
    }
  }

  /// The numeral of an integer denotes that integer: converting is the identity
  /// on canonical numerals, and no two integers share one.
  lemma NumeralReads(v: int)
    ensures Meaning(Numeral(v)) == Some(v)
  {
    var n: nat := if v < 0 then -v else v;
    DecimalReads(n);
    hide Magnitude;
    var body := Decimal(n);
    assert body[0] in body;
    assert |body| >= 2 ==> body[1] in body;
    assert Signless(Numeral(v)) == body;
    assert HasDigit(body);
  }

  // ---- what a literal denotes, by the digit tables ----

  const LOWER: string := "0123456789abcdef"
  const UPPER: string := "0123456789ABCDEF"

  predicate IsDigit(c: char, d: nat)
    requires d < 16
  {
    c == LOWER[d] || c == UPPER[d]
  }

  /// The digits spell `n`: the last one is its remainder, those before it its
  /// quotient. Underscores may stand anywhere.
  predicate Spells(digits: string, base: nat, n: nat)
    requires 2 <= base <= 16
    decreases |digits|
  {
    if digits == [] then n == 0
    else
      var (front, last) := (digits[..|digits| - 1], digits[|digits| - 1]);
      if last == '_' then Spells(front, base, n) else IsDigit(last, n % base) && Spells(front, base, n / base)
  }

  predicate Blank(digits: string) { forall i :: 0 <= i < |digits| ==> digits[i] == '_' }

  predicate SpellsPrefixed(body: string, small: char, large: char, base: nat, n: nat)
    requires 2 <= base <= 16
  {
    |body| > 2 && (body[..2] == ['0', small] || body[..2] == ['0', large]) && !Blank(body[2..]) && Spells(body[2..], base, n)
  }

  predicate DenotesUnsigned(body: string, n: nat) {
    || (!Blank(body) && Spells(body, 10, n))
    || SpellsPrefixed(body, 'x', 'X', 16, n)
    || SpellsPrefixed(body, 'o', 'O', 8, n)
    || SpellsPrefixed(body, 'b', 'B', 2, n)
  }

  predicate Denotes(literal: string, v: int) {
    || (v >= 0 && DenotesUnsigned(literal, v))
    || (v <= 0 && literal != [] && literal[0] == '-' && DenotesUnsigned(literal[1..], -v))
  }

  lemma DigitTables(c: char, base: nat, d: nat)
    requires d < base <= 16
    ensures IsDigit(c, d) <==> DigitValue(c) == Some(d)
  {
  }

  lemma {:induction false} MagnitudeEnd(front: string, c: char, base: nat, so: nat)
    ensures Magnitude(front + [c], base, so) ==
      match Magnitude(front, base, so)
      case None => None
      case Some(m) =>
        if c == '_' then Some(m)
        else match DigitValue(c) case None => None case Some(d) => if d >= base then None else Some(m * base + d)
    decreases |front|
  {
    if front == [] {
      assert front + [c] == [c] && [c][1..] == [];
    } else {
      assert (front + [c])[1..] == front[1..] + [c];
      if front[0] == '_' {
        MagnitudeEnd(front[1..], c, base, so);
      } else if DigitValue(front[0]).Some? && DigitValue(front[0]).value < base {
        MagnitudeEnd(front[1..], c, base, so * base + DigitValue(front[0]).value);
      }
    }
  }

  lemma Multiples(base: nat, k: int)
    ensures (k >= 1 ==> base * k >= base) && (k <= -1 ==> base * k <= -(base as int)) && (k == 0 ==> base * k == 0)
  {
    if k >= 1 {
      assert base * k == base * (k - 1) + base;
    } else if k <= -1 {
      assert base * k == base * (k + 1) - base;
    }
  }

  lemma LastDigit(m: nat, base: nat, d: nat, n: nat)
    requires d < base
    ensures n == m * base + d <==> n % base == d && n / base == m
  {
    var q, r := n / base, n % base;
    assert n == base * q + r;
    assert base * (m - q) == m * base - base * q;
    Multiples(base, m - q);
  }

  lemma SpellsLast(digits: string, base: nat, n: nat)
    requires 2 <= base <= 16 && digits != []
    ensures var (front, last) := (digits[..|digits| - 1], digits[|digits| - 1]);
      Spells(digits, base, n) <==> if last == '_' then Spells(front, base, n) else IsDigit(last, n % base) && Spells(front, base, n / base)
  {
  }

  lemma {:induction false} MagnitudeSpells(digits: string, base: nat, n: nat)
    requires 2 <= base <= 16
    ensures Magnitude(digits, base, 0) == Some(n) <==> Spells(digits, base, n)
    decreases |digits|
  {
    if digits != [] {
      var (front, last) := (digits[..|digits| - 1], digits[|digits| - 1]);
      assert digits == front + [last];
      MagnitudeEnd(front, last, base, 0);
      SpellsLast(digits, base, n);
      hide *;
      if last == '_' {
        MagnitudeSpells(front, base, n);
      } else {
        MagnitudeSpells(front, base, n / base);
        DigitTables(last, base, n % base);
        if Magnitude(front, base, 0).Some? && DigitValue(last).Some? && DigitValue(last).value < base {
          LastDigit(Magnitude(front, base, 0).value, base, DigitValue(last).value, n);
        }
      }
    }
  }

  lemma BlankIs(digits: string)
    ensures Blank(digits) <==> !HasDigit(digits)
  {
    if !Blank(digits) {
      var i :| 0 <= i < |digits| && digits[i] != '_';
      assert digits[i] in digits;
    }
  }

  /// A character that is no digit of the base spoils a numeral.
  lemma {:induction false} SpellsOnlyDigits(digits: string, base: nat, n: nat, i: nat)
    requires 2 <= base <= 16 && Spells(digits, base, n) && i < |digits|
    ensures digits[i] == '_' || exists d: nat :: d < base && IsDigit(digits[i], d)
    decreases |digits|
  {
    var (front, last) := (digits[..|digits| - 1], digits[|digits| - 1]);
    if i < |digits| - 1 {
      SpellsOnlyDigits(front, base, if last == '_' then n else n / base, i);
      assert front[i] == digits[i];
    } else if last != '_' {
      assert n % base < base && IsDigit(digits[i], n % base);
    }
  }

  lemma MeaningOfBody(body: string, n: nat)
    ensures var (base, digits) := Base(body);
      (HasDigit(digits) && Magnitude(digits, base, 0) == Some(n)) <==> DenotesUnsigned(body, n)
  {
    var (base, digits) := Base(body);
    MagnitudeSpells(digits, base, n);
    BlankIs(digits);
    if base != 10 {
      assert body[..2] == [body[0], body[1]];
      if Spells(body, 10, n) { SpellsOnlyDigits(body, 10, n, 1); }
    } else if |body| >= 2 {
      assert body[..2] == [body[0], body[1]];
    }
  }

  /// A literal means `v` if and only if it is a numeral of `v` in the digits of the
  /// base that its prefix tells, of either case, with underscores anywhere.
  lemma MeaningIsPositional(literal: string, v: int)
    ensures Meaning(literal) == Some(v) <==> Denotes(literal, v)
  {
    var n := Size(v);
    MeaningUnfolds(literal, v);
    MeaningOfBody(Signless(literal), n);
    hide Base, Magnitude, HasDigit, DenotesUnsigned, Meaning;
    if literal != [] && literal[0] == '-' && DenotesUnsigned(literal, n) {
      MinusIsNoDigit(literal, n);
    }
  }

  function Size(v: int): nat { if v < 0 then -v else v }

  lemma MeaningUnfolds(literal: string, v: int)
    ensures var (base, digits) := Base(Signless(literal));
      Meaning(literal) == Some(v) <==>
      HasDigit(digits) && Magnitude(digits, base, 0) == Some(Size(v)) && (if Signless(literal) != literal then v <= 0 else v >= 0)
  {
    hide Base, Magnitude, HasDigit;
  }

  lemma MinusIsNoDigit(body: string, n: nat)
    requires body != [] && body[0] == '-'
    ensures !DenotesUnsigned(body, n)
  {
    if Spells(body, 10, n) { SpellsOnlyDigits(body, 10, n, 0); }
    if |body| > 2 { assert body[..2][0] == body[0]; }
  }

  lemma MeaningIsUnique(literal: string)
    ensures forall v :: Meaning(literal) == Some(v) <==> Denotes(literal, v)
    ensures Meaning(literal).Some? ==> Denotes(literal, Meaning(literal).value)
  {
    forall v ensures Meaning(literal) == Some(v) <==> Denotes(literal, v) {
      MeaningIsPositional(literal, v);
    }
  }

  /// The numeral of `n` in the digits of one table.
  function Spelled(n: nat, base: nat, table: string): (s: string)
    requires 2 <= base <= 16 == |table|
    ensures s != []
  {
    if n < base then [table[n]] else Spelled(n / base, base, table) + [table[n % base]]
  }

  function Plain(digits: string): string {
    if digits == [] then [] else (if digits[0] == '_' then [] else [digits[0]]) + Plain(digits[1..])
  }

  lemma {:induction false} PlainEnd(front: string, c: char)
    ensures Plain(front + [c]) == Plain(front) + if c == '_' then [] else [c]
    decreases |front|
  {
    if front == [] {
      assert front + [c] == [c] && [c][1..] == [];
    } else {
      assert (front + [c])[1..] == front[1..] + [c];
      PlainEnd(front[1..], c);
    }
  }

  lemma {:induction false} UnderscoresDoNotCount(digits: string, base: nat, n: nat)
    requires 2 <= base <= 16
    ensures Spells(digits, base, n) <==> Spells(Plain(digits), base, n)
    decreases |digits|
  {
    if digits != [] {
      var (front, last) := (digits[..|digits| - 1], digits[|digits| - 1]);
      assert digits == front + [last];
      PlainEnd(front, last);
      hide Plain, IsDigit;
      if last == '_' {
        assert Plain(front) + [] == Plain(front);
        UnderscoresDoNotCount(front, base, n);
      } else {
        assert Plain(digits)[..|Plain(digits)| - 1] == Plain(front);
        UnderscoresDoNotCount(front, base, n / base);
      }
    }
  }

  predicate Table(table: string) {
    |table| == 16 && forall d: nat :: d < 16 ==> IsDigit(table[d], d) && table[d] != '_'
  }

  lemma BothTables()
    ensures Table(LOWER) && Table(UPPER)
  {
  }

  lemma SpellsEnd(front: string, c: char, base: nat, n: nat)
    requires 2 <= base <= 16 && c != '_'
    ensures Spells(front + [c], base, n) <==> IsDigit(c, n % base) && Spells(front, base, n / base)
  {
    assert (front + [c])[..|front|] == front;
  }

  lemma {:induction false} SpelledSpells(n: nat, base: nat, table: string)
    requires 2 <= base <= 16 && Table(table)
    ensures Spells(Spelled(n, base, table), base, n) && '_' !in Spelled(n, base, table)
    decreases n
  {
    hide IsDigit;
    if n < base {
      LastDigit(0, base, n, n);
      SpellsEnd([], table[n], base, n);
      assert [] + [table[n]] == [table[n]];
    } else {
      SpelledSpells(n / base, base, table);
      hide Spells;
      SpellsEnd(Spelled(n / base, base, table), table[n % base], base, n);
    }
  }

  /// The prefixes of a base.
  function Prefixes(base: nat): set<string> {
    if base == 16 then {"0x", "0X"} else if base == 8 then {"0o", "0O"} else if base == 2 then {"0b", "0B"} else {""}
  }

  lemma {:induction false} PlainNotBlank(digits: string)
    requires Plain(digits) != []
    ensures !Blank(digits)
    decreases |digits|
  {
    if digits[0] == '_' {
      PlainNotBlank(digits[1..]);
      var i :| 0 <= i < |digits[1..]| && digits[1..][i] != '_';
      assert digits[i + 1] != '_';
    }
  }

  lemma BehindPrefix(n: nat, base: nat, prefix: string, digits: string)
    requires base in {2, 8, 10, 16} && prefix in Prefixes(base) && Spells(digits, base, n) && !Blank(digits)
    ensures DenotesUnsigned(prefix + digits, n)
  {
    hide Spells;
    var body := prefix + digits;
    if base == 10 {
      assert body == digits;
    } else {
      assert body[..2] == prefix && body[2..] == digits && digits != [];
      assert prefix == [prefix[0], prefix[1]];
    }
  }

  /// Every integer is read back from its numeral in every base and both digit
  /// tables, behind its prefix, with underscores put anywhere.
  lemma EveryBaseReads(n: nat, base: nat, table: string, prefix: string, digits: string)
    requires base in {2, 8, 10, 16} && (table == LOWER || table == UPPER) && prefix in Prefixes(base)
    requires Plain(digits) == Spelled(n, base, table)
    ensures Meaning(prefix + digits) == Some(n) && Meaning("-" + prefix + digits) == Some(-(n as int))
  {
    hide *;
    BothTables();
    SpelledSpells(n, base, table);
    UnderscoresDoNotCount(digits, base, n);
    PlainNotBlank(digits);
    BehindPrefix(n, base, prefix, digits);
    SignedReads(prefix + digits, n);
    assert "-" + prefix + digits == "-" + (prefix + digits);
  }

  lemma SignedReads(body: string, n: nat)
    requires DenotesUnsigned(body, n)
    ensures Meaning(body) == Some(n) && Meaning("-" + body) == Some(-(n as int))
  {
    hide DenotesUnsigned, Meaning;
    assert ("-" + body)[1..] == body;
    MeaningIsPositional(body, n);
    MeaningIsPositional("-" + body, -(n as int));
  }
}
