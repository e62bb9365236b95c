/// Constant folding preserves runs, and for which literals it reads what the
/// backend writes. A folded value is a constant the backend materializes again, so
/// both sides must read literals alike and compare alike.

module ConstantFoldRuns {
  import opened Mir
  import opened ConstantFold
  import IL = IntegerLiteral
  import F = ForwardLoads

  // ---- what the pass reads right ----

  /// A literal for a number of 64 bits and a sign.
  predicate Literal(text: string) { IL.Meaning(text).Some? && -TWO64 < IL.Meaning(text).value < TWO64 }

  predicate Prefixed(body: string, letters: set<char>) { |body| >= 2 && body[0] == '0' && body[1] in letters }

  /// Literals for which the folder's number is the backend's, by their spelling
  /// and value: the folder leaves alone what has underscores or a prefix for
  /// base 2 or 8; it takes a leading zero for base 8, and leaves alone what has
  /// an 8 or 9 then; what it does read saturates at 64 bits.
  predicate ReadsAlike(text: string)
    requires Literal(text)
  {
    var body, v := IL.Signless(text), IL.Meaning(text).value;
    || '_' in text
    || Prefixed(body, {'b', 'B', 'o', 'O'})
    || (if Prefixed(body, {'x', 'X'}) || body == [] || body[0] != '0' then Signed(v)
        else '8' in body || '9' in body || -8 < v < 8)
  }

  /// The comparison asks for equality, or its operands are not known to differ.
  predicate OrderSafe(i: Instr, known: Constants) {
    || i.text == "==" || i.text == "!="
    || (|i.args| == 2 && Get(known, i.args[0]).Some? && Get(known, i.args[1]).Some? ==>
          Get(known, i.args[0]) == Get(known, i.args[1]))
  }

  /// Types, literals and operators on which the pass and the target agree,
  /// ordered comparisons of `bool` aside.
  predicate Readable(i: Instr) {
    && (IsConstantLike(i) ==> Wide(i.ty))
    && i.op != ConstChar
    && (i.op == ConstInt ==> Literal(i.text) && ReadsAlike(i.text))
    && (i.op == ConstBool ==> i.text == "0" || i.text == "1")
    && (i.op == Binary ==> Specified(Binary, i.ty, i.text))
    && (i.op == Compare ==> IsComparison(i.text))
  }

  /// What the pass, knowing `known`, takes for what the target computes.
  predicate Suits(i: Instr, known: Constants) {
    Readable(i) && (i.op == Compare && i.ty == BoolTy ==> OrderSafe(i, known))
  }

  /// Suits whatever is known.
  predicate Foldable(i: Instr) {
    Readable(i) && (i.op == Compare && i.ty == BoolTy ==> i.text == "==" || i.text == "!=")
  }

  predicate SuitsFrom(instrs: seq<Instr>, known: Constants)
    decreases instrs
  {
    instrs != [] ==> Suits(instrs[0], known) && SuitsFrom(instrs[1..], FoldInstr(instrs[0], known).1)
  }

  /// Every known constant is the bit pattern in its register.
  ghost predicate Known(known: Constants, regs: Regs) {
    forall r :: r in known ==> !r.Slot? && r in regs && regs[r] == Num(known[r])
  }

  lemma BoolText()
    ensures Parse("0") == Some(0) && Parse("1") == Some(1)
  {
    assert "0"[1..] == [] && "1"[1..] == [];
    assert Digits([], 8, 0) == Some(0) && Digits([], 10, 1) == Some(1);
    assert Digits("0", 8, 0) == Digits([], 8, 0);
    assert Digits("1", 10, 0) == Digits([], 10, 1);
  }

  lemma KnownOperand(known: Constants, regs: Regs, a: Name)
    requires Known(known, regs) && Get(known, a).Some?
    ensures Operand(a, regs) == Some(Num(Get(known, a).value))
  {
  }

  lemma NumeralTarget(ty: Ty, v: int)
    requires Signed(v) && (ty == BoolTy ==> IsBit(v))
    ensures Target(ConstInt, ty, IL.Numeral(v), []) == Some(Num(v))
  {
    hide IL.Meaning, IL.Numeral;
    IL.NumeralReads(v);
    WrapSigned(v);
  }

  lemma OperandsNone(regs: Regs)
    ensures Operands([], regs) == Some([])
  {
  }

  /// A constant: what the pass notes is what the target loads.
  lemma ConstantStep(w: World, i: Instr, known: Constants, c: Config)
    requires Machine(w) && Suits(i, known) && Known(known, c.regs) && (i.op == ConstInt || i.op == ConstBool) && Step(w, i, c).Some?
    requires i.result.Some? ==> i.result.value !in known && !i.result.value.Slot?
    ensures FoldInstr(i, known).0 == i && Known(FoldInstr(i, known).1, Step(w, i, c).value.regs)
  {
    hide Parse, IL.Meaning, Operands, ReadsAlike, Wide;
    if i.op == ConstInt { LiteralsAgree(i.text); } else { BoolText(); }
    var vs := Operands(i.args, c.regs).value;
    TargetOf(w, i.op, i.ty, i.text, vs);
  }

  /// The operands of an instruction that is folded.
  lemma FoldedOperands(known: Constants, regs: Regs, args: seq<Name>)
    requires Known(known, regs) && (|args| == 1 || |args| == 2) && forall a :: a in args ==> Get(known, a).Some?
    ensures args[0] in known && (|args| == 1 ==> Operands(args, regs) == Some([Num(known[args[0]])]))
    ensures |args| == 2 ==> args[1] in known && Operands(args, regs) == Some([Num(known[args[0]]), Num(known[args[1]])])
  {
    KnownOperand(known, regs, args[0]);
    if |args| == 1 {
      F.OneOperand(args[0], regs);
      assert args == [args[0]];
    } else {
      assert args[1] in args;
      KnownOperand(known, regs, args[1]);
      F.OneOperand(args[1], regs);
      assert args[1..] == [args[1]];
      assert [Num(known[args[0]])] + [Num(known[args[1]])] == [Num(known[args[0]]), Num(known[args[1]])];
    }
  }

  /// An instruction that becomes a constant puts the same value in its register.
  lemma FoldedStep(w: World, i: Instr, known: Constants, c: Config)
    requires Machine(w) && Suits(i, known) && Known(known, c.regs) && (i.op == Binary || i.op == Compare) && Step(w, i, c).Some?
    requires FoldInstr(i, known).0 != i
    requires i.result.Some? ==> i.result.value !in known && !i.result.value.Slot?
    ensures Step(w, FoldInstr(i, known).0, c) == Step(w, i, c)
    ensures Known(FoldInstr(i, known).1, Step(w, i, c).value.regs)
  {
    hide Parse, Operands, Target, FoldBinary, FoldCompare, IL.Numeral, IL.Meaning, Complement, Known, Wide, IsLogical, IsFlip;
    var (j, known') := FoldInstr(i, known);
    assert forall a :: a in i.args ==> Get(known, a).Some?;
    FoldedOperands(known, c.regs, i.args);
    OperandsNone(c.regs);
    var vs := Operands(i.args, c.regs).value;
    TargetOf(w, i.op, i.ty, i.text, vs);
    var v := known'[i.result.value];
    if i.op == Binary && |i.args| == 1 {
      FlipTarget(i.ty, known[i.args[0]]);
    } else if i.op == Binary {
      BinaryTarget(i.ty, i.text, known[i.args[0]], known[i.args[1]]);
    } else {
      CompareTarget(i, known);
      BoolIsWide();
    }
    TargetOf(w, j.op, j.ty, j.text, []);
    KnownMore(known, c.regs, i.result.value, v);
  }

  lemma FlipTarget(ty: Ty, a: int)
    requires Signed(a) && Target(Binary, ty, "!", [Num(a)]).Some?
    ensures var v := Complement(ty, a);
      && Target(Binary, ty, "!", [Num(a)]) == Some(Num(v))
      && Target(if ty == BoolTy then ConstBool else ConstInt, ty, IL.Numeral(v), []) == Some(Num(v))
  {
    hide IL.Numeral, IL.Meaning;
    var v := Complement(ty, a);
    if ty == BoolTy { ComplementBool(a); } else { NumeralTarget(ty, v); }
  }

  lemma BinaryTarget(ty: Ty, op: string, a: int, b: int)
    requires Signed(a) && Signed(b) && Specified(Binary, ty, op) && FoldBinary(op, UnsignedTy(ty), a, b).Some?
    requires Target(Binary, ty, op, [Num(a), Num(b)]).Some?
    ensures var v := FoldBinary(op, UnsignedTy(ty), a, b).value;
      && Target(Binary, ty, op, [Num(a), Num(b)]) == Some(Num(v))
      && Target(ConstInt, ty, IL.Numeral(v), []) == Some(Num(v))
  {
    hide Execute, ArithmeticOpcode, IL.Numeral, IL.Meaning;
    NotOverflow(ty, op, a, b);
    FoldMatchesBackend(op, UnsignedTy(ty), a, b);
    if ty == BoolTy { NotFlip(op, a, b); LogicalKeepsBits(op, a, b); }
    hide FoldBinary;
    NumeralTarget(ty, FoldBinary(op, UnsignedTy(ty), a, b).value);
  }

  lemma NotFlip(op: string, a: int, b: int)
    requires Signed(a) && Signed(b) && FoldBinary(op, false, a, b).Some?
    ensures !IsFlip(op)
  {
  }

  lemma CompareTarget(i: Instr, known: Constants)
    requires i.op == Compare && Suits(i, known) && |i.args| == 2 && i.args[0] in known && i.args[1] in known
    requires Target(Compare, i.ty, i.text, [Num(known[i.args[0]]), Num(known[i.args[1]])]).Some?
    ensures var v := if FoldCompare(i.text, UnsignedTy(i.ty), known[i.args[0]], known[i.args[1]]) then 1 else 0;
      && Target(Compare, i.ty, i.text, [Num(known[i.args[0]]), Num(known[i.args[1]])]) == Some(Num(v))
      && Target(ConstBool, BoolTy, if v == 1 then "1" else "0", []) == Some(Num(v))
  {
    hide Test, ComparePredicate, FoldCompare;
    if i.ty == BoolTy {
      BoolCompareMatchesBackend(i.text, known[i.args[0]], known[i.args[1]]);
    } else {
      CompareMatchesBackend(i.text, UnsignedTy(i.ty), known[i.args[0]], known[i.args[1]]);
    }
  }

  lemma TargetOf(w: World, op: Op, ty: Ty, text: string, vs: seq<Value>)
    requires Machine(w) && Specified(op, ty, text)
    ensures w.apply(op, ty, text, vs) == Target(op, ty, text, vs)
  {
  }

  lemma BoolIsWide()
    ensures Wide(BoolTy)
  {
  }

  lemma ComplementBool(a: int)
    requires Signed(a)
    ensures Target(ConstBool, BoolTy, IL.Numeral(Complement(BoolTy, a)), []) == Some(Num(Complement(BoolTy, a)))
  {
    assert IL.Decimal(0) == "0" && IL.Decimal(1) == "1";
  }

  lemma NotOverflow(ty: Ty, op: string, a: int, b: int)
    requires Signed(a) && Signed(b) && Execute(ArithmeticOpcode(UnsignedTy(ty), op), a, b).Some?
    ensures !((op == "/" || op == "%") && !UnsignedTy(ty) && a == -TWO63 && b == -1)
  {
  }

  lemma KnownMore(known: Constants, regs: Regs, r: Name, v: int)
    requires Known(known, regs) && Signed(v) && !r.Slot?
    ensures Known(known[r := v], regs[r := Num(v)])
  {
  }

  /// Everything else is left alone and touches no known constant.
  lemma KeptStep(w: World, i: Instr, known: Constants, c: Config)
    requires !IsTerminator(i.op) && Known(known, c.regs) && Step(w, i, c).Some? && FoldInstr(i, known) == (i, known)
    requires i.result.Some? ==> i.result.value !in known
    ensures Known(known, Step(w, i, c).value.regs)
  {
    hide FoldInstr, Operands;
  }

  ghost predicate Apart(instrs: seq<Instr>, known: Constants) {
    && (forall k :: 0 <= k < |instrs| && instrs[k].result.Some? ==> instrs[k].result.value !in known && (IsConstantLike(instrs[k]) ==> !instrs[k].result.value.Slot?))
    && (forall k, j :: 0 <= k < j < |instrs| && instrs[j].result.Some? ==> instrs[j].result != instrs[k].result)
  }

  predicate IsConstantLike(i: Instr) { i.op == ConstInt || i.op == ConstBool || i.op == Binary || i.op == Compare }

  lemma NextApart(instrs: seq<Instr>, known: Constants)
    requires instrs != [] && Apart(instrs, known)
    ensures Apart(instrs[1..], FoldInstr(instrs[0], known).1)
  {
    hide Parse, FoldBinary, FoldCompare, Complement, IL.Numeral;
    var known' := FoldInstr(instrs[0], known).1;
    assert forall r :: r in known' ==> r in known || instrs[0].result == Some(r);
    forall k | 0 <= k < |instrs[1..]| && instrs[1..][k].result.Some?
      ensures instrs[1..][k].result.value !in known' && (IsConstantLike(instrs[1..][k]) ==> !instrs[1..][k].result.value.Slot?)
    {
      assert instrs[1..][k] == instrs[k + 1];
    }
  }

  lemma FoldStep(w: World, i: Instr, known: Constants, c: Config)
    requires Machine(w) && Suits(i, known) && Known(known, c.regs) && !IsTerminator(i.op) && Step(w, i, c).Some?
    requires i.result.Some? ==> i.result.value !in known && (IsConstantLike(i) ==> !i.result.value.Slot?)
    ensures Step(w, FoldInstr(i, known).0, c) == Step(w, i, c) && !IsTerminator(FoldInstr(i, known).0.op)
    ensures Known(FoldInstr(i, known).1, Step(w, i, c).value.regs)
  {
    hide Parse, FoldBinary, FoldCompare, Complement, IL.Numeral, Known, Step, Machine, ReadsAlike, Literal, Specified, OrderSafe, Wide;
    if i.op == ConstInt || i.op == ConstBool {
      ConstantStep(w, i, known, c);
    } else if (i.op == Binary || i.op == Compare) && FoldInstr(i, known).0 != i {
      FoldedStep(w, i, known, c);
    } else {
      KeptStep(w, i, known, c);
    }
  }

  lemma FoldTerminator(i: Instr, known: Constants)
    requires IsTerminator(i.op)
    ensures FoldInstr(i, known).0 == i
  {
  }

  lemma {:induction false} FoldExec(w: World, instrs: seq<Instr>, known: Constants, c: Config)
    requires Machine(w) && SuitsFrom(instrs, known) && Apart(instrs, known) && Known(known, c.regs)
    requires !Exec(w, instrs, c).Faults?
    ensures Exec(w, Fold(instrs, known), c) == Exec(w, instrs, c)
    decreases instrs
  {
    hide Step, Machine, Suits, Known, FoldInstr;
    if instrs != [] {
      var i := instrs[0];
      var (j, known') := FoldInstr(i, known);
      var rest := Fold(instrs[1..], known');
      assert Fold(instrs, known) == [j] + rest && ([j] + rest)[1..] == rest;
      NextApart(instrs, known);
      if IsTerminator(i.op) {
        FoldTerminator(i, known);
      } else {
        FoldStep(w, i, known, c);
        FoldExec(w, instrs[1..], known', Step(w, i, c).value);
      }
    }
  }

  ghost predicate SuitsAll(blocks: seq<Block>) {
    forall b :: b in blocks ==> Apart(b.instrs, map[]) && SuitsFrom(b.instrs, map[])
  }

  lemma {:induction false} FoldableSuits(instrs: seq<Instr>, known: Constants)
    requires forall i :: i in instrs ==> Foldable(i)
    ensures SuitsFrom(instrs, known)
    decreases instrs
  {
    hide FoldInstr, Readable;
    if instrs != [] {
      assert Foldable(instrs[0]);
      FoldableSuits(instrs[1..], FoldInstr(instrs[0], known).1);
    }
  }

  lemma FindFolded(blocks: seq<Block>, l: Label)
    ensures FindLabel(FoldAll(blocks), l) == FindLabel(blocks, l)
  {
    assert forall k :: 0 <= k < |blocks| ==> FoldAll(blocks)[k].tag == blocks[k].tag;
  }

  lemma {:induction false} FoldRun(w: World, blocks: seq<Block>, i: nat, c: Config, fuel: nat)
    requires Machine(w) && SuitsAll(blocks) && !RunFrom(w, blocks, i, 0, c, fuel).Faulted?
    ensures RunFrom(w, FoldAll(blocks), i, 0, c, fuel) == RunFrom(w, blocks, i, 0, c, fuel)
    decreases fuel
  {
    hide Machine, Exec, Fold, Apart, SuitsFrom, FindLabel, FoldAll;
    var after := FoldAll(blocks);
    var instrs := blocks[i].instrs;
    assert blocks[i] in blocks;
    assert instrs[0..] == instrs && after[i].instrs[0..] == after[i].instrs;
    NothingKnown(c.regs);
    FoldExec(w, instrs, map[], c);
    var e := Exec(w, instrs, c);
    if fuel > 0 {
      if e.Falls? {
        FoldRun(w, blocks, i + 1, e.c, fuel - 1);
      } else if e.Goes? {
        FindFolded(blocks, e.target);
        FoldRun(w, blocks, FindLabel(blocks, e.target), e.c, fuel - 1);
      }
    }
  }

  lemma NothingKnown(regs: Regs)
    ensures Known(map[], regs)
  {
  }

  /// Folding keeps every run that does not fault (as signed division overflow
  /// and division by zero do): the same registers, effects and result.
  lemma FoldingPreservesRuns(w: World, blocks: seq<Block>, c: Config, fuel: nat)
    requires Machine(w) && SuitsAll(blocks) && !Run(w, blocks, c, fuel).Faulted?
    ensures Run(w, FoldAll(blocks), c, fuel) == Run(w, blocks, c, fuel)
  {
    FoldRun(w, blocks, 0, c, fuel);
  }

  // ---- which literals agree ----

  /// The pass reads an integer literal as the backend does, or not at all.
  predicate Agrees(text: string)
    requires Literal(text)
  {
    Parse(text).None? || Parse(text).value == Wrap(IL.Meaning(text).value)
  }

  /// Without underscores the two readings of digits are the same.
  lemma {:induction false} SameDigits(s: string, base: nat, so: nat)
    requires '_' !in s
    ensures Digits(s, base, so) == (match IL.Magnitude(s, base, so) case None => None case Some(n) => Some(n))
    decreases |s|
  {
    if s != [] {
      assert s[0] in s;
      match IL.DigitValue(s[0])
      case None =>
      case Some(d) => SameDigits(s[1..], base, so * base + d);
    }
  }

  /// What is no digit of the base stops the folder.
  lemma {:induction false} Stops(s: string, c: char, base: nat, so: nat)
    requires c in s && (IL.DigitValue(c).None? || IL.DigitValue(c).value >= base)
    ensures Digits(s, base, so).None?
    decreases |s|
  {
    if s[0] != c {
      match IL.DigitValue(s[0])
      case None =>
      case Some(d) => Stops(s[1..], c, base, so * base + d);
    }
  }

  predicate OctalDigits(s: string) { forall c :: c in s ==> '0' <= c <= '7' }

  lemma {:induction false} DecimalDigits(s: string, so: nat)
    requires IL.Magnitude(s, 10, so).Some? && '_' !in s && '8' !in s && '9' !in s
    ensures OctalDigits(s)
    decreases |s|
  {
    if s != [] {
      assert s[0] in s && s == [s[0]] + s[1..];
      DecimalDigits(s[1..], so * 10 + IL.DigitValue(s[0]).value);
    }
  }

  /// Once the value so far is less, it stays less.
  lemma {:induction false} OctalBelow(s: string, low: nat, high: nat)
    requires low < high && OctalDigits(s)
    ensures IL.Magnitude(s, 8, low).Some? && IL.Magnitude(s, 10, high).Some?
    ensures IL.Magnitude(s, 8, low).value < IL.Magnitude(s, 10, high).value && high <= IL.Magnitude(s, 10, high).value
    decreases |s|
  {
    if s != [] {
      assert s[0] in s && forall c :: c in s[1..] ==> c in s;
      var d := (s[0] - '0') as nat;
      assert low * 8 + d < high * 10 + d;
      OctalBelow(s[1..], low * 8 + d, high * 10 + d);
    }
  }

  /// Octal digits are worth less in base 8 than in base 10, but for one digit.
  lemma {:induction false} OctalAgainstDecimal(s: string, so: nat)
    requires so < 8 && OctalDigits(s)
    ensures IL.Magnitude(s, 8, so).Some? && IL.Magnitude(s, 10, so).Some?
    ensures var o, d := IL.Magnitude(s, 8, so).value, IL.Magnitude(s, 10, so).value;
      (d < 8 ==> o == d) && (d >= 8 ==> o < d)
    decreases |s|
  {
    if s != [] {
      assert s[0] in s && forall c :: c in s[1..] ==> c in s;
      var d := (s[0] - '0') as nat;
      if so == 0 {
        OctalAgainstDecimal(s[1..], d);
      } else {
        OctalBelow(s[1..], so * 8 + d, so * 10 + d);
      }
    }
  }

  lemma SaturateIs(v: int)
    requires -TWO64 < v < TWO64
    ensures Saturate(v) == Wrap(v) <==> Signed(v)
  {
  }

  /// A number closer to zero, of the same sign or zero, is another pattern.
  lemma SmallerDiffers(v: int, o: int)
    requires -TWO64 < v < TWO64 && ((0 <= o < v) || (v < o <= 0))
    ensures Saturate(o) != Wrap(v)
  {
  }

  /// The folder reads a literal of less than 2^64 as the backend does, or not
  /// at all, if and only if its spelling and value are as `ReadsAlike` says.
  lemma LiteralsAgree(text: string)
    requires Literal(text)
    ensures Agrees(text) <==> ReadsAlike(text)
  {
    var body := IL.Signless(text);
    if '_' in text {
      UnderscoreStops(text);
    } else if Prefixed(body, {'b', 'B', 'o', 'O'}) {
      Stops(body, body[1], 8, 0);
    } else if Prefixed(body, {'x', 'X'}) {
      HexAgrees(text);
    } else if body == [] || body[0] != '0' {
      PlainAgrees(text);
    } else {
      LeadingZeroAgrees(text);
    }
  }

  lemma UnderscoreStops(text: string)
    requires '_' in text
    ensures Parse(text).None?
  {
    var body := IL.Signless(text);
    assert '_' in body;
    if |body| > 2 && body[0] == '0' && (body[1] == 'x' || body[1] == 'X') {
      assert body == [body[0], body[1]] + body[2..];
      Stops(body[2..], '_', 16, 0);
    } else {
      Stops(body, '_', 8, 0);
      Stops(body, '_', 10, 0);
    }
  }

  lemma HexAgrees(text: string)
    requires Literal(text) && '_' !in text && Prefixed(IL.Signless(text), {'x', 'X'})
    ensures Agrees(text) <==> Signed(IL.Meaning(text).value)
  {
    var body := IL.Signless(text);
    assert forall c :: c in body[2..] ==> c in text;
    SameDigits(body[2..], 16, 0);
    SaturateIs(IL.Meaning(text).value);
  }

  lemma PlainAgrees(text: string)
    requires Literal(text) && '_' !in text && (IL.Signless(text) == [] || IL.Signless(text)[0] != '0')
    ensures Agrees(text) <==> Signed(IL.Meaning(text).value)
  {
    var body := IL.Signless(text);
    assert forall c :: c in body ==> c in text;
    SameDigits(body, 10, 0);
    SaturateIs(IL.Meaning(text).value);
  }

  lemma LeadingZeroAgrees(text: string)
    requires Literal(text) && '_' !in text
    requires var body := IL.Signless(text); body != [] && body[0] == '0' && !Prefixed(body, {'b', 'B', 'o', 'O', 'x', 'X'})
    ensures var body, v := IL.Signless(text), IL.Meaning(text).value;
      Agrees(text) <==> '8' in body || '9' in body || -8 < v < 8
  {
    var body, v := IL.Signless(text), IL.Meaning(text).value;
    assert forall c :: c in body ==> c in text;
    if '8' in body {
      Stops(body, '8', 8, 0);
    } else if '9' in body {
      Stops(body, '9', 8, 0);
    } else {
      DecimalDigits(body, 0);
      OctalAgainstDecimal(body, 0);
      SameDigits(body, 8, 0);
      var o: int := IL.Magnitude(body, 8, 0).value;
      var read := if body != text then -o else o;
      hide IL.Magnitude;
      assert Parse(text) == Some(Saturate(read));
      if -8 < v < 8 { SaturateIs(v); } else { SmallerDiffers(v, read); }
    }
  }

  // ---- the order of bool ----

  function Bit(b: bool): int { if b then 1 else 0 }
  function BoolConst(n: nat, b: bool): Instr { Instr(ConstBool, Some(Temp(n)), BoolTy, [], if b then "1" else "0", false) }
  function BoolCompare(op: string): Instr { Instr(Compare, Some(Temp(2)), BoolTy, [Temp(0), Temp(1)], op, false) }
  function BoolReturn(): Instr { Instr(Return, None, BoolTy, [Temp(2)], "", false) }

  /// `return a op b` for two constants of type `bool`.
  function Ordered(a: bool, b: bool, op: string): seq<Block> {
    [Block(Entry, [BoolConst(0, a), BoolConst(1, b), BoolCompare(op), BoolReturn()], true)]
  }

  lemma ConstRuns(w: World, n: nat, b: bool, c: Config)
    requires Machine(w)
    ensures Step(w, BoolConst(n, b), c) == Some(c.(regs := c.regs[Temp(n) := Num(Bit(b))]))
  {
    hide Operands, Machine;
    BoolIsWide();
    OperandsNone(c.regs);
    TargetOf(w, ConstBool, BoolTy, if b then "1" else "0", []);
  }

  lemma ExecFour(w: World, x: Instr, y: Instr, z: Instr, u: Instr, c: Config, c1: Config, c2: Config, c3: Config)
    requires !IsTerminator(x.op) && !IsTerminator(y.op) && !IsTerminator(z.op) && IsTerminator(u.op)
    requires Step(w, x, c) == Some(c1) && Step(w, y, c1) == Some(c2) && Step(w, z, c2) == Some(c3)
    ensures Exec(w, [x, y, z, u], c) == Terminate(u, c3)
  {
    hide Step, Terminate, Exec;
    assert [x, y, z, u] == [x] + ([y] + ([z] + [u])) && [u] == [u] + [];
    F.ExecCons(w, x, [y] + ([z] + [u]), c);
    F.ExecCons(w, y, [z] + [u], c1);
    F.ExecCons(w, z, [u], c2);
    F.ExecCons(w, u, [], c3);
  }

  lemma RunOne(w: World, instrs: seq<Instr>, c: Config, v: Option<Value>, d: Config)
    requires Exec(w, instrs, c) == Returns(v, d)
    ensures Run(w, [Block(Entry, instrs, true)], c, 0) == Returned(v, d.trace)
  {
    hide Exec;
    assert instrs[0..] == instrs;
  }

  function TwoBools(regs: Regs, a: bool, b: bool): Regs { regs[Temp(0) := Num(Bit(a))][Temp(1) := Num(Bit(b))] }

  /// The block with its third instruction replaced by one that yields `v`.
  lemma OrderedRuns(w: World, a: bool, b: bool, i: Instr, c: Config, v: int)
    requires Machine(w) && IsConstantLike(i) && i.result == Some(Temp(2))
    requires Operands(i.args, TwoBools(c.regs, a, b)).Some?
    requires w.apply(i.op, i.ty, i.text, Operands(i.args, TwoBools(c.regs, a, b)).value) == Some(Num(v))
    ensures Run(w, [Block(Entry, [BoolConst(0, a), BoolConst(1, b), i, BoolReturn()], true)], c, 0) == Returned(Some(Num(v)), c.trace)
  {
    var c1 := c.(regs := c.regs[Temp(0) := Num(Bit(a))]);
    var c2 := c.(regs := TwoBools(c.regs, a, b));
    var c3 := c2.(regs := c2.regs[Temp(2) := Num(v)]);
    hide Operands, Machine, Exec, Run;
    ConstRuns(w, 0, a, c);
    ConstRuns(w, 1, b, c1);
    assert Step(w, i, c2) == Some(c3);
    ExecFour(w, BoolConst(0, a), BoolConst(1, b), i, BoolReturn(), c, c1, c2, c3);
    RunOne(w, [BoolConst(0, a), BoolConst(1, b), i, BoolReturn()], c, Some(Num(v)), c3);
  }

  lemma FoldCons(i: Instr, rest: seq<Instr>, known: Constants)
    ensures Fold([i] + rest, known) == [FoldInstr(i, known).0] + Fold(rest, FoldInstr(i, known).1)
  {
    assert ([i] + rest)[1..] == rest;
  }

  lemma FoldFour(x: Instr, y: Instr, z: Instr, u: Instr, k1: Constants, k2: Constants, z': Instr, k3: Constants)
    requires FoldInstr(x, map[]) == (x, k1) && FoldInstr(y, k1) == (y, k2) && FoldInstr(z, k2) == (z', k3) && FoldInstr(u, k3) == (u, k3)
    ensures Fold([x, y, z, u], map[]) == [x, y, z', u]
  {
    hide FoldInstr, Fold;
    assert [x, y, z, u] == [x] + ([y] + ([z] + [u])) && [u] == [u] + [];
    FoldCons(x, [y] + ([z] + [u]), map[]);
    FoldCons(y, [z] + [u], k1);
    FoldCons(z, [u], k2);
    FoldCons(u, [], k3);
    FoldNothing(k3);
    assert [x] + ([y] + ([z'] + ([u] + []))) == [x, y, z', u];
  }

  lemma ConstFolds(n: nat, b: bool, known: Constants)
    ensures FoldInstr(BoolConst(n, b), known) == (BoolConst(n, b), known[Temp(n) := Bit(b)])
  {
    hide Parse;
    BoolText();
  }

  lemma CompareFolds(op: string, known: Constants)
    requires IsComparison(op) && Temp(0) in known && Temp(1) in known
    ensures var holds := FoldCompare(op, false, known[Temp(0)], known[Temp(1)]);
      FoldInstr(BoolCompare(op), known) == (BoolConst(2, holds), known[Temp(2) := Bit(holds)])
  {
    hide Parse, FoldCompare, FoldBinary;
  }

  lemma OrderedFolds(a: bool, b: bool, op: string)
    requires IsComparison(op)
    ensures var holds := FoldCompare(op, false, Bit(a), Bit(b));
      FoldAll(Ordered(a, b, op)) == [Block(Entry, [BoolConst(0, a), BoolConst(1, b), BoolConst(2, holds), BoolReturn()], true)]
  {
    hide Fold, FoldInstr, FoldCompare;
    var k1: Constants := map[Temp(0) := Bit(a)];
    var k2: Constants := k1[Temp(1) := Bit(b)];
    var holds := FoldCompare(op, false, Bit(a), Bit(b));
    var k3: Constants := k2[Temp(2) := Bit(holds)];
    ConstFolds(0, a, map[]);
    ConstFolds(1, b, k1);
    CompareFolds(op, k2);
    assert FoldInstr(BoolReturn(), k3) == (BoolReturn(), k3) by { ReturnFolds(k3); }
    FoldFour(BoolConst(0, a), BoolConst(1, b), BoolCompare(op), BoolReturn(), k1, k2, BoolConst(2, holds), k3);
    assert Ordered(a, b, op)[1..] == [];
  }

  lemma ReturnFolds(known: Constants)
    ensures FoldInstr(BoolReturn(), known) == (BoolReturn(), known)
  {
  }

  lemma FoldNothing(known: Constants)
    ensures Fold([], known) == []
  {
  }

  /// Folding an ordered comparison of two constants of type `bool` keeps the
  /// run if and only if the operator asks for equality or they are equal.
  lemma BoolOrderFolds(w: World, a: bool, b: bool, op: string, c: Config)
    requires Machine(w) && IsComparison(op)
    ensures Run(w, FoldAll(Ordered(a, b, op)), c, 0) == Run(w, Ordered(a, b, op), c, 0) <==> op == "==" || op == "!=" || a == b
    ensures Run(w, Ordered(a, b, op), c, 0).Returned?
  {
    hide Run, Operands, FoldAll, Machine, FoldCompare, Test, ComparePredicate;
    var regs := TwoBools(c.regs, a, b);
    var holds := FoldCompare(op, false, Bit(a), Bit(b));
    var tested := Test(ComparePredicate(false, op), Reading(BoolTy, Bit(a)), Reading(BoolTy, Bit(b)));
    BoolIsWide();
    OperandsNone(regs);
    TargetOf(w, ConstBool, BoolTy, if holds then "1" else "0", []);
    OrderedRuns(w, a, b, BoolConst(2, holds), c, Bit(holds));
    CompareOperands(a, b, c.regs);
    TargetOf(w, Compare, BoolTy, op, [Num(Bit(a)), Num(Bit(b))]);
    OrderedRuns(w, a, b, BoolCompare(op), c, Bit(tested));
    OrderedFolds(a, b, op);
    BoolCompareMatchesBackend(op, Bit(a), Bit(b));
  }

  lemma CompareOperands(a: bool, b: bool, regs: Regs)
    ensures Operands([Temp(0), Temp(1)], TwoBools(regs, a, b)) == Some([Num(Bit(a)), Num(Bit(b))])
  {
    FoldedOperands(map[Temp(0) := Bit(a), Temp(1) := Bit(b)], TwoBools(regs, a, b), [Temp(0), Temp(1)]);
  }

  /// `true < false` folds to false; the target finds it true.
  lemma TrueIsBelowFalse(w: World, c: Config)
    requires Machine(w)
    ensures Run(w, Ordered(true, false, "<"), c, 0) == Returned(Some(Num(1)), c.trace)
    ensures Run(w, FoldAll(Ordered(true, false, "<")), c, 0) == Returned(Some(Num(0)), c.trace)
  {
    hide Run, Operands, FoldAll, Machine;
    BoolIsWide();
    OperandsNone(TwoBools(c.regs, true, false));
    TargetOf(w, ConstBool, BoolTy, "0", []);
    OrderedRuns(w, true, false, BoolConst(2, false), c, 0);
    CompareOperands(true, false, c.regs);
    TargetOf(w, Compare, BoolTy, "<", [Num(1), Num(0)]);
    OrderedRuns(w, true, false, BoolCompare("<"), c, 1);
    OrderedFolds(true, false, "<");
  }
}
