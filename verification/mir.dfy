/// The compiler's middle representation (include/uinx/mir.hpp) and its meaning.
///
/// The source's value strings fall into disjoint classes by their spelling
/// (`%tN`, `%hint.slot.N`, `%arg.name`, block labels); `Name` keeps the classes.

module Mir {
  datatype Option<+T> = None | Some(value: T)

  datatype Ty = UnitTy | BoolTy | IntTy(name: string) | OtherTy(name: string)

  datatype Label = Entry | Numbered(kind: string, index: nat)

  datatype Name =
    | Temp(n: nat)
    | Slot(hint: string, n: nat)
    | Arg(param: string)
    | LabelName(target: Label)
    | Plain(text: string)

  datatype Op =
    | Alloca | ConstInt | ConstFloat | ConstBool | ConstChar | ConstString | StructInit
    | Load | Store | AtomicRmw | Fence | CompilerFence | FieldAddr | IndexAddr
    | Binary | Compare | Call | Cast | AddressOf | Await | InlineAsm | Drop
    | Jump | CondJump | Return

  datatype Instr = Instr(op: Op, result: Option<Name>, ty: Ty, args: seq<Name>, text: string, flag: bool)

  datatype Block = Block(tag: Label, instrs: seq<Instr>, terminated: bool)

  predicate IsTerminator(op: Op) { op == Jump || op == CondJump || op == Return }

  // ---- meaning ----

  datatype Value = Num(i: int) | SlotPtr(slot: Name) | Ptr(id: int)

  /// Local slots by name, and everything else, of which only `World` knows more.
  datatype Mem = Mem(slots: map<Name, Value>, rest: int)

  type Regs = map<Name, Value>

  datatype Event = Event(op: Op, text: string, args: seq<Value>)

  datatype Config = Config(regs: Regs, mem: Mem, trace: seq<Event>)

  /// What the representation leaves to the target: constants and operators,
  /// memory reached through computed addresses, and the outside world. All
  /// results hold for every `World`.
  datatype World = World(
    apply: (Op, Ty, string, seq<Value>) -> Option<Value>,
    peek: (Mem, Value) -> Option<Value>,
    poke: (Mem, Value, Value) -> Mem,
    respond: (seq<Event>, Mem) -> (Value, Mem))

  /// A slot name denotes its address; other names are registers.
  function Operand(n: Name, regs: Regs): Option<Value> {
    if n.Slot? then Some(SlotPtr(n)) else if n in regs then Some(regs[n]) else None
  }

  function Operands(args: seq<Name>, regs: Regs): Option<seq<Value>> {
    if args == [] then Some([])
    else match Operand(args[0], regs)
      case None => None
      case Some(v) =>
        match Operands(args[1..], regs)
        case None => None
        case Some(vs) => Some([v] + vs)
  }

  function ReadMem(w: World, m: Mem, address: Value): Option<Value> {
    if address.SlotPtr? then (if address.slot in m.slots then Some(m.slots[address.slot]) else None)
    else w.peek(m, address)
  }

  function WriteMem(w: World, m: Mem, address: Value, v: Value): Mem {
    if address.SlotPtr? then m.(slots := m.slots[address.slot := v]) else w.poke(m, address, v)
  }

  function SetResult(result: Option<Name>, v: Value, regs: Regs): Regs {
    match result case None => regs case Some(r) => regs[r := v]
  }

  /// Operations that compute a value from their operands and nothing else.
  predicate IsValueOp(op: Op) {
    op in {ConstInt, ConstFloat, ConstBool, ConstChar, ConstString, StructInit, FieldAddr, IndexAddr, Binary, Compare, Cast, AddressOf}
  }

  /// One instruction that is not a terminator; `None` is a fault.
  function Step(w: World, i: Instr, c: Config): Option<Config>
    requires !IsTerminator(i.op)
  {
    match Operands(i.args, c.regs)
    case None => None
    case Some(vs) =>
      if i.op == Alloca then Some(c)
      else if i.op == Load && !i.flag then
        if |vs| == 0 then None
        else match ReadMem(w, c.mem, vs[0])
          case None => None
          case Some(v) => Some(c.(regs := SetResult(i.result, v, c.regs)))
      else if i.op == Store && !i.flag then
        if |vs| < 2 then None
        else Some(Config(c.regs, WriteMem(w, c.mem, vs[1], vs[0]), c.trace + [Event(Store, i.text, vs)]))
      else if IsValueOp(i.op) then
        match w.apply(i.op, i.ty, i.text, vs)
        case None => None
        case Some(v) => Some(c.(regs := SetResult(i.result, v, c.regs)))
      else
        // Calls, atomics, fences, assembly, awaits and drops.
        var trace := c.trace + [Event(i.op, i.text, vs)];
        var answer := w.respond(trace, c.mem);
        Some(Config(SetResult(i.result, answer.0, c.regs), answer.1, trace))
  }

  /// How a block (or what is left of one) ends.
  datatype Ending =
    | Falls(c: Config)
    | Goes(target: Label, c: Config)
    | Returns(value: Option<Value>, c: Config)
    | Faults(c: Config)

  function Terminate(i: Instr, c: Config): Ending
    requires IsTerminator(i.op)
  {
    match i.op
    case Jump => if |i.args| == 1 && i.args[0].LabelName? then Goes(i.args[0].target, c) else Faults(c)
    case CondJump =>
      if |i.args| == 3 && i.args[1].LabelName? && i.args[2].LabelName? then
        match Operand(i.args[0], c.regs)
        case Some(Num(b)) => Goes(if b != 0 then i.args[1].target else i.args[2].target, c)
        case _ => Faults(c)
      else Faults(c)
    case _ =>
      if |i.args| == 0 then Returns(None, c)
      else match Operand(i.args[0], c.regs)
        case None => Faults(c)
        case Some(v) => Returns(Some(v), c)
  }

  function Exec(w: World, instrs: seq<Instr>, c: Config): Ending
    decreases instrs
  {
    if instrs == [] then Falls(c)
    else if IsTerminator(instrs[0].op) then Terminate(instrs[0], c)
    else match Step(w, instrs[0], c)
      case None => Faults(c)
      case Some(c') => Exec(w, instrs[1..], c')
  }

  /// The index of the block labelled `l`, or the number of blocks.
  function FindLabel(blocks: seq<Block>, l: Label): (i: nat)
    ensures i <= |blocks| && (i < |blocks| ==> blocks[i].tag == l)
    ensures forall j :: 0 <= j < i ==> blocks[j].tag != l
  {
    if blocks == [] then 0
    else if blocks[0].tag == l then 0
    else
      var i := FindLabel(blocks[1..], l);
      assert forall j :: 0 < j < i + 1 ==> blocks[j] == blocks[1..][j - 1];
      i + 1
  }

  /// What is seen of a run after at most `fuel` block transitions.
  datatype Outcome =
    | Returned(value: Option<Value>, trace: seq<Event>)
    | Faulted(trace: seq<Event>)
    | Running(trace: seq<Event>)

  /// A run from instruction `k` of block `i`.
  function RunFrom(w: World, blocks: seq<Block>, i: nat, k: nat, c: Config, fuel: nat): Outcome
    decreases fuel
  {
    if i >= |blocks| || k > |blocks[i].instrs| then Faulted(c.trace)
    else match Exec(w, blocks[i].instrs[k..], c)
      case Returns(v, c') => Returned(v, c'.trace)
      case Faults(c') => Faulted(c'.trace)
      case Falls(c') => if fuel == 0 then Running(c'.trace) else RunFrom(w, blocks, i + 1, 0, c', fuel - 1)
      case Goes(l, c') => if fuel == 0 then Running(c'.trace) else RunFrom(w, blocks, FindLabel(blocks, l), 0, c', fuel - 1)
  }

  function Run(w: World, blocks: seq<Block>, c: Config, fuel: nat): Outcome {
    RunFrom(w, blocks, 0, 0, c, fuel)
  }

  predicate DistinctLabels(blocks: seq<Block>) {
    forall i, j :: 0 <= i < j < |blocks| ==> blocks[i].tag != blocks[j].tag
  }

  lemma FindDistinct(blocks: seq<Block>, i: nat)
    requires DistinctLabels(blocks) && i < |blocks|
    ensures FindLabel(blocks, blocks[i].tag) == i
  {
    var j := FindLabel(blocks, blocks[i].tag);
    assert j < |blocks|;
  }

  /// More fuel does not change a run that is over.
  lemma {:induction false} FuelMonotone(w: World, blocks: seq<Block>, i: nat, k: nat, c: Config, fuel: nat, more: nat)
    requires fuel <= more && !RunFrom(w, blocks, i, k, c, fuel).Running?
    ensures RunFrom(w, blocks, i, k, c, more) == RunFrom(w, blocks, i, k, c, fuel)
    decreases fuel
  {
    hide Exec, FindLabel;
    if i < |blocks| && k <= |blocks[i].instrs| {
      match Exec(w, blocks[i].instrs[k..], c)
      case Falls(c') => FuelMonotone(w, blocks, i + 1, 0, c', fuel - 1, more - 1);
      case Goes(l, c') => FuelMonotone(w, blocks, FindLabel(blocks, l), 0, c', fuel - 1, more - 1);
      case _ =>
    }
  }
}
