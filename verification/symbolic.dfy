/** A meaning for assembly text that knows nothing of bytes: control is an index into the
    node list, operands are names, and jumps go to labels. */
module Symbolic {
  import opened Words
  import opened Isa
  import opened FlatMemory
  import opened Interrupts
  import opened Machine
  import opened Assembler

  /** An assembled source together with the address its first byte is loaded at. */
  datatype Program = Program(nodes: seq<Node>, labels: Labels, origin: Word)

  predicate Emits(n: Node) {
    n.Ins? || n.Data?
  }

  /** The program assembles, fits below 4 GB, jumps to `&` addresses relative to where it is
      loaded, and does not write the program counter as a register. */
  ghost predicate Valid(p: Program) {
    && Resolvable(p.nodes)
    && MapsPrefix(p.nodes, |p.nodes|, p.labels)
    && Encodable(p.nodes, p.labels)
    && AllWellShaped(p.nodes)
    && p.origin + Offset(p.nodes, |p.nodes|) < WORD_LIMIT
    && (forall k :: 0 <= k < |p.nodes| ==> NodeFits(p, k))
  }

  predicate Pops(op: Op) {
    op.PopR? || op.PopRR? || op.PopRRR?
  }

  /** The registers an instruction names as places to write to. */
  function WrittenNames(i: Instruction): seq<string> {
    if Pops(i.op) then RegistersOf(i)
    else if WritesRegister(i.op) && RegistersOf(i) != [] then [RegistersOf(i)[0]]
    else []
  }

  predicate NodeFits(p: Program, k: nat)
    requires k < |p.nodes|
  {
    match p.nodes[k]
    case Ins(i) =>
      && "cp" !in WrittenNames(i)
      && (i.IA? && i.kind.Absolute? ==> BaseAt(p.nodes, k) == p.origin)
    case _ => true
  }

  // ---------------------------------------------------------------- places

  /** The first node from k on that has bytes, or the end. */
  function Skip(nodes: seq<Node>, k: nat): (r: nat)
    requires k <= |nodes|
    ensures k <= r <= |nodes|
    ensures r < |nodes| ==> Emits(nodes[r])
    ensures Offset(nodes, r) == Offset(nodes, k)
    decreases |nodes| - k
  {
    if k == |nodes| || Emits(nodes[k]) then k else Skip(nodes, k + 1)
  }

  function AddressOf(p: Program, k: nat): Word
    requires k <= |p.nodes| && p.origin + Offset(p.nodes, |p.nodes|) < WORD_LIMIT
  {
    OffsetMonotone(p.nodes, k, |p.nodes|);
    p.origin + Offset(p.nodes, k)
  }

  /** A place control can rest: a node with bytes, or the end of the program. */
  predicate Place(p: Program, k: nat) {
    k == |p.nodes| || (k < |p.nodes| && Emits(p.nodes[k]))
  }

  datatype Ctl = At(i: nat) | Exit(address: Word)

  /** Places have different addresses, so an address names at most one of them. */
  lemma PlacesDiffer(p: Program, i: nat, j: nat)
    requires Valid(p) && Place(p, i) && Place(p, j) && i < j
    ensures AddressOf(p, i) < AddressOf(p, j)
  {
    OffsetMonotone(p.nodes, i + 1, j);
    if p.nodes[i].Ins? {
      LengthIsWords(p.nodes[i].i.op);
    }
  }

  /** Where an address leads: back into the program, or out of it. */
  ghost function Where(p: Program, address: Word): Ctl
    requires Valid(p)
  {
    if k: nat :| Place(p, k) && AddressOf(p, k) == address then At(k) else Exit(address)
  }

  lemma WhereIs(p: Program, k: nat)
    requires Valid(p) && Place(p, k)
    ensures Where(p, AddressOf(p, k)) == At(k)
  {
    var c := Where(p, AddressOf(p, k));
    if c.At? && c.i < k {
      PlacesDiffer(p, c.i, k);
    } else if c.At? && c.i > k {
      PlacesDiffer(p, k, c.i);
    }
  }

  ghost function Target(p: Program, name: string): nat
    requires Valid(p) && Defined(p.nodes, name)
  {
    var k :| 0 <= k < |p.nodes| && DefinesAt(p.nodes, k, name);
    Skip(p.nodes, k)
  }

  /** Resolving a label: any node that defines it gives the target. */
  lemma TargetIs(p: Program, name: string, k: nat)
    requires Valid(p) && DefinesAt(p.nodes, k, name)
    ensures Defined(p.nodes, name) && Target(p, name) == Skip(p.nodes, k)
  {
  }

  function Next(p: Program, i: nat): nat
    requires i < |p.nodes|
  {
    Skip(p.nodes, i + 1)
  }

  // ---------------------------------------------------------------- instructions

  function Operand(i: Instruction, k: nat): Byte {
    if i.IB? then (if k == 0 then i.b else 0)
    else if k < |RegistersOf(i)| && RegisterId(RegistersOf(i)[k]).Some? then RegisterId(RegistersOf(i)[k]).value
    else 0
  }

  function ImmediateOf(p: Program, k: nat): Option<Word>
    requires k < |p.nodes| && p.nodes[k].Ins?
  {
    var r := Immediate(p.nodes[k].i, p.labels, BaseAt(p.nodes, k));
    if r.Ok? then r.value else None
  }

  function Val(m: State, r: Byte): Word {
    if RegGet(m, r).Some? then RegGet(m, r).value else 0
  }

  function RegisterEffect(op: Op, a: Byte, b: Byte, imm: Word, m: State): State
    requires WritesRegister(op)
  {
    match op
    case Mov(src) => RegSet(m, a, if src.Imm? then imm else Val(m, b))
    case Alu(f, src) => RegSet(m, a, Compute(f, Val(m, a), if src.Imm? then imm else Val(m, b)))
    case Inc => RegSet(m, a, Wrap(Val(m, a) + 1))
    case Dec => RegSet(m, a, Wrap(Val(m, a) - 1))
    case LoadRR => LoadFrom(m, a, Val(m, b))
    case LoadRW => LoadFrom(m, a, imm)
    case LoadRRW => LoadFrom(m, a, Wrap(Val(m, b) + imm))
  }

  function MemoryEffect(op: Op, a: Byte, b: Byte, imm: Word, m: State): State
    requires WritesMemory(op)
  {
    match op
    case PushW => PushValue(m, imm)
    case Stor(src) => if src.Imm? then WriteWord(m, imm, Val(m, a)) else WriteWord(m, Val(m, a), Val(m, b))
    case Mi => ExecMask(m, a, true)
    case Umi => ExecMask(m, a, false)
  }

  function OtherEffect(op: Op, a: Byte, b: Byte, imm: Word, m: State): State {
    match op
    case Halt => m.(running := false)
    case Panic => m.(panic := ErrPanic)
    case Cmp(src) => Compare(m, Val(m, a), if src.Imm? then imm else Val(m, b))
    case Int => m.(pending := SetBit(m.pending, a))
    case Ind => m.(enabled := false)
    case Ine => m.(enabled := true)
    case _ => m
  }

  /** The effect of everything but jumps, calls and returns. */
  function Effect(op: Op, a: Byte, b: Byte, c: Byte, imm: Word, m: State): State {
    if IsStack(op) then ExecStack(m, op, a, b, c)
    else if WritesRegister(op) then RegisterEffect(op, a, b, imm, m)
    else if WritesMemory(op) then MemoryEffect(op, a, b, imm, m)
    else OtherEffect(op, a, b, imm, m)
  }

  /** What `cp` stands for as an operand of the instruction at node k: the address behind the
      opcode word, or behind the whole instruction where the register is read after the fetch. */
  ghost function PcSeen(p: Program, k: nat): Word
    requires Valid(p) && k < |p.nodes| && p.nodes[k].Ins?
  {
    if p.nodes[k].i.op == Stor(Imm) then AddressOf(p, Next(p, k)) else Wrap(AddressOf(p, k) + 4)
  }

  // ---------------------------------------------------------------- steps

  /** pc of m is not looked at: ctl takes its place. */
  datatype Sym = Sym(ctl: Ctl, m: State)

  function FirstWord(i: Instruction): Word {
    FromBe([Code(i.op), Operand(i, 0), Operand(i, 1), Operand(i, 2)])
  }

  ghost predicate NodeLoaded(p: Program, f: Flat, k: nat)
    requires Valid(p) && k < |p.nodes|
  {
    p.nodes[k].Ins? ==>
      var a := AddressOf(p, k);
      && a in f.cells && f.cells[a] == FirstWord(p.nodes[k].i)
      && (ImmediateOf(p, k).Some? ==> Wrap(a + 4) in f.cells && f.cells[Wrap(a + 4)] == ImmediateOf(p, k).value)
  }

  /** Every instruction of the program is in memory where it was assembled to be. */
  ghost predicate Loaded(p: Program, f: Flat)
    requires Valid(p)
  {
    forall k :: 0 <= k < |p.nodes| ==> NodeLoaded(p, f, k)
  }

  ghost function JumpTo(p: Program, i: Instruction, kind: AddressKind, m: State): Option<Ctl>
    requires Valid(p)
  {
    if !i.IA? || !Defined(p.nodes, i.name) then None
    else if kind.Segment? && m.cs != p.origin then None
    else Some(At(Target(p, i.name)))
  }

  /** Pushes the return address and goes to the target, unless the push fails. */
  function SymCall(m: State, back: Word, next: Ctl, target: Ctl): Sym {
    var m1 := PushValue(m, back);
    Sym(if m1.panic != ErrOk then next else target, m1)
  }

  ghost function SymRet(p: Program, m: State, next: Ctl): Sym
    requires Valid(p)
  {
    if !Readable(m.mem, m.sp) then Sym(next, m.(panic := ErrRead))
    else Sym(Where(p, m.mem.cells[m.sp]), m.(sp := Wrap(m.sp + 4)))
  }

  /** One instruction at node k. There is no meaning for an `@` jump while cs is not the origin. */
  ghost function Execute(p: Program, k: nat, m: State): Option<Sym>
    requires Valid(p) && k < |p.nodes| && p.nodes[k].Ins?
  {
    var i := p.nodes[k].i;
    var next := At(Next(p, k));
    var back := AddressOf(p, Next(p, k));
    match i.op
    case Jump(cond, kind) =>
      if !Taken(m, cond) then Some(Sym(next, m))
      else
        var c := JumpTo(p, i, kind, m);
        if c.None? then None else Some(Sym(c.value, m))
    case Call(kind) =>
      var c := JumpTo(p, i, kind, m);
      if c.None? then None else Some(SymCall(m, back, next, c.value))
    case CallR => Some(SymCall(m, back, next, Where(p, Val(m.(pc := PcSeen(p, k)), Operand(i, 0)))))
    case Ret => Some(SymRet(p, m, next))
    case Iret =>
      var s := SymRet(p, m, next);
      Some(if s.m.panic != ErrOk then s else s.(m := s.m.(enabled := true)))
    case _ =>
      var imm := if ImmediateOf(p, k).Some? then ImmediateOf(p, k).value else 0;
      var seen := m.(pc := PcSeen(p, k));
      Some(Sym(next, Effect(i.op, Operand(i, 0), Operand(i, 1), Operand(i, 2), imm, seen).(pc := m.pc)))
  }

  /** There is no next step when control is not at an instruction, the machine has stopped,
      an interrupt would be taken, or the program text in memory has been changed. */
  ghost function SymStep(p: Program, s: Sym): Option<Sym>
    requires Valid(p)
  {
    if !s.ctl.At? || s.ctl.i >= |p.nodes| || !p.nodes[s.ctl.i].Ins? then None
    else if !Live(s.m) || Interrupted(s.m) || !Loaded(p, s.m.mem) then None
    else Execute(p, s.ctl.i, s.m)
  }

  ghost function SymRun(p: Program, s: Sym, n: nat): Option<Sym>
    requires Valid(p)
    decreases n
  {
    if n == 0 then Some(s)
    else
      var t := SymStep(p, s);
      if t.None? then None else SymRun(p, t.value, n - 1)
  }

  lemma {:induction false} SymRunSplit(p: Program, s: Sym, a: nat, b: nat)
    requires Valid(p) && SymRun(p, s, a).Some?
    ensures SymRun(p, s, a + b) == SymRun(p, SymRun(p, s, a).value, b)
    decreases a
  {
    hide SymStep;
    if a > 0 {
      SymRunSplit(p, SymStep(p, s).value, a - 1, b);
    }
  }
}

/** The assembled, loaded image simulates the assembly text. */
module Simulation {
  import opened Words
  import opened Isa
  import opened FlatMemory
  import opened Interrupts
  import opened Machine
  import opened Assembler
  import opened Symbolic

  function PcOf(p: Program, c: Ctl): Word
    requires c.At? ==> c.i <= |p.nodes| && p.origin + Offset(p.nodes, |p.nodes|) < WORD_LIMIT
  {
    match c
    case At(i) => AddressOf(p, i)
    case Exit(address) => address
  }

  /** The machine is the symbolic state with pc at the address of its control point. */
  ghost predicate Related(p: Program, s: Sym, m: State)
    requires Valid(p)
  {
    && (s.ctl.At? ==> s.ctl.i <= |p.nodes| && Place(p, s.ctl.i))
    && m == s.m.(pc := PcOf(p, s.ctl))
    && 32 <= |m.regs| <= 250
  }

  // ---------------------------------------------------------------- pc and effects

  /** How many of an operation's operands are registers. */
  function RegisterCount(op: Op): nat {
    var args := Args(op);
    if args == [] || args[0] != R then 0
    else if |args| == 1 || args[1] != R then 1
    else if |args| == 2 || args[2] != R then 2
    else 3
  }

  /** None of the registers written by name is the program counter. */
  predicate NoPc(op: Op, a: Byte, b: Byte, c: Byte) {
    && (WritesRegister(op) ==> a != REG_PC)
    && (Pops(op) ==> a != REG_PC && b != REG_PC && c != REG_PC)
  }

  predicate OperandsValid(m: State, op: Op, a: Byte, b: Byte, c: Byte) {
    && (RegisterCount(op) >= 1 ==> ValidReg(m, a))
    && (RegisterCount(op) >= 2 ==> ValidReg(m, b))
    && (RegisterCount(op) >= 3 ==> ValidReg(m, c))
    && NoPc(op, a, b, c)
  }

  lemma PutRegPc(m: State, r: Byte, v: Word, x: Word)
    requires r != REG_PC && ValidReg(m, r)
    ensures PutReg(m.(pc := x), r, v) == PutReg(m, r, v).(pc := x)
  {
    if r == REG_SP {
    } else if r == REG_CS {
    } else if r == REG_IDT {
    } else if r == REG_IR {
    } else if r == REG_BP {
    } else {
      assert PutReg(m, r, v) == m.(regs := m.regs[r := v]);
    }
  }

  lemma RegSetPc(m: State, r: Byte, v: Word, x: Word)
    requires r != REG_PC
    ensures RegSet(m.(pc := x), r, v) == RegSet(m, r, v).(pc := x)
  {
    hide PutReg;
    if ValidReg(m, r) {
      PutRegPc(m, r, v, x);
    }
  }

  lemma ComparePc(m: State, v: Word, w: Word, x: Word)
    ensures Compare(m.(pc := x), v, w) == Compare(m, v, w).(pc := x)
  {
    hide Wrap, Signed;
  }

  lemma PushValuePc(m: State, v: Word, x: Word)
    ensures PushValue(m.(pc := x), v) == PushValue(m, v).(pc := x)
  {
  }

  lemma LoadFromPc(m: State, r: Byte, address: Word, x: Word)
    requires r != REG_PC
    ensures LoadFrom(m.(pc := x), r, address) == LoadFrom(m, r, address).(pc := x)
  {
    hide RegSet;
    if Readable(m.mem, address) {
      RegSetPc(m, r, m.mem.cells[address], x);
    }
  }

  lemma {:induction false} PushRegsKeepPc(m: State, rs: seq<Byte>)
    ensures PushRegs(m, rs).pc == m.pc
    decreases |rs|
  {
    hide RegGet;
    if rs != [] {
      PushRegsKeepPc(PushReg(m, rs[0]), rs[1..]);
    }
  }

  lemma {:induction false} PopRegsKeepPc(m: State, rs: seq<Byte>)
    requires forall k :: 0 <= k < |rs| ==> rs[k] != REG_PC
    ensures PopRegs(m, rs).pc == m.pc
    decreases |rs|
  {
    hide Signed;
    if rs != [] && Readable(m.mem, m.sp) {
      PopRegsKeepPc(PopReg(m, rs[0]), rs[1..]);
    }
  }

  lemma StackKeepsPc(op: Op, a: Byte, b: Byte, c: Byte, m: State)
    requires NoPc(op, a, b, c) && |m.regs| <= 250 && IsStack(op)
    ensures ExecStack(m, op, a, b, c).pc == m.pc
  {
    hide PushRegs, PopRegs;
    match op
    case PushR => PushRegsKeepPc(m, [a]);
    case PushRR => PushRegsKeepPc(m, [a, b]);
    case PushRRR => PushRegsKeepPc(m, [a, b, c]);
    case Pusha => PushRegsKeepPc(m, Ascending(0, |m.regs|));
    case PopR => PopRegsKeepPc(m, [a]);
    case PopRR => PopRegsKeepPc(m, [a, b]);
    case PopRRR => PopRegsKeepPc(m, [a, b, c]);
    case Popa => PopRegsKeepPc(m, Descending(|m.regs|));
  }

  // ---------------------------------------------------------------- fetch and decode

  /** Where pc is after an operation without control transfer: behind its immediate. */
  function Behind(m: State, op: Op): Word {
    if HasImmediate(op) then Wrap(m.pc + 4) else m.pc
  }

  /** The state in which an operation reads its registers. */
  function Seen(m: State, op: Op): State {
    if op == Stor(Imm) then m.(pc := Wrap(m.pc + 4)) else m
  }

  /** Reading a register the machine has succeeds. */
  lemma Reads(m: State, r: Byte)
    requires ValidReg(m, r) && m.panic == ErrOk
    ensures RegGet(m, r) == Some(Val(m, r)) && ReadReg(m, r) == m
  {
  }

  lemma ReadsLater(m: State, r: Byte, x: Word)
    requires ValidReg(m, r) && m.panic == ErrOk && r != REG_PC
    ensures RegGet(m.(pc := x), r) == Some(Val(m, r)) && ReadReg(m.(pc := x), r) == m.(pc := x)
  {
  }

  lemma RegisterOperands(m: State, op: Op, a: Byte, b: Byte)
    requires WritesRegister(op) && OperandsValid(m, op, a, b, 0)
    ensures ValidReg(m, a) && a != REG_PC
    ensures op.LoadRR? || op.LoadRRW? || (op.Mov? && op.src.Reg?) || (op.Alu? && op.src.Reg?) ==> ValidReg(m, b)
  {
    hide ValidReg;
  }

  lemma ExecRegisterEffect(m: State, op: Op, a: Byte, b: Byte, imm: Word)
    requires WritesRegister(op) && m.panic == ErrOk
    requires HasImmediate(op) ==> Readable(m.mem, m.pc) && m.mem.cells[m.pc] == imm
    requires OperandsValid(m, op, a, b, 0)
    ensures ExecRegister(m, op, a, b) == RegisterEffect(op, a, b, imm, m).(pc := Behind(m, op))
  {
    hide ExecMov, ExecAlu, ExecStep, ExecLoadRR, ExecLoadRW, ExecLoadRRW, RegisterEffect, OperandsValid, ValidReg;
    RegisterOperands(m, op, a, b);
    match op
    case Mov(src) => MovEffect(m, src, a, b, imm);
    case Alu(f, src) => AluEffect(m, f, src, a, b, imm);
    case Inc => StepEffect(m, op, a, b, imm);
    case Dec => StepEffect(m, op, a, b, imm);
    case LoadRR => LoadEffect(m, op, a, b, imm);
    case LoadRW => LoadEffect(m, op, a, b, imm);
    case LoadRRW => LoadEffect(m, op, a, b, imm);
  }

  lemma MovEffect(m: State, src: Src, a: Byte, b: Byte, imm: Word)
    requires m.panic == ErrOk && ValidReg(m, a) && a != REG_PC && (src.Reg? ==> ValidReg(m, b))
    requires src.Imm? ==> Readable(m.mem, m.pc) && m.mem.cells[m.pc] == imm
    ensures ExecMov(m, src, a, b) == RegisterEffect(Mov(src), a, b, imm, m).(pc := Behind(m, Mov(src)))
  {
    hide RegSet, RegGet, Val, ValidReg;
    if src.Imm? {
      RegSetPc(m, a, imm, Wrap(m.pc + 4));
    } else {
      Reads(m, b);
      RegSetPc(m, a, Val(m, b), m.pc);
    }
  }

  lemma AluEffect(m: State, f: AluFn, src: Src, a: Byte, b: Byte, imm: Word)
    requires m.panic == ErrOk && ValidReg(m, a) && a != REG_PC && (src.Reg? ==> ValidReg(m, b))
    requires src.Imm? ==> Readable(m.mem, m.pc) && m.mem.cells[m.pc] == imm
    ensures ExecAlu(m, f, src, a, b) == RegisterEffect(Alu(f, src), a, b, imm, m).(pc := Behind(m, Alu(f, src)))
  {
    hide RegSet, RegGet, Val, ValidReg, Compute;
    Reads(m, a);
    if src.Imm? {
      ReadsLater(m, a, Wrap(m.pc + 4));
      RegSetPc(m, a, Compute(f, Val(m, a), imm), Wrap(m.pc + 4));
    } else {
      Reads(m, b);
      RegSetPc(m, a, Compute(f, Val(m, a), Val(m, b)), m.pc);
    }
  }

  lemma StepEffect(m: State, op: Op, a: Byte, b: Byte, imm: Word)
    requires m.panic == ErrOk && ValidReg(m, a) && a != REG_PC && (op.Inc? || op.Dec?)
    ensures ExecStep(m, if op.Inc? then 1 else -1, a) == RegisterEffect(op, a, b, imm, m).(pc := Behind(m, op))
  {
    hide RegSet, RegGet, Val, ValidReg, Signed, Wrap;
    Reads(m, a);
    StepWraps(Val(m, a));
    RegSetPc(m, a, Wrap(Val(m, a) as int + (if op.Inc? then 1 else -1)), m.pc);
  }

  lemma LoadEffect(m: State, op: Op, a: Byte, b: Byte, imm: Word)
    requires m.panic == ErrOk && ValidReg(m, a) && a != REG_PC
    requires op.LoadRW? || ((op.LoadRR? || op.LoadRRW?) && ValidReg(m, b))
    requires !op.LoadRR? ==> Readable(m.mem, m.pc) && m.mem.cells[m.pc] == imm
    ensures ExecRegister(m, op, a, b) == RegisterEffect(op, a, b, imm, m).(pc := Behind(m, op))
  {
    hide LoadFrom, RegGet, Val, ValidReg;
    if op.LoadRW? {
      LoadFromPc(m, a, imm, Wrap(m.pc + 4));
    } else {
      Reads(m, b);
      LoadFromPc(m, a, Val(m, b), m.pc);
      LoadFromPc(m, a, Wrap(Val(m, b) + imm), Wrap(m.pc + 4));
    }
  }

  /** INC and DEC through a signed cast. */
  lemma StepWraps(v: Word)
    ensures Wrap(Signed(v) + 1) == Wrap(v + 1) && Wrap(Signed(v) - 1) == Wrap(v - 1)
  {
  }

  lemma ExecMemoryEffect(m: State, op: Op, a: Byte, b: Byte, imm: Word)
    requires WritesMemory(op) && m.panic == ErrOk
    requires HasImmediate(op) ==> Readable(m.mem, m.pc) && m.mem.cells[m.pc] == imm
    requires OperandsValid(m, op, a, b, 0)
    ensures ExecMemory(m, op, a, b) == MemoryEffect(op, a, b, imm, Seen(m, op)).(pc := Behind(m, op))
  {
    hide OperandsValid, ExecPushW, ExecStor, ExecMask, Val, ValidReg, PushValue, WriteWord;
    match op
    case PushW => PushEffect(m, imm);
    case Stor(src) =>
      StorOperands(m, op, a, b);
      StorEffect(m, src, a, b, imm);
    case Mi => MaskKeepsPc(m, a);
    case Umi => MaskKeepsPc(m, a);
  }

  lemma PushEffect(m: State, imm: Word)
    requires m.panic == ErrOk && Readable(m.mem, m.pc) && m.mem.cells[m.pc] == imm
    ensures ExecPushW(m) == PushValue(m, imm).(pc := Wrap(m.pc + 4))
  {
  }

  lemma MaskKeepsPc(m: State, i: Byte)
    ensures ExecMask(m, i, true).pc == m.pc && ExecMask(m, i, false).pc == m.pc
  {
    hide Masks, Bitwise;
  }

  lemma StorEffect(m: State, src: Src, a: Byte, b: Byte, imm: Word)
    requires m.panic == ErrOk && ValidReg(m, a) && (src.Reg? ==> ValidReg(m, b))
    requires src.Imm? ==> Readable(m.mem, m.pc) && m.mem.cells[m.pc] == imm
    ensures ExecStor(m, src, a, b)
            == MemoryEffect(Stor(src), a, b, imm, Seen(m, Stor(src))).(pc := Behind(m, Stor(src)))
  {
    hide RegGet, Val, ValidReg;
    Reads(Seen(m, Stor(src)), a) by {
      StillValid(m, a, Wrap(m.pc + 4));
    }
    if src.Reg? {
      Reads(m, b);
    }
  }

  lemma StillValid(m: State, r: Byte, x: Word)
    requires ValidReg(m, r)
    ensures ValidReg(m.(pc := x), r)
  {
  }

  lemma StorOperands(m: State, op: Op, a: Byte, b: Byte)
    requires op.Stor? && OperandsValid(m, op, a, b, 0)
    ensures ValidReg(m, a) && (op.src.Reg? ==> ValidReg(m, b))
  {
    hide ValidReg;
  }

  lemma ExecOtherEffect(m: State, op: Op, a: Byte, b: Byte, imm: Word)
    requires !IsControl(op) && !IsStack(op) && !WritesRegister(op) && !WritesMemory(op) && m.panic == ErrOk
    requires HasImmediate(op) ==> Readable(m.mem, m.pc) && m.mem.cells[m.pc] == imm
    requires OperandsValid(m, op, a, b, 0)
    ensures ExecOther(m, op, a, b) == OtherEffect(op, a, b, imm, m).(pc := Behind(m, op))
  {
    hide ExecCmp, ValidReg, Compare, SetBit, Val;
    if op.Cmp? {
      CmpEffect(m, op.src, a, b, imm);
    }
  }

  lemma CmpEffect(m: State, src: Src, a: Byte, b: Byte, imm: Word)
    requires m.panic == ErrOk && ValidReg(m, a) && (src.Reg? ==> ValidReg(m, b))
    requires src.Imm? ==> Readable(m.mem, m.pc) && m.mem.cells[m.pc] == imm
    ensures ExecCmp(m, src, a, b) == OtherEffect(Cmp(src), a, b, imm, m).(pc := Behind(m, Cmp(src)))
  {
    hide RegGet, Val, ValidReg, Compare;
    Reads(m, a);
    if src.Imm? {
      ComparePc(m, Val(m, a), imm, Wrap(m.pc + 4));
    } else {
      Reads(m, b);
      ComparePc(m, Val(m, a), Val(m, b), m.pc);
    }
  }

  /** An operation that finds its immediate after the opcode word has the effect of the
      instruction, and leaves pc behind the immediate. */
  lemma ExecEffect(m: State, op: Op, w: Word, imm: Word)
    requires !IsControl(op) && m.panic == ErrOk && |m.regs| <= 250
    requires HasImmediate(op) ==> Readable(m.mem, m.pc) && m.mem.cells[m.pc] == imm
    requires OperandsValid(m, op, ToBe(w)[1], ToBe(w)[2], ToBe(w)[3])
    ensures Exec(m, op, w)
         == Effect(op, ToBe(w)[1], ToBe(w)[2], ToBe(w)[3], imm, Seen(m, op)).(pc := Behind(m, op))
  {
    hide ExecRegister, ExecMemory, ExecOther, ExecStack, RegisterEffect, MemoryEffect, OtherEffect, ToBe, ExecControl,
         HasImmediate, OperandsValid, Wrap;
    var a, b, c := ToBe(w)[1], ToBe(w)[2], ToBe(w)[3];
    if !IsStack(op) {
      NoThird(m, op, a, b, c);
    }
    if WritesRegister(op) {
      ExecRegisterEffect(m, op, a, b, imm);
    } else if WritesMemory(op) {
      ExecMemoryEffect(m, op, a, b, imm);
    } else if !IsStack(op) {
      ExecOtherEffect(m, op, a, b, imm);
    } else {
      assert NoPc(op, a, b, c) by {
        ValidNoPc(m, op, a, b, c);
      }
      StackKeepsPc(op, a, b, c, m);
      StackPlain(op);
    }
  }

  /** Only stack operations take three registers. */
  lemma NoThird(m: State, op: Op, a: Byte, b: Byte, c: Byte)
    requires !IsStack(op) && OperandsValid(m, op, a, b, c)
    ensures OperandsValid(m, op, a, b, 0)
  {
    hide ValidReg;
  }

  lemma ValidNoPc(m: State, op: Op, a: Byte, b: Byte, c: Byte)
    requires OperandsValid(m, op, a, b, c)
    ensures NoPc(op, a, b, c)
  {
  }

  lemma StackPlain(op: Op)
    requires IsStack(op)
    ensures !HasImmediate(op)
  {
  }

  // ---------------------------------------------------------------- one instruction

  /** An instruction of a valid program has the operands its operation declares. */
  lemma ShapeOf(p: Program, k: nat)
    requires Valid(p) && k < |p.nodes| && p.nodes[k].Ins?
    ensures ImmediateOf(p, k).Some? <==> HasImmediate(p.nodes[k].i.op)
    ensures p.nodes[k].i.op.Jump? || p.nodes[k].i.op.Call? ==>
              ImmediateOf(p, k).Some? && p.nodes[k].i.IA? && p.nodes[k].i.kind == p.nodes[k].i.op.kind
    ensures p.nodes[k].i.op.CallR? || p.nodes[k].i.op.Ret? || p.nodes[k].i.op.Iret? ==> !HasImmediate(p.nodes[k].i.op)
  {
    hide OperandBytes, Offset, BaseAt, Code, AddressValue, Resolvable, MapsPrefix, NodeFits;
    assert EncodeNode(p.nodes, k, p.labels).Ok?;
  }

  /** What the layout gives for the instruction at node k. */
  lemma Layout(p: Program, k: nat)
    requires Valid(p) && k < |p.nodes| && p.nodes[k].Ins?
    ensures p.origin + Offset(p.nodes, |p.nodes|) < WORD_LIMIT
    ensures Place(p, k) && Place(p, Next(p, k))
    ensures AddressOf(p, Next(p, k)) == AddressOf(p, k) + (if HasImmediate(p.nodes[k].i.op) then 8 else 4)
    ensures ImmediateOf(p, k).Some? <==> HasImmediate(p.nodes[k].i.op)
    ensures p.nodes[k].i.op.Jump? || p.nodes[k].i.op.Call? ==>
              ImmediateOf(p, k).Some? && p.nodes[k].i.IA? && p.nodes[k].i.kind == p.nodes[k].i.op.kind
    ensures p.nodes[k].i.op.CallR? || p.nodes[k].i.op.Ret? || p.nodes[k].i.op.Iret? ==> !HasImmediate(p.nodes[k].i.op)
  {
    hide HasImmediate, ImmediateOf, Length, Resolvable, MapsPrefix, Encodable, AllWellShaped, NodeFits;
    ShapeOf(p, k);
    LengthIsWords(p.nodes[k].i.op);
  }

  lemma RegisterIds(name: string)
    ensures RegisterId(name).Some? ==> RegisterId(name).value < 32 || RegisterId(name).value >= REG_IDT
    ensures RegisterId(name) == Some(REG_PC) ==> name == "cp"
  {
  }

  /** The operand bytes of an encodable instruction name registers the machine has. */
  lemma OperandsAreValid(p: Program, k: nat, m: State)
    requires Valid(p) && k < |p.nodes| && p.nodes[k].Ins? && 32 <= |m.regs| <= 250
    ensures var i := p.nodes[k].i; OperandsValid(m, i.op, Operand(i, 0), Operand(i, 1), Operand(i, 2))
  {
    hide RegisterId;
    var i := p.nodes[k].i;
    assert EncodeNode(p.nodes, k, p.labels).Ok? && NodeFits(p, k);
    var rs := RegistersOf(i);
    if |rs| > 0 {
      RegisterIds(rs[0]);
    }
    if |rs| > 1 {
      RegisterIds(rs[1]);
    }
    if |rs| > 2 {
      RegisterIds(rs[2]);
    }
  }

  lemma FirstBytes(i: Instruction)
    ensures ToBe(FirstWord(i)) == [Code(i.op), Operand(i, 0), Operand(i, 1), Operand(i, 2)]
  {
    hide Code, Operand, ToBe, FromBe;
    BeInverse([Code(i.op), Operand(i, 0), Operand(i, 1), Operand(i, 2)]);
  }

  /** At a loaded instruction the machine fetches the encoded word and decodes the operation. */
  lemma CycleAt(p: Program, k: nat, m: State)
    requires Valid(p) && k < |p.nodes| && p.nodes[k].Ins? && NodeLoaded(p, m.mem, k)
    requires m.pc == AddressOf(p, k) && m.panic == ErrOk
    ensures Cycle(m) == Exec(m.(pc := Wrap(m.pc + 4)), p.nodes[k].i.op, FirstWord(p.nodes[k].i))
  {
    var i := p.nodes[k].i;
    FirstBytes(i);
    DecodeInvertsCode(i.op);
    hide Code, Decode, Operand, ToBe, FromBe, Exec;
    assert Fetch(m) == m.(pc := Wrap(m.pc + 4));
  }

  /** A label is at the address its map entry gives, counted from the origin. */
  lemma LabelAddress(p: Program, name: string)
    requires Valid(p) && Defined(p.nodes, name)
    ensures Target(p, name) <= |p.nodes| && Place(p, Target(p, name))
    ensures name in p.labels && p.origin + p.labels[name] == AddressOf(p, Target(p, name))
  {
    var d :| 0 <= d < |p.nodes| && DefinesAt(p.nodes, d, name);
    TargetIs(p, name, d);
  }

  /** An `@` operand is the offset of its label, an `&` operand that offset plus the base in force. */
  lemma AddressImmediate(p: Program, k: nat)
    requires Valid(p) && k < |p.nodes| && p.nodes[k].Ins? && (p.nodes[k].i.IA? || p.nodes[k].i.IRA?)
    ensures var i, base := p.nodes[k].i, BaseAt(p.nodes, k);
      && i.name in p.labels
      && (i.kind.Absolute? ==> base + p.labels[i.name] < WORD_LIMIT)
      && ImmediateOf(p, k) == Some(if i.kind.Segment? then p.labels[i.name] else base + p.labels[i.name])
  {
    hide OperandBytes, Offset, Code, BaseAt, EncodeIns, Resolvable, MapsPrefix, AllWellShaped, NodeFits;
    assert EncodeNode(p.nodes, k, p.labels).Ok?;
    EncodeSucceeds(p.nodes[k].i, p.labels, BaseAt(p.nodes, k));
  }

  lemma JumpImmediate(p: Program, k: nat)
    requires Valid(p) && k < |p.nodes| && p.nodes[k].Ins? && p.nodes[k].i.IA? && p.nodes[k].i.name in p.labels
    ensures var i := p.nodes[k].i;
      ImmediateOf(p, k) == Some(if i.kind.Segment? then p.labels[i.name] else Wrap(p.origin + p.labels[i.name]))
  {
    hide ImmediateOf, Offset, Resolvable, MapsPrefix, Encodable, AllWellShaped;
    AddressImmediate(p, k);
    assert NodeFits(p, k);
  }

  lemma JumpTarget(p: Program, k: nat, m: State)
    requires Valid(p) && k < |p.nodes| && p.nodes[k].Ins? && p.nodes[k].i.IA?
    requires JumpTo(p, p.nodes[k].i, p.nodes[k].i.kind, m).Some?
    ensures ImmediateOf(p, k).Some?
    ensures var c := JumpTo(p, p.nodes[k].i, p.nodes[k].i.kind, m).value;
            && c.At? && c.i <= |p.nodes| && Place(p, c.i)
            && AddressOf(p, c.i)
               == if p.nodes[k].i.kind.Segment? then Wrap(m.cs + ImmediateOf(p, k).value) else ImmediateOf(p, k).value
  {
    hide ImmediateOf, AddressOf, Place, Target;
    LabelAddress(p, p.nodes[k].i.name);
    JumpImmediate(p, k);
  }

  lemma WherePc(p: Program, address: Word)
    requires Valid(p)
    ensures var c := Where(p, address);
            && (c.At? ==> c.i <= |p.nodes| && Place(p, c.i))
            && PcOf(p, c) == address
  {
  }

  /** The instruction at node k is loaded, and the machine has just fetched its first word. */
  ghost predicate Fetching(p: Program, k: nat, m: State)
    requires Valid(p)
  {
    && k < |p.nodes| && p.nodes[k].Ins? && 32 <= |m.regs| <= 250
    && NodeLoaded(p, m.mem, k) && m.panic == ErrOk
    && m.pc == Wrap(AddressOf(p, k) + 4)
  }

  lemma FetchImmediate(p: Program, k: nat, m: State)
    requires Valid(p) && Fetching(p, k, m) && ImmediateOf(p, k).Some?
    ensures Fetch(m) == m.(pc := Wrap(m.pc + 4)) && Fetched(m) == ImmediateOf(p, k).value
    ensures Wrap(m.pc + 4) == AddressOf(p, Next(p, k))
    ensures Readable(m.mem, m.pc) && m.mem.cells[m.pc] == ImmediateOf(p, k).value
  {
    hide Next, AddressOf, ImmediateOf;
    Layout(p, k);
  }

  lemma JumpSimulates(p: Program, k: nat, m: State)
    requires Valid(p) && Fetching(p, k, m) && p.nodes[k].i.op.Jump? && Execute(p, k, m).Some?
    ensures Related(p, Execute(p, k, m).value, ExecJump(m, p.nodes[k].i.op.cond, p.nodes[k].i.op.kind))
    ensures var cond := p.nodes[k].i.op.cond;
      (cond == IfZero && !m.zero) || (cond == IfNotZero && m.zero) ==> Execute(p, k, m).value.ctl == At(Next(p, k))
  {
    hide AddressOf, ImmediateOf, NodeLoaded, JumpTo, Place, Valid, HasImmediate, Length, PcSeen;
    var i := p.nodes[k].i;
    Layout(p, k);
    FetchImmediate(p, k, m);
    if Taken(m, i.op.cond) {
      JumpTarget(p, k, m);
    }
  }

  /** A control point the program has: a place in it, or any address outside. */
  predicate Reachable(p: Program, c: Ctl) {
    c.At? ==> c.i <= |p.nodes| && Place(p, c.i)
  }

  lemma PushValueRegs(m: State, v: Word)
    ensures PushValue(m, v).regs == m.regs
  {
  }

  lemma CallToSimulates(p: Program, m: State, next: Ctl, target: Ctl)
    requires Valid(p) && Reachable(p, next) && Reachable(p, target) && 32 <= |m.regs| <= 250
    requires m.panic == ErrOk
    ensures Related(p, SymCall(m, PcOf(p, next), next, target), CallTo(m.(pc := PcOf(p, next)), PcOf(p, target)))
  {
    hide PushValue, PcOf, Place;
    var back := PcOf(p, next);
    PushValuePc(m, back, back);
    PushValueRegs(m, back);
  }

  lemma RetToSimulates(p: Program, m: State, next: Ctl)
    requires Valid(p) && Reachable(p, next) && 32 <= |m.regs| <= 250
    requires m.panic == ErrOk && m.pc == PcOf(p, next)
    ensures Related(p, SymRet(p, m, next), ExecRet(m))
  {
    hide Where, PcOf, Place, Valid;
    if Readable(m.mem, m.sp) {
      WherePc(p, m.mem.cells[m.sp]);
    }
  }

  lemma CallSimulates(p: Program, k: nat, m: State)
    requires Valid(p) && Fetching(p, k, m) && p.nodes[k].i.op.Call? && Execute(p, k, m).Some?
    ensures Related(p, Execute(p, k, m).value, ExecCall(m, p.nodes[k].i.op.kind))
  {
    hide Related, SymCall, CallTo, AddressOf, ImmediateOf, NodeLoaded, JumpTo, Place, Valid, HasImmediate, Length;
    var i := p.nodes[k].i;
    Layout(p, k);
    FetchImmediate(p, k, m);
    JumpTarget(p, k, m);
    var next, target := At(Next(p, k)), JumpTo(p, i, i.kind, m).value;
    CallToSimulates(p, m, next, target);
  }

  lemma CallRSimulates(p: Program, k: nat, m: State)
    requires Valid(p) && Fetching(p, k, m) && p.nodes[k].i.op.CallR? && Execute(p, k, m).Some?
    ensures Related(p, Execute(p, k, m).value, ExecCallR(m, Operand(p.nodes[k].i, 0)))
  {
    hide Related, SymCall, CallTo, AddressOf, NodeLoaded, Place, Valid, RegGet, ReadReg, Val, Operand, Where;
    var a := Operand(p.nodes[k].i, 0);
    Layout(p, k);
    OperandsAreValid(p, k, m);
    Reads(m, a);
    WherePc(p, Val(m, a));
    CallToSimulates(p, m, At(Next(p, k)), Where(p, Val(m, a)));
  }

  lemma RetSimulates(p: Program, k: nat, m: State)
    requires Valid(p) && Fetching(p, k, m) && (p.nodes[k].i.op.Ret? || p.nodes[k].i.op.Iret?) && Execute(p, k, m).Some?
    ensures Related(p, Execute(p, k, m).value, if p.nodes[k].i.op.Ret? then ExecRet(m) else ExecIret(m))
  {
    hide AddressOf, NodeLoaded, Place, Where, Valid, HasImmediate;
    Layout(p, k);
    RetToSimulates(p, m, At(Next(p, k)));
  }

  lemma ControlExec(m: State, op: Op, w: Word, a: Byte)
    requires IsControl(op) && ToBe(w)[1] == a
    ensures Exec(m, op, w) == ExecControl(m, op, a)
  {
    hide ExecControl, ToBe;
  }

  lemma ControlSimulates(p: Program, k: nat, m: State)
    requires Valid(p) && Fetching(p, k, m) && IsControl(p.nodes[k].i.op) && Execute(p, k, m).Some?
    ensures Related(p, Execute(p, k, m).value, ExecControl(m, p.nodes[k].i.op, Operand(p.nodes[k].i, 0)))
  {
    hide Execute, Operand, Related, ExecJump, ExecCall, ExecCallR, ExecRet, ExecIret, NodeLoaded;
    match p.nodes[k].i.op
    case Jump(_, _) => JumpSimulates(p, k, m);
    case Call(_) => CallSimulates(p, k, m);
    case CallR => CallRSimulates(p, k, m);
    case Ret => RetSimulates(p, k, m);
    case Iret => RetSimulates(p, k, m);
  }

  lemma RegSetRegs(m: State, r: Byte, v: Word)
    ensures |RegSet(m, r, v).regs| == |m.regs|
  {
    hide Signed;
  }

  lemma StackRegs(op: Op, a: Byte, b: Byte, c: Byte, m: State)
    requires IsStack(op)
    ensures |ExecStack(m, op, a, b, c).regs| == |m.regs|
  {
    hide PushRegs, PopRegs;
    match op
    case PushR => PushRegsRegs(m, [a]);
    case PushRR => PushRegsRegs(m, [a, b]);
    case PushRRR => PushRegsRegs(m, [a, b, c]);
    case Pusha => PushRegsRegs(m, Ascending(0, |m.regs|));
    case PopR => PopRegsRegs(m, [a]);
    case PopRR => PopRegsRegs(m, [a, b]);
    case PopRRR => PopRegsRegs(m, [a, b, c]);
    case Popa => PopRegsRegs(m, Descending(|m.regs|));
  }

  lemma RegisterEffectRegs(op: Op, a: Byte, b: Byte, imm: Word, m: State)
    requires WritesRegister(op)
    ensures |RegisterEffect(op, a, b, imm, m).regs| == |m.regs|
  {
    hide RegSet, Compute, Val, Wrap;
    forall v: Word ensures |RegSet(m, a, v).regs| == |m.regs| {
      RegSetRegs(m, a, v);
    }
  }

  lemma EffectRegs(op: Op, a: Byte, b: Byte, c: Byte, imm: Word, m: State)
    ensures |Effect(op, a, b, c, imm, m).regs| == |m.regs|
  {
    hide ExecStack, RegisterEffect, Wrap, SetBit, Masks, Bitwise, Val;
    if IsStack(op) {
      StackRegs(op, a, b, c, m);
    } else if WritesRegister(op) {
      RegisterEffectRegs(op, a, b, imm, m);
    }
  }

  lemma {:induction false} PushRegsRegs(m: State, rs: seq<Byte>)
    ensures PushRegs(m, rs).regs == m.regs
    decreases |rs|
  {
    if rs != [] {
      PushRegsRegs(PushReg(m, rs[0]), rs[1..]);
    }
  }

  lemma {:induction false} PopRegsRegs(m: State, rs: seq<Byte>)
    ensures |PopRegs(m, rs).regs| == |m.regs|
    decreases |rs|
  {
    if rs != [] && Readable(m.mem, m.sp) {
      PopRegsRegs(PopReg(m, rs[0]), rs[1..]);
    }
  }

  /** The effect of the instruction at node k, where its operand `cp` stands for what it sees. */
  ghost function EffectAt(p: Program, k: nat, m: State): State
    requires Valid(p) && k < |p.nodes| && p.nodes[k].Ins?
  {
    var i := p.nodes[k].i;
    var imm := if ImmediateOf(p, k).Some? then ImmediateOf(p, k).value else 0;
    Effect(i.op, Operand(i, 0), Operand(i, 1), Operand(i, 2), imm, m.(pc := PcSeen(p, k)))
  }

  lemma DataExecute(p: Program, k: nat, m: State)
    requires Valid(p) && k < |p.nodes| && p.nodes[k].Ins? && !IsControl(p.nodes[k].i.op)
    ensures Execute(p, k, m) == Some(Sym(At(Next(p, k)), EffectAt(p, k, m).(pc := m.pc)))
  {
    hide Effect, AddressOf, ImmediateOf, Operand, PcSeen, SymCall, SymRet, JumpTo, Resolvable, MapsPrefix, Encodable,
         AllWellShaped, NodeFits;
  }

  /** Where pc stands when the operands are read, and when the instruction is done. */
  lemma DataPlaces(p: Program, k: nat, m: State)
    requires Valid(p) && Fetching(p, k, m) && !IsControl(p.nodes[k].i.op)
    ensures Behind(m, p.nodes[k].i.op) == AddressOf(p, Next(p, k))
    ensures Seen(m, p.nodes[k].i.op) == m.(pc := PcSeen(p, k))
    ensures HasImmediate(p.nodes[k].i.op) ==>
              ImmediateOf(p, k).Some? && Readable(m.mem, m.pc) && m.mem.cells[m.pc] == ImmediateOf(p, k).value
  {
    hide AddressOf, ImmediateOf, NodeLoaded, Place, Valid, HasImmediate, Length, Next;
    Layout(p, k);
    if ImmediateOf(p, k).Some? {
      FetchImmediate(p, k, m);
    }
    StoresFetch();
  }

  lemma DataExec(p: Program, k: nat, m: State)
    requires Valid(p) && Fetching(p, k, m) && !IsControl(p.nodes[k].i.op)
    ensures Exec(m, p.nodes[k].i.op, FirstWord(p.nodes[k].i)) == EffectAt(p, k, m).(pc := AddressOf(p, Next(p, k)))
    ensures |EffectAt(p, k, m).regs| == |m.regs|
  {
    hide Exec, Effect, AddressOf, ImmediateOf, NodeLoaded, Place, Valid, HasImmediate, FirstWord, Operand, ToBe,
         OperandsValid, PcSeen, Seen, Behind, Next;
    var i := p.nodes[k].i;
    var imm := if ImmediateOf(p, k).Some? then ImmediateOf(p, k).value else 0;
    DataPlaces(p, k, m);
    OperandsAreValid(p, k, m);
    FirstBytes(i);
    ExecEffect(m, i.op, FirstWord(i), imm);
    EffectRegs(i.op, Operand(i, 0), Operand(i, 1), Operand(i, 2), imm, Seen(m, i.op));
  }

  /** What an instruction without control transfer does, on the symbolic and on the machine side. */
  lemma DataSimulates(p: Program, k: nat, m: State)
    requires Valid(p) && Fetching(p, k, m) && !IsControl(p.nodes[k].i.op)
    ensures Execute(p, k, m).Some?
    ensures Related(p, Execute(p, k, m).value, Exec(m, p.nodes[k].i.op, FirstWord(p.nodes[k].i)))
  {
    hide Execute, Exec, EffectAt, AddressOf, NodeLoaded, Place, Valid, HasImmediate, FirstWord;
    Layout(p, k);
    DataExecute(p, k, m);
    DataExec(p, k, m);
  }

  lemma StoresFetch()
    ensures HasImmediate(Stor(Imm))
  {
  }

  // ---------------------------------------------------------------- one step, every run

  ghost predicate SameButPc(s: Sym, t: Sym, x: Word) {
    t.ctl == s.ctl && t.m == s.m.(pc := x)
  }

  lemma SymCallPc(m: State, back: Word, next: Ctl, target: Ctl, x: Word)
    ensures SameButPc(SymCall(m, back, next, target), SymCall(m.(pc := x), back, next, target), x)
  {
    hide PushValue;
    PushValuePc(m, back, x);
  }

  lemma SymRetPc(p: Program, m: State, next: Ctl, x: Word)
    requires Valid(p)
    ensures SameButPc(SymRet(p, m, next), SymRet(p, m.(pc := x), next), x)
  {
    hide Where;
  }

  /** The symbolic instruction does not look at pc and does not change it. */
  lemma ExecutePc(p: Program, k: nat, m: State, x: Word)
    requires Valid(p) && k < |p.nodes| && p.nodes[k].Ins? && 32 <= |m.regs| <= 250
    requires Execute(p, k, m).Some?
    ensures Execute(p, k, m.(pc := x)).Some?
    ensures SameButPc(Execute(p, k, m).value, Execute(p, k, m.(pc := x)).value, x)
  {
    hide Execute, SameButPc, Valid;
    if IsControl(p.nodes[k].i.op) {
      ExecuteControlPc(p, k, m, x);
    } else {
      ExecuteDataPc(p, k, m, x);
    }
  }

  lemma ExecuteDataPc(p: Program, k: nat, m: State, x: Word)
    requires Valid(p) && k < |p.nodes| && p.nodes[k].Ins? && !IsControl(p.nodes[k].i.op)
    ensures Execute(p, k, m).Some? && Execute(p, k, m.(pc := x)).Some?
    ensures SameButPc(Execute(p, k, m).value, Execute(p, k, m.(pc := x)).value, x)
  {
    hide AddressOf, ImmediateOf, Place, Effect, Operand, SymCall, SymRet, JumpTo, Val, Where, PcSeen, Resolvable,
         MapsPrefix, Encodable, AllWellShaped, NodeFits;
    assert m.(pc := x).(pc := PcSeen(p, k)) == m.(pc := PcSeen(p, k));
  }

  lemma ExecuteControlPc(p: Program, k: nat, m: State, x: Word)
    requires Valid(p) && k < |p.nodes| && p.nodes[k].Ins? && IsControl(p.nodes[k].i.op) && Execute(p, k, m).Some?
    ensures Execute(p, k, m.(pc := x)).Some?
    ensures SameButPc(Execute(p, k, m).value, Execute(p, k, m.(pc := x)).value, x)
  {
    hide AddressOf, ImmediateOf, Place, Effect, Operand, SymCall, SymRet, JumpTo, Val, Where, PcSeen, Resolvable,
         MapsPrefix, Encodable, AllWellShaped, NodeFits;
    var i := p.nodes[k].i;
    JumpToPc(p, i, m, x);
    var next, back := At(Next(p, k)), AddressOf(p, Next(p, k));
    var seen := m.(pc := PcSeen(p, k));
    assert m.(pc := x).(pc := PcSeen(p, k)) == seen;
    match i.op
    case Jump(_, _) =>
    case Call(kind) => SymCallPc(m, back, next, JumpTo(p, i, kind, m).value, x);
    case CallR => SymCallPc(m, back, next, Where(p, Val(seen, Operand(i, 0))), x);
    case Ret => SymRetPc(p, m, next, x);
    case Iret => SymRetPc(p, m, next, x);
  }

  lemma JumpToPc(p: Program, i: Instruction, m: State, x: Word)
    requires Valid(p)
    ensures forall kind :: JumpTo(p, i, kind, m.(pc := x)) == JumpTo(p, i, kind, m)
  {
  }

  lemma RelatedPc(p: Program, s: Sym, x: Word, m: State)
    requires Valid(p) && Related(p, s.(m := s.m.(pc := x)), m)
    ensures Related(p, s, m)
  {
    hide PcOf, Place, Valid;
  }

  /** One turn of the CPU loop on the loaded image is one step of the text: fall-through,
      taken and untaken jumps, calls, returns and every data instruction. */
  lemma StepSimulates(p: Program, s: Sym, m: State)
    requires Valid(p) && Related(p, s, m) && SymStep(p, s).Some?
    ensures Live(m) && Related(p, SymStep(p, s).value, Step(m))
  {
    hide Execute, NodeLoaded, Valid, Exec, Cycle, Place, FirstWord, Active, Masks;
    var k := s.ctl.i;
    var op := p.nodes[k].i.op;
    var m1 := m.(pc := Wrap(m.pc + 4));
    assert NodeLoaded(p, m.mem, k);
    CycleAt(p, k, m);
    ExecutePc(p, k, s.m, m1.pc);
    assert s.m.(pc := m1.pc) == m1;
    if IsControl(op) {
      ControlSimulates(p, k, m1);
      FirstBytes(p.nodes[k].i);
      ControlExec(m1, op, FirstWord(p.nodes[k].i), Operand(p.nodes[k].i, 0));
    } else {
      DataSimulates(p, k, m1);
    }
    RelatedPc(p, SymStep(p, s).value, m1.pc, Step(m));
  }

  /** Every run of the text is a run of the machine, instruction for instruction. */
  lemma {:induction false} RunSimulates(p: Program, s: Sym, m: State, n: nat)
    requires Valid(p) && Related(p, s, m) && SymRun(p, s, n).Some?
    ensures Related(p, SymRun(p, s, n).value, Run(m, n))
    decreases n
  {
    hide SymStep, Step, Related, Valid, Live;
    if n > 0 {
      StepSimulates(p, s, m);
      RunSimulates(p, SymStep(p, s).value, Step(m), n - 1);
    }
  }
}
