/** The machine as a value: one function per operation, following the VM's order of
    register reads, fetches, memory accesses and panics. */
module Machine {
  import opened Words
  import opened Isa
  import opened Arch
  import opened FlatMemory
  import opened Interrupts

  datatype CpuError = ErrOk | ErrPanic | ErrRead | ErrWrite | ErrOpcode | ErrRegister

  /** The general registers; their count is an 8-bit number. */
  type Registers = rs: seq<Word> | |rs| <= 255

  datatype State = State(
    regs: Registers,
    sp: Word, pc: Word, bp: Word, cs: Word, idt: Word, ir: Word,
    enabled: bool, zero: bool, negative: bool,
    panic: CpuError, running: bool,
    mem: Flat,
    pending: Bank)

  // ---------------------------------------------------------------- registers and flags

  function RegGet(m: State, r: Byte): Option<Word> {
    if r == REG_SP then Some(m.sp)
    else if r == REG_PC then Some(m.pc)
    else if r == REG_CS then Some(m.cs)
    else if r == REG_IDT then Some(m.idt)
    else if r == REG_IR then Some(m.ir)
    else if r == REG_BP then Some(m.bp)
    else if r < |m.regs| then Some(m.regs[r])
    else None
  }

  function SetFlags(m: State, v: Word): State {
    m.(zero := v == 0, negative := Signed(v) < 0)
  }

  predicate ValidReg(m: State, r: Byte) {
    r >= REG_IDT || r < |m.regs|
  }

  function PutReg(m: State, r: Byte, v: Word): State
    requires ValidReg(m, r)
  {
    if r == REG_SP then m.(sp := v)
    else if r == REG_PC then m.(pc := v)
    else if r == REG_CS then m.(cs := v)
    else if r == REG_IDT then m.(idt := v)
    else if r == REG_IR then m.(ir := v)
    else if r == REG_BP then m.(bp := v)
    else m.(regs := m.regs[r := v])
  }

  /** Stores into a register, updates the flags, and leaves the outcome in panic. */
  function RegSet(m: State, r: Byte, v: Word): State {
    if ValidReg(m, r) then SetFlags(PutReg(m, r, v), v).(panic := ErrOk)
    else m.(panic := ErrRegister)
  }

  // ---------------------------------------------------------------- memory

  function Fetched(m: State): Word {
    if m.panic == ErrOk && Readable(m.mem, m.pc) then m.mem.cells[m.pc] else 0
  }

  /** The state after fetching the word at pc; pc advances even when the read fails. */
  function Fetch(m: State): State {
    m.(pc := Wrap(m.pc + 4),
       panic := if m.panic == ErrOk && !Readable(m.mem, m.pc) then ErrRead else m.panic)
  }

  function WriteWord(m: State, a: Word, v: Word): State {
    if Writable(m.mem, a) then m.(mem := Put(m.mem, a, v)) else m.(panic := ErrWrite)
  }

  function PushValue(m: State, v: Word): State {
    var sp := Wrap(m.sp - 4);
    WriteWord(m.(sp := sp), sp, v)
  }

  function PushReg(m: State, r: Byte): State {
    match RegGet(m, r)
    case None => m.(panic := ErrRegister)
    case Some(v) => PushValue(m.(panic := ErrOk), v)
  }

  /** One pop; only meaningful when the top of the stack can be read. */
  function PopReg(m: State, r: Byte): State
    requires Readable(m.mem, m.sp)
  {
    RegSet(m.(sp := Wrap(m.sp + 4)), r, m.mem.cells[m.sp])
  }

  /** Pops into the listed registers in order and gives up at the first unreadable word. */
  function PopRegs(m: State, rs: seq<Byte>): State
    decreases |rs|
  {
    if rs == [] then m
    else if !Readable(m.mem, m.sp) then m.(panic := ErrRead)
    else PopRegs(PopReg(m, rs[0]), rs[1..])
  }

  function PushRegs(m: State, rs: seq<Byte>): State
    decreases |rs|
  {
    if rs == [] then m else PushRegs(PushReg(m, rs[0]), rs[1..])
  }

  /** The general registers r, r+1, ... as operand bytes. */
  function Ascending(r: nat, n: nat): (rs: seq<Byte>)
    requires r <= n <= 255
    ensures |rs| == n - r && forall k :: 0 <= k < |rs| ==> rs[k] == r + k
    decreases n - r
  {
    if r == n then [] else [r] + Ascending(r + 1, n)
  }

  function Descending(n: nat): (rs: seq<Byte>)
    requires n <= 255
    ensures |rs| == n && forall k :: 0 <= k < |rs| ==> rs[k] == n - 1 - k
  {
    if n == 0 then [] else [n - 1] + Descending(n - 1)
  }

  // ---------------------------------------------------------------- arithmetic

  function Compute(f: AluFn, x: Word, y: Word): Word {
    match f
    case Add => Wrap(Signed(x) + Signed(y))
    case Sub => Wrap(Signed(x) - Signed(y))
    case Mul => Wrap(Signed(x) * Signed(y))
    case Band => Bitwise(And, x, y)
    case Bor => Bitwise(Or, x, y)
    case Bxor => Bitwise(Xor, x, y)
  }

  function Compare(m: State, x: Word, y: Word): State {
    SetFlags(m, Wrap(Signed(x) - Signed(y)))
  }

  // ---------------------------------------------------------------- operations

  /** Reads one register; the outcome goes to panic. */
  function ReadReg(m: State, r: Byte): State {
    m.(panic := if RegGet(m, r).Some? then ErrOk else ErrRegister)
  }

  function ExecMov(m: State, src: Src, a: Byte, b: Byte): State {
    match src
    case Imm => if Fetch(m).panic != ErrOk then Fetch(m) else RegSet(Fetch(m), a, Fetched(m))
    case Reg => if RegGet(m, b).None? then ReadReg(m, b) else RegSet(m, a, RegGet(m, b).value)
  }

  function ExecAlu(m: State, f: AluFn, src: Src, a: Byte, b: Byte): State {
    match src
    case Imm =>
      var m1 := Fetch(m);
      if m1.panic != ErrOk then m1
      else if RegGet(m1, a).None? then ReadReg(m1, a)
      else RegSet(m1, a, Compute(f, RegGet(m1, a).value, Fetched(m)))
    case Reg =>
      if RegGet(m, a).None? then ReadReg(m, a)
      else if RegGet(m, b).None? then ReadReg(m, b)
      else RegSet(m, a, Compute(f, RegGet(m, a).value, RegGet(m, b).value))
  }

  /** INC and DEC: add the given signed step. */
  function ExecStep(m: State, delta: int, a: Byte): State {
    if RegGet(m, a).None? then ReadReg(m, a)
    else RegSet(m, a, Wrap(Signed(RegGet(m, a).value) + delta))
  }

  /** Unlike the arithmetic operations, CMP reads its register before it fetches. */
  function ExecCmp(m: State, src: Src, a: Byte, b: Byte): State {
    if RegGet(m, a).None? then ReadReg(m, a)
    else match src
      case Imm =>
        var m1 := Fetch(ReadReg(m, a));
        if m1.panic != ErrOk then m1 else Compare(m1, RegGet(m, a).value, Fetched(ReadReg(m, a)))
      case Reg =>
        if RegGet(m, b).None? then ReadReg(m, b)
        else Compare(ReadReg(m, b), RegGet(m, a).value, RegGet(m, b).value)
  }

  function ExecPushW(m: State): State {
    var m1 := Fetch(m);
    if m1.panic != ErrOk then m1 else PushValue(m1, Fetched(m))
  }

  predicate Taken(m: State, cond: Cond) {
    match cond
    case Always => true
    case IfZero => m.zero
    case IfNotZero => !m.zero
  }

  /** A jump that is not taken skips its address without reading it. */
  function ExecJump(m: State, cond: Cond, kind: AddressKind): State {
    if !Taken(m, cond) then m.(pc := Wrap(m.pc + 4))
    else
      var m1 := Fetch(m);
      if m1.panic != ErrOk then m1
      else m1.(pc := if kind.Segment? then Wrap(m.cs + Fetched(m)) else Fetched(m))
  }

  /** Pushes pc and jumps, unless the push fails. */
  function CallTo(m: State, address: Word): State {
    var m1 := PushValue(m, m.pc);
    if m1.panic != ErrOk then m1 else m1.(pc := address)
  }

  function ExecCall(m: State, kind: AddressKind): State {
    var m1 := Fetch(m);
    if m1.panic != ErrOk then m1
    else CallTo(m1, if kind.Segment? then Wrap(m.cs + Fetched(m)) else Fetched(m))
  }

  function ExecCallR(m: State, a: Byte): State {
    if RegGet(m, a).None? then ReadReg(m, a)
    else CallTo(ReadReg(m, a), RegGet(m, a).value)
  }

  function ExecRet(m: State): State {
    if !Readable(m.mem, m.sp) then m.(panic := ErrRead)
    else m.(pc := m.mem.cells[m.sp], sp := Wrap(m.sp + 4))
  }

  function ExecIret(m: State): State {
    if !Readable(m.mem, m.sp) then m.(panic := ErrRead)
    else m.(pc := m.mem.cells[m.sp], sp := Wrap(m.sp + 4), enabled := true)
  }

  function ExecStor(m: State, src: Src, a: Byte, b: Byte): State {
    match src
    case Reg =>
      if RegGet(m, a).None? then ReadReg(m, a)
      else if RegGet(m, b).None? then ReadReg(m, b)
      else WriteWord(ReadReg(m, b), RegGet(m, a).value, RegGet(m, b).value)
    case Imm =>
      var m1 := Fetch(m);
      if m1.panic != ErrOk then m1
      else if RegGet(m1, a).None? then ReadReg(m1, a)
      else WriteWord(m1, Fetched(m), RegGet(m1, a).value)
  }

  function LoadFrom(m: State, a: Byte, address: Word): State {
    if !Readable(m.mem, address) then m.(panic := ErrRead)
    else RegSet(m, a, m.mem.cells[address])
  }

  function ExecLoadRR(m: State, a: Byte, b: Byte): State {
    if RegGet(m, b).None? then ReadReg(m, b) else LoadFrom(ReadReg(m, b), a, RegGet(m, b).value)
  }

  function ExecLoadRW(m: State, a: Byte): State {
    var m1 := Fetch(m);
    if m1.panic != ErrOk then m1 else LoadFrom(m1, a, Fetched(m))
  }

  function ExecLoadRRW(m: State, a: Byte, b: Byte): State {
    if RegGet(m, b).None? then ReadReg(m, b)
    else
      var m0 := ReadReg(m, b);
      var m1 := Fetch(m0);
      if m1.panic != ErrOk then m1 else LoadFrom(m1, a, Wrap(RegGet(m, b).value + Fetched(m0)))
  }

  /** The mask words as the CPU finds them in memory. */
  function MaskWord(f: Flat, k: nat): Word
    requires k < 8
  {
    var a := IMASK_ADDRESS + 4 * k;
    if a in f.cells then f.cells[a] else 0
  }

  function Masks(f: Flat): Bank {
    [MaskWord(f, 0), MaskWord(f, 1), MaskWord(f, 2), MaskWord(f, 3),
     MaskWord(f, 4), MaskWord(f, 5), MaskWord(f, 6), MaskWord(f, 7)]
  }

  function ExecMask(m: State, i: Byte, masked: bool): State {
    var w := Masks(m.mem)[i / 32];
    m.(mem := Put(m.mem, IMASK_ADDRESS + 4 * (i / 32), Bitwise(if masked then Or else AndNot, w, BitOf(i))))
  }

  predicate IsControl(op: Op) {
    op.Jump? || op.Call? || op.CallR? || op.Ret? || op.Iret?
  }

  predicate IsStack(op: Op) {
    op.PushR? || op.PushRR? || op.PushRRR? || op.Pusha? || op.PopR? || op.PopRR? || op.PopRRR? || op.Popa?
  }

  predicate WritesRegister(op: Op) {
    op.Mov? || op.Alu? || op.Inc? || op.Dec? || op.LoadRR? || op.LoadRW? || op.LoadRRW?
  }

  /** Stores, mask updates and the push of a constant. */
  predicate WritesMemory(op: Op) {
    op.PushW? || op.Stor? || op.Mi? || op.Umi?
  }

  function ExecControl(m: State, op: Op, a: Byte): State
    requires IsControl(op)
  {
    match op
    case Jump(cond, kind) => ExecJump(m, cond, kind)
    case Call(kind) => ExecCall(m, kind)
    case CallR => ExecCallR(m, a)
    case Ret => ExecRet(m)
    case Iret => ExecIret(m)
  }

  function ExecStack(m: State, op: Op, a: Byte, b: Byte, c: Byte): State
    requires IsStack(op)
  {
    match op
    case PushR => PushRegs(m, [a])
    case PushRR => PushRegs(m, [a, b])
    case PushRRR => PushRegs(m, [a, b, c])
    case Pusha => PushRegs(m, Ascending(0, |m.regs|))
    case PopR => PopRegs(m, [a])
    case PopRR => PopRegs(m, [a, b])
    case PopRRR => PopRegs(m, [a, b, c])
    case Popa => PopRegs(m, Descending(|m.regs|))
  }

  function ExecRegister(m: State, op: Op, a: Byte, b: Byte): State
    requires WritesRegister(op)
  {
    match op
    case Mov(src) => ExecMov(m, src, a, b)
    case Alu(f, src) => ExecAlu(m, f, src, a, b)
    case Inc => ExecStep(m, 1, a)
    case Dec => ExecStep(m, -1, a)
    case LoadRR => ExecLoadRR(m, a, b)
    case LoadRRW => ExecLoadRRW(m, a, b)
    case LoadRW => ExecLoadRW(m, a)
  }

  function ExecMemory(m: State, op: Op, a: Byte, b: Byte): State
    requires WritesMemory(op)
  {
    match op
    case PushW => ExecPushW(m)
    case Stor(src) => ExecStor(m, src, a, b)
    case Mi => ExecMask(m, a, true)
    case Umi => ExecMask(m, a, false)
  }

  function ExecOther(m: State, op: Op, a: Byte, b: Byte): State {
    match op
    case Halt => m.(running := false)
    case Panic => if m.panic == ErrOk then m.(panic := ErrPanic) else m
    case Cmp(src) => ExecCmp(m, src, a, b)
    case Int => m.(pending := SetBit(m.pending, a))
    case Ind => m.(enabled := false)
    case Ine => m.(enabled := true)
    case _ => m
  }

  /** One operation, on an instruction word already fetched and decoded. */
  function Exec(m: State, op: Op, w: Word): State {
    var a := ToBe(w)[1];
    var b := ToBe(w)[2];
    var c := ToBe(w)[3];
    if IsControl(op) then ExecControl(m, op, a)
    else if IsStack(op) then ExecStack(m, op, a, b, c)
    else if WritesRegister(op) then ExecRegister(m, op, a, b)
    else if WritesMemory(op) then ExecMemory(m, op, a, b)
    else ExecOther(m, op, a, b)
  }

  // ---------------------------------------------------------------- the loop

  predicate Interrupted(m: State) {
    m.enabled && Active(m.pending, Masks(m.mem))
  }

  /** Takes the lowest deliverable interrupt: disables interrupts, saves pc, enters the dispatcher. */
  function TakeInterrupt(m: State): State {
    var i := First(m.pending, Masks(m.mem));
    var m1 := PushValue(m.(enabled := false, ir := i, pending := ClearBit(m.pending, i)), m.pc);
    if m1.panic != ErrOk then m1 else m1.(pc := ROM_ADDRESS + 8)
  }

  /** Fetch, decode, execute. */
  function Cycle(m: State): State {
    var m1 := Fetch(m);
    if m1.panic != ErrOk then m1
    else
      var w := Fetched(m);
      match Decode(ToBe(w)[0])
      case None => m1.(panic := ErrOpcode)
      case Some(op) => Exec(m1, op, w)
  }

  predicate Live(m: State) {
    m.running && m.panic == ErrOk
  }

  /** One turn of the CPU loop. */
  function Step(m: State): State
    requires Live(m)
  {
    Cycle(if Interrupted(m) then TakeInterrupt(m) else m)
  }

  /** At most n turns; a halted or panicked machine stays as it is. */
  function Run(m: State, n: nat): State
    decreases n
  {
    if n == 0 || !Live(m) then m else Run(Step(m), n - 1)
  }

  lemma {:induction false} RunSplit(m: State, a: nat, b: nat)
    ensures Run(m, a + b) == Run(Run(m, a), b)
    decreases a
  {
    hide Step;
    if a > 0 && Live(m) {
      RunSplit(Step(m), a - 1, b);
    }
  }
}
