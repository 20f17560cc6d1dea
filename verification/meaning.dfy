/** What every operation does, said of registers, flags, stack and memory directly and not through
    the functions the machine is made of, so that a mistake in one of those would show here. */
module Meaning {
  import opened Words
  import opened Isa
  import opened Arch
  import opened FlatMemory
  import opened Interrupts
  import opened Machine
  import opened OpenRuns

  /** w is an instruction word with these operand bytes. */
  predicate Operands(w: Word, a: Byte, b: Byte, c: Byte) {
    w / 0x1_0000 % 0x100 == a && w / 0x100 % 0x100 == b && w % 0x100 == c
  }

  lemma OperandsAreBytes(w: Word, a: Byte, b: Byte, c: Byte)
    requires Operands(w, a, b, c)
    ensures ToBe(w)[1] == a && ToBe(w)[2] == b && ToBe(w)[3] == c
  {
  }

  /** The family of an operation runs on its operand bytes. */
  lemma Dispatched(m: State, op: Op, w: Word, a: Byte, b: Byte, c: Byte)
    requires Operands(w, a, b, c)
    ensures IsControl(op) ==> Exec(m, op, w) == ExecControl(m, op, a)
    ensures IsStack(op) ==> Exec(m, op, w) == ExecStack(m, op, a, b, c)
    ensures WritesRegister(op) ==> Exec(m, op, w) == ExecRegister(m, op, a, b)
    ensures WritesMemory(op) ==> Exec(m, op, w) == ExecMemory(m, op, a, b)
    ensures !IsControl(op) && !IsStack(op) && !WritesRegister(op) && !WritesMemory(op) ==>
              Exec(m, op, w) == ExecOther(m, op, a, b)
  {
    hide ToBe, Operands, ExecControl, ExecStack, ExecRegister, ExecMemory, ExecOther,
      IsControl, IsStack, WritesRegister, WritesMemory;
    OperandsAreBytes(w, a, b, c);
    Families(op);
  }

  lemma Families(op: Op)
    ensures IsStack(op) ==> !IsControl(op)
    ensures WritesRegister(op) ==> !IsControl(op) && !IsStack(op)
    ensures WritesMemory(op) ==> !IsControl(op) && !IsStack(op) && !WritesRegister(op)
  {
  }

  // ---------------------------------------------------------------- registers and memory

  /** A number that names a register: one of the general ones, or idt, ir, sp, bp, pc, cs. */
  predicate Known(m: State, r: Byte) {
    r < |m.regs| || r >= 250
  }

  function Value(m: State, r: Byte): Word
    requires Known(m, r)
  {
    match r
    case 250 => m.idt
    case 251 => m.ir
    case 252 => m.sp
    case 253 => m.bp
    case 254 => m.pc
    case 255 => m.cs
    case _ => m.regs[r]
  }

  predicate Negative(v: Word) {
    v >= 0x8000_0000
  }

  /** Register r has the value v and the flags describe it; nothing else has changed. */
  function Holding(m: State, r: Byte, v: Word): (t: State)
    requires Known(m, r)
    ensures |t.regs| == |m.regs| && t.panic == m.panic
  {
    var t := m.(zero := v == 0, negative := Negative(v));
    match r
    case 250 => t.(idt := v)
    case 251 => t.(ir := v)
    case 252 => t.(sp := v)
    case 253 => t.(bp := v)
    case 254 => t.(pc := v)
    case 255 => t.(cs := v)
    case _ => t.(regs := t.regs[r := v])
  }

  function Failed(m: State, e: CpuError): State {
    m.(panic := e)
  }

  lemma ReadsRegister(m: State, r: Byte)
    ensures RegGet(m, r) == if Known(m, r) then Some(Value(m, r)) else None
  {
  }

  lemma SetsRegister(m: State, r: Byte, v: Word)
    requires m.panic == ErrOk
    ensures RegSet(m, r, v) == if Known(m, r) then Holding(m, r, v) else Failed(m, ErrRegister)
  {
    hide PutReg;
    if Known(m, r) {
      PutsRegister(m, r, v);
    }
  }

  lemma PutsRegister(m: State, r: Byte, v: Word)
    requires Known(m, r)
    ensures PutReg(m, r, v).(zero := v == 0, negative := Negative(v)) == Holding(m, r, v)
    ensures PutReg(m, r, v).panic == m.panic
  {
    match r
    case 250 | 251 | 252 | 253 | 254 | 255 =>
    case _ => assert r < 250;
  }

  /** Setting a register changes what is read from it and from no other. */
  lemma SetThenGet(m: State, r: Byte, v: Word, q: Byte)
    requires Known(m, r) && Known(m, q)
    ensures Known(Holding(m, r, v), q) && Value(Holding(m, r, v), q) == if q == r then v else Value(m, q)
  {
  }

  /** The word v is stored at the address, or the store fails. */
  function Stored(m: State, address: Word, v: Word): State {
    if address in m.mem.cells && address !in m.mem.readOnly
    then m.(mem := m.mem.(cells := m.mem.cells[address := v]))
    else Failed(m, ErrWrite)
  }

  /** Register r gets the word at the address, or the read fails. */
  function Read(m: State, r: Byte, address: Word): State
    requires Known(m, r)
  {
    if address in m.mem.cells then Holding(m, r, m.mem.cells[address]) else Failed(m, ErrRead)
  }

  lemma LoadFromIs(m: State, r: Byte, address: Word)
    requires Known(m, r) && m.panic == ErrOk
    ensures LoadFrom(m, r, address) == Read(m, r, address)
  {
    hide RegSet, Holding;
    if address in m.mem.cells {
      SetsRegister(m, r, m.mem.cells[address]);
    }
  }

  /** The machine is fine and the word w is at pc, where an operation finds its constant. */
  predicate Follows(m: State, w: Word) {
    m.panic == ErrOk && m.pc in m.mem.cells && m.mem.cells[m.pc] == w
  }

  function Past(m: State): State {
    m.(pc := (m.pc as int + 4) % 0x1_0000_0000)
  }

  lemma Fetches(m: State, w: Word)
    requires Follows(m, w)
    ensures Fetch(m) == Past(m) && Fetched(m) == w && ReadReg(m, 250) == m
  {
  }

  lemma WrapIs(x: int)
    ensures Wrap(x) == x % 0x1_0000_0000
  {
  }

  // ---------------------------------------------------------------- moves, loads and stores

  /** `MOV a, b` and `MOV a, w`. */
  lemma MovMeans(m: State, w: Word, a: Byte, b: Byte, imm: Word)
    requires Operands(w, a, b, 0) && Known(m, a) && m.panic == ErrOk
    ensures Known(m, b) ==> Exec(m, Mov(Reg), w) == Holding(m, a, Value(m, b))
    ensures Follows(m, imm) ==> Exec(m, Mov(Imm), w) == Holding(Past(m), a, imm)
  {
    hide Exec, Operands, RegSet, RegGet, Holding, Value, Fetch, Fetched;
    Dispatched(m, Mov(Reg), w, a, b, 0);
    Dispatched(m, Mov(Imm), w, a, b, 0);
    ReadsRegister(m, b);
    if Known(m, b) {
      SetsRegister(m, a, Value(m, b));
    }
    if Follows(m, imm) {
      Fetches(m, imm);
      SetsRegister(Past(m), a, imm);
    }
  }

  /** `LOAD a, b` reads at the address in b, `LOAD a, w` at w. */
  lemma LoadMeans(m: State, w: Word, a: Byte, b: Byte, imm: Word)
    requires Operands(w, a, b, 0) && Known(m, a) && m.panic == ErrOk
    ensures Known(m, b) ==> Exec(m, LoadRR, w) == Read(m, a, Value(m, b))
    ensures Follows(m, imm) ==> Exec(m, LoadRW, w) == Read(Past(m), a, imm)
  {
    hide Exec, Operands, LoadFrom, RegGet, Read, Value, Fetch, Fetched;
    Dispatched(m, LoadRR, w, a, b, 0);
    Dispatched(m, LoadRW, w, a, b, 0);
    ReadsRegister(m, b);
    if Known(m, b) {
      LoadFromIs(m, a, Value(m, b));
    }
    if Follows(m, imm) {
      Fetches(m, imm);
      LoadFromIs(Past(m), a, imm);
    }
  }

  /** `LOAD a, [b + w]` reads at the sum modulo 2^32; b is read before the constant is fetched. */
  lemma LoadIndexedMeans(m: State, w: Word, a: Byte, b: Byte, imm: Word)
    requires Operands(w, a, b, 0) && Known(m, a) && Known(m, b) && Follows(m, imm)
    ensures Exec(m, LoadRRW, w) == Read(Past(m), a, (Value(m, b) as int + imm) % 0x1_0000_0000)
  {
    hide Exec, Operands, LoadFrom, RegGet, Read, Value, Fetch, Fetched;
    Dispatched(m, LoadRRW, w, a, b, 0);
    ReadsRegister(m, b);
    Fetches(m, imm);
    WrapIs(Value(m, b) as int + imm);
    LoadFromIs(Past(m), a, (Value(m, b) as int + imm) % 0x1_0000_0000);
  }

  lemma WriteWordIs(m: State, address: Word, v: Word)
    ensures WriteWord(m, address, v) == Stored(m, address, v)
  {
  }

  /** `STOR a, b` stores b at the address in a; `STOR w, a` stores a at w. */
  lemma StorMeans(m: State, w: Word, a: Byte, b: Byte, imm: Word)
    requires Operands(w, a, b, 0) && Known(m, a) && m.panic == ErrOk
    ensures Known(m, b) ==> Exec(m, Stor(Reg), w) == Stored(m, Value(m, a), Value(m, b))
    ensures Follows(m, imm) ==> Exec(m, Stor(Imm), w) == Stored(Past(m), imm, Value(Past(m), a))
  {
    hide Exec, Operands, RegGet, WriteWord, Stored, Value, Fetch, Fetched;
    Dispatched(m, Stor(Reg), w, a, b, 0);
    Dispatched(m, Stor(Imm), w, a, b, 0);
    ReadsRegister(m, a);
    ReadsRegister(m, b);
    ReadsRegister(Past(m), a);
    if Known(m, b) {
      WriteWordIs(m, Value(m, a), Value(m, b));
    }
    if Follows(m, imm) {
      Fetches(m, imm);
      WriteWordIs(Past(m), imm, Value(Past(m), a));
    }
  }

  // ---------------------------------------------------------------- arithmetic and logic

  /** v is what the function makes of x and y: sums, differences and products modulo 2^32, and for
      the logical functions each bit on its own. */
  ghost predicate Computes(f: AluFn, x: Word, y: Word, v: Word) {
    match f
    case Add => v == (x as int + y as int) % 0x1_0000_0000
    case Sub => v == (x as int - y as int) % 0x1_0000_0000
    case Mul => v == (x as int * y as int) % 0x1_0000_0000
    case Band => forall i: nat :: i < 32 ==> Bit(v, i) == (Bit(x, i) && Bit(y, i))
    case Bor => forall i: nat :: i < 32 ==> Bit(v, i) == (Bit(x, i) || Bit(y, i))
    case Bxor => forall i: nat :: i < 32 ==> Bit(v, i) == (Bit(x, i) != Bit(y, i))
  }

  lemma LogicIsBitwise(x: Word, y: Word, i: nat)
    requires i < 32
    ensures Bit(Compute(Band, x, y), i) == (Bit(x, i) && Bit(y, i))
    ensures Bit(Compute(Bor, x, y), i) == (Bit(x, i) || Bit(y, i))
    ensures Bit(Compute(Bxor, x, y), i) == (Bit(x, i) != Bit(y, i))
  {
    hide Bitwise, Bit;
    BitwiseBit(And, x, y, i);
    BitwiseBit(Or, x, y, i);
    BitwiseBit(Xor, x, y, i);
  }

  lemma SignedIs(x: Word)
    ensures Signed(x) == (if Negative(x) then x as int - 0x1_0000_0000 else x as int)
  {
  }

  lemma ModularProduct(x: Word, y: Word, s: int, t: int)
    requires s == x || s == x as int - 0x1_0000_0000
    requires t == y || t == y as int - 0x1_0000_0000
    ensures (s * t) % 0x1_0000_0000 == (x as int * y as int) % 0x1_0000_0000
  {
    var n := 0x1_0000_0000;
    if s != x && t != y {
      Multiple(s * t, x as int * y as int, n, n - x as int - y as int);
    } else if s != x {
      Multiple(s * t, x as int * y as int, n, -(y as int));
    } else if t != y {
      Multiple(s * t, x as int * y as int, n, -(x as int));
    }
  }

  lemma Multiple(p: int, q: int, n: int, k: int)
    requires p == q + n * k && n == 0x1_0000_0000
    ensures p % n == q % n
  {
  }

  lemma ComputeMeans(f: AluFn, x: Word, y: Word)
    ensures Computes(f, x, y, Compute(f, x, y))
  {
    hide Computes, Compute;
    if f == Band || f == Bor || f == Bxor {
      LogicMeans(f, x, y);
    } else {
      ArithmeticMeans(f, x, y);
    }
  }

  lemma ArithmeticMeans(f: AluFn, x: Word, y: Word)
    requires f == Add || f == Sub || f == Mul
    ensures Computes(f, x, y, Compute(f, x, y))
  {
    hide Bitwise, Bit, Signed, Wrap;
    SumIs(x, y);
    ProductIs(x, y);
  }

  lemma SumIs(x: Word, y: Word)
    ensures Wrap(Signed(x) + Signed(y)) == (x as int + y as int) % 0x1_0000_0000
    ensures Wrap(Signed(x) - Signed(y)) == (x as int - y as int) % 0x1_0000_0000
  {
    SignedIs(x);
    SignedIs(y);
  }

  lemma ProductIs(x: Word, y: Word)
    ensures Wrap(Signed(x) * Signed(y)) == (x as int * y as int) % 0x1_0000_0000
  {
    hide Signed;
    SignedIs(x);
    SignedIs(y);
    ModularProduct(x, y, Signed(x), Signed(y));
  }

  lemma LogicMeans(f: AluFn, x: Word, y: Word)
    requires f == Band || f == Bor || f == Bxor
    ensures Computes(f, x, y, Compute(f, x, y))
  {
    hide Bitwise, Bit, Signed, Wrap;
    forall i: nat | i < 32
      ensures Bit(Compute(Band, x, y), i) == (Bit(x, i) && Bit(y, i))
      ensures Bit(Compute(Bor, x, y), i) == (Bit(x, i) || Bit(y, i))
      ensures Bit(Compute(Bxor, x, y), i) == (Bit(x, i) != Bit(y, i))
    {
      LogicIsBitwise(x, y, i);
    }
  }

  /** After a two-operand operation its first register holds what the function makes of the two
      operands, in their order, and the flags describe it. */
  lemma AluMeans(m: State, f: AluFn, w: Word, a: Byte, b: Byte)
    requires Operands(w, a, b, 0) && Known(m, a) && Known(m, b) && m.panic == ErrOk
    ensures exists v: Word :: Computes(f, Value(m, a), Value(m, b), v) && Exec(m, Alu(f, Reg), w) == Holding(m, a, v)
  {
    hide Exec, Operands, RegSet, RegGet, Value, Holding, Compute, Computes;
    Dispatched(m, Alu(f, Reg), w, a, b, 0);
    var v := Compute(f, Value(m, a), Value(m, b));
    ComputeMeans(f, Value(m, a), Value(m, b));
    ReadsRegister(m, a);
    ReadsRegister(m, b);
    SetsRegister(m, a, v);
    assert Computes(f, Value(m, a), Value(m, b), v) && Exec(m, Alu(f, Reg), w) == Holding(m, a, v);
  }

  /** The same with a constant, which is fetched before the register is read. */
  lemma AluImmMeans(m: State, f: AluFn, w: Word, a: Byte, b: Byte, imm: Word)
    requires Operands(w, a, b, 0) && Known(m, a) && Follows(m, imm)
    ensures exists v: Word ::
      Computes(f, Value(Past(m), a), imm, v) && Exec(m, Alu(f, Imm), w) == Holding(Past(m), a, v)
  {
    hide Exec, Operands, RegSet, RegGet, Value, Holding, Compute, Computes, Fetch, Fetched;
    Dispatched(m, Alu(f, Imm), w, a, b, 0);
    Fetches(m, imm);
    var x := Value(Past(m), a);
    var v := Compute(f, x, imm);
    ComputeMeans(f, x, imm);
    ReadsRegister(Past(m), a);
    SetsRegister(Past(m), a, v);
    assert Computes(f, x, imm, v) && Exec(m, Alu(f, Imm), w) == Holding(Past(m), a, v);
  }

  /** With general registers and whatever the last outcome was. */
  lemma AluRegisters(m: State, f: AluFn, a: Byte, b: Byte)
    requires a < |m.regs| <= 250 && b < |m.regs|
    ensures var t := ExecAlu(m, f, Reg, a, b);
      |t.regs| == |m.regs| && t.regs == m.regs[a := t.regs[a]] && Computes(f, m.regs[a], m.regs[b], t.regs[a])
  {
    hide Compute, Computes;
    ComputeMeans(f, m.regs[a], m.regs[b]);
  }

  /** INC and DEC are modulo 2^32 and set the flags. */
  lemma CountMeans(m: State, w: Word, a: Byte)
    requires Operands(w, a, 0, 0) && Known(m, a) && m.panic == ErrOk
    ensures Exec(m, Inc, w) == Holding(m, a, (Value(m, a) as int + 1) % 0x1_0000_0000)
    ensures Exec(m, Dec, w) == Holding(m, a, (Value(m, a) as int - 1) % 0x1_0000_0000)
  {
    hide Exec, Operands, RegSet, RegGet, Value, Signed, Wrap, Holding;
    Dispatched(m, Inc, w, a, 0, 0);
    Dispatched(m, Dec, w, a, 0, 0);
    var x := Value(m, a);
    ReadsRegister(m, a);
    SignedIs(x);
    WrapIs(Signed(x) + 1);
    WrapIs(Signed(x) - 1);
    SetsRegister(m, a, (x as int + 1) % 0x1_0000_0000);
    SetsRegister(m, a, (x as int - 1) % 0x1_0000_0000);
  }

  // ---------------------------------------------------------------- comparison and jumps

  /** The flags after comparing x with y: equality, and the sign of the difference modulo 2^32. */
  function Compared(m: State, x: Word, y: Word): State {
    m.(zero := x == y, negative := Negative((x as int - y as int) % 0x1_0000_0000))
  }

  lemma CompareIs(m: State, x: Word, y: Word)
    ensures Compare(m, x, y) == Compared(m, x, y)
  {
    SignedIs(x);
    SignedIs(y);
  }

  /** CMP compares its first operand with its second and changes nothing but the flags. */
  lemma CmpMeans(m: State, w: Word, a: Byte, b: Byte)
    requires Operands(w, a, b, 0) && Known(m, a) && Known(m, b) && m.panic == ErrOk
    ensures Exec(m, Cmp(Reg), w) == Compared(m, Value(m, a), Value(m, b))
  {
    hide Exec, Operands, RegGet, Compare, Compared, Value;
    Dispatched(m, Cmp(Reg), w, a, b, 0);
    ReadsRegister(m, a);
    ReadsRegister(m, b);
    CompareIs(m, Value(m, a), Value(m, b));
  }

  /** With a constant; here the register is read before the constant is fetched. */
  lemma CmpImmMeans(m: State, w: Word, a: Byte, b: Byte, imm: Word)
    requires Operands(w, a, b, 0) && Known(m, a) && Follows(m, imm)
    ensures Exec(m, Cmp(Imm), w) == Compared(Past(m), Value(m, a), imm)
  {
    hide Exec, Operands, RegGet, Compare, Compared, Value, Fetch, Fetched;
    Dispatched(m, Cmp(Imm), w, a, b, 0);
    ReadsRegister(m, a);
    Fetches(m, imm);
    CompareIs(Past(m), Value(m, a), imm);
  }

  /** Where a jump that is taken leads: to its operand, which `@` counts from cs. */
  function Goal(m: State, kind: AddressKind, address: Word): Word {
    if kind.Segment? then (m.cs as int + address) % 0x1_0000_0000 else address
  }

  /** After comparing x with y, JEQ jumps exactly when they are equal and JNE exactly when they are
      not; J always does. A jump that is not made goes on behind its operand. */
  lemma JumpMeans(m: State, x: Word, y: Word, w: Word, kind: AddressKind, address: Word)
    requires Follows(m, address)
    ensures var t := Compared(m, x, y);
      && Exec(t, Jump(IfZero, kind), w) == (if x == y then t.(pc := Goal(m, kind, address)) else Past(t))
      && Exec(t, Jump(IfNotZero, kind), w) == (if x != y then t.(pc := Goal(m, kind, address)) else Past(t))
      && Exec(t, Jump(Always, kind), w) == t.(pc := Goal(m, kind, address))
  {
    hide ToBe, Fetch, Fetched;
    Fetches(Compared(m, x, y), address);
  }

  // ---------------------------------------------------------------- calls and returns

  function Lower(sp: Word, n: nat): Word {
    (sp as int - 4 * n) % 0x1_0000_0000
  }

  /** v is on top of the stack, or could not be put there; sp has moved in any case. */
  function Pushed(m: State, v: Word): (t: State)
    ensures t.regs == m.regs
  {
    Stored(m.(sp := Lower(m.sp, 1)), Lower(m.sp, 1), v)
  }

  lemma PushedIs(m: State, v: Word)
    ensures PushValue(m, v) == Pushed(m, v)
  {
    WrapIs(m.sp - 4);
  }

  /** CALL pushes the address behind it and goes to its target, unless the push fails. */
  function Called(m: State, address: Word): State {
    var t := Pushed(m, m.pc);
    if t.panic == ErrOk then t.(pc := address) else t
  }

  lemma CallMeans(m: State, w: Word, a: Byte, kind: AddressKind, address: Word)
    requires Operands(w, a, 0, 0) && m.panic == ErrOk
    ensures Follows(m, address) ==> Exec(m, Call(kind), w) == Called(Past(m), Goal(m, kind, address))
    ensures Known(m, a) ==> Exec(m, CallR, w) == Called(m, Value(m, a))
  {
    hide Exec, Operands, RegGet, PushValue, Pushed, Value, Fetch, Fetched;
    Dispatched(m, Call(kind), w, a, 0, 0);
    Dispatched(m, CallR, w, a, 0, 0);
    PushedIs(m, m.pc);
    PushedIs(Past(m), Past(m).pc);
    ReadsRegister(m, a);
    if Follows(m, address) {
      Fetches(m, address);
    }
  }

  /** RET goes to the word on top of the stack and takes it off; IRET enables interrupts as well. */
  lemma ReturnMeans(m: State, w: Word)
    ensures Exec(m, Ret, w)
         == if m.sp in m.mem.cells then m.(pc := m.mem.cells[m.sp], sp := (m.sp as int + 4) % 0x1_0000_0000)
            else Failed(m, ErrRead)
    ensures Exec(m, Iret, w)
         == if m.sp in m.mem.cells
            then m.(pc := m.mem.cells[m.sp], sp := (m.sp as int + 4) % 0x1_0000_0000, enabled := true)
            else Failed(m, ErrRead)
  {
    hide ToBe;
  }

  // ---------------------------------------------------------------- the stack

  lemma PushRegIs(m: State, r: Byte)
    requires Known(m, r)
    ensures PushReg(m, r) == Pushed(m.(panic := ErrOk), Value(m, r))
  {
    hide PushValue, Pushed, RegGet, Value;
    ReadsRegister(m, r);
    PushedIs(m.(panic := ErrOk), Value(m, r));
  }

  lemma PushThree(m: State, a: Byte, b: Byte, c: Byte)
    ensures PushRegs(m, [a]) == PushReg(m, a)
    ensures PushRegs(m, [a, b]) == PushReg(PushReg(m, a), b)
    ensures PushRegs(m, [a, b, c]) == PushReg(PushReg(PushReg(m, a), b), c)
  {
    hide PushReg;
    PushFirst(m, a, []);
    PushFirst(m, a, [b]);
    PushFirst(PushReg(m, a), b, []);
    PushFirst(m, a, [b, c]);
    PushFirst(PushReg(m, a), b, [c]);
    PushFirst(PushReg(PushReg(m, a), b), c, []);
    assert [a] + [] == [a] && [b] + [] == [b] && [c] + [] == [c];
    assert [a] + [b] == [a, b] && [b] + [c] == [b, c] && [a] + [b, c] == [a, b, c];
  }

  lemma PushFirst(m: State, r: Byte, rs: seq<Byte>)
    ensures PushRegs(m, [r] + rs) == PushRegs(PushReg(m, r), rs)
    ensures PushRegs(m, []) == m
  {
    hide PushReg;
    assert ([r] + rs)[1..] == rs;
  }

  /** PUSH pushes its operands from left to right; a push that fails is forgotten by the next. */
  lemma PushMeans(m: State, w: Word, a: Byte, b: Byte, c: Byte)
    requires Operands(w, a, b, c) && Known(m, a) && Known(m, b) && Known(m, c) && m.panic == ErrOk
    ensures var m1 := Pushed(m, Value(m, a));
      var m2 := Pushed(m1.(panic := ErrOk), Value(m1, b));
      var m3 := Pushed(m2.(panic := ErrOk), Value(m2, c));
      Exec(m, PushR, w) == m1 && Exec(m, PushRR, w) == m2 && Exec(m, PushRRR, w) == m3
  {
    hide Exec, Operands, PushReg, PushRegs, Pushed, Value;
    Dispatched(m, PushR, w, a, b, c);
    Dispatched(m, PushRR, w, a, b, c);
    Dispatched(m, PushRRR, w, a, b, c);
    PushThree(m, a, b, c);
    PushRegIs(m, a);
    var m1 := PushReg(m, a);
    PushRegIs(m1, b);
    PushRegIs(PushReg(m1, b), c);
  }

  lemma PushImmMeans(m: State, w: Word, imm: Word)
    requires Follows(m, imm)
    ensures Exec(m, PushW, w) == Pushed(Past(m), imm)
  {
    hide Exec, PushValue, Pushed, Fetch, Fetched;
    Dispatched(m, PushW, w, w / 0x1_0000 % 0x100, w / 0x100 % 0x100, w % 0x100);
    Fetches(m, imm);
    PushedIs(Past(m), imm);
  }

  /** What a pop into r leaves: sp moves first, so that a pop into sp sets it. */
  function Popped(m: State, r: Byte): (t: State)
    requires Known(m, r)
    ensures |t.regs| == |m.regs|
  {
    if m.sp in m.mem.cells then Holding(m.(sp := (m.sp as int + 4) % 0x1_0000_0000), r, m.mem.cells[m.sp])
    else Failed(m, ErrRead)
  }

  /** A further pop, which is not tried when one has failed. */
  function PoppedNext(m: State, r: Byte): (t: State)
    requires Known(m, r)
    ensures |t.regs| == |m.regs|
  {
    if m.panic == ErrOk then Popped(m, r) else m
  }

  lemma PopNone(m: State)
    ensures PopRegs(m, []) == m
  {
  }

  lemma PopFirst(m: State, r: Byte, rs: seq<Byte>)
    requires Known(m, r) && m.panic == ErrOk
    ensures PopRegs(m, [r] + rs)
         == if Popped(m, r).panic == ErrOk then PopRegs(Popped(m, r), rs) else Popped(m, r)
  {
    hide RegSet, Holding;
    assert ([r] + rs)[1..] == rs;
    if m.sp in m.mem.cells {
      var t := m.(sp := (m.sp as int + 4) % 0x1_0000_0000);
      SetsRegister(t, r, m.mem.cells[m.sp]);
      assert PopReg(m, r) == Popped(m, r);
    }
  }

  /** POP fills its operands from left to right and gives up at the first unreadable word. */
  lemma PopMeans(m: State, w: Word, a: Byte, b: Byte, c: Byte)
    requires Operands(w, a, b, c) && Known(m, a) && Known(m, b) && Known(m, c) && m.panic == ErrOk
    ensures var m1 := Popped(m, a);
      var m2 := PoppedNext(m1, b);
      var m3 := PoppedNext(m2, c);
      Exec(m, PopR, w) == m1 && Exec(m, PopRR, w) == m2 && Exec(m, PopRRR, w) == m3
  {
    hide Exec, Operands, PopRegs, Popped;
    Dispatched(m, PopR, w, a, b, c);
    Dispatched(m, PopRR, w, a, b, c);
    Dispatched(m, PopRRR, w, a, b, c);
    PopThree(m, a, b, c);
  }

  lemma PopThree(m: State, a: Byte, b: Byte, c: Byte)
    requires Known(m, a) && Known(m, b) && Known(m, c) && m.panic == ErrOk
    ensures PopRegs(m, [a]) == Popped(m, a)
    ensures PopRegs(m, [a, b]) == PoppedNext(Popped(m, a), b)
    ensures PopRegs(m, [a, b, c]) == PoppedNext(PoppedNext(Popped(m, a), b), c)
  {
    hide PopRegs, Popped;
    assert [a] + [] == [a] && [b] + [] == [b] && [c] + [] == [c];
    assert [a] + [b] == [a, b] && [b] + [c] == [b, c] && [a] + [b, c] == [a, b, c];
    PopFirst(m, a, []);
    PopFirst(m, a, [b]);
    PopFirst(m, a, [b, c]);
    var m1 := Popped(m, a);
    PopNone(m1);
    if m1.panic == ErrOk {
      PopFirst(m1, b, []);
      PopFirst(m1, b, [c]);
      var m2 := Popped(m1, b);
      PopNone(m2);
      if m2.panic == ErrOk {
        PopFirst(m2, c, []);
        PopNone(Popped(m2, c));
      }
    }
  }

  lemma LowerTwice(sp: Word, n: nat)
    ensures Lower(Lower(sp, n), 1) == Lower(sp, n + 1) && (Lower(sp, n + 1) as int + 4) % 0x1_0000_0000 == Lower(sp, n)
    ensures Lower(sp, 0) == sp
  {
  }

  lemma LowerDiffer(sp: Word, j: nat, k: nat)
    requires j < k <= 1000
    ensures Lower(sp, j) != Lower(sp, k)
  {
  }

  predicate GeneralRegisters(m: State, rs: seq<Byte>) {
    |m.regs| <= 250 && forall k :: 0 <= k < |rs| ==> rs[k] < |m.regs|
  }

  /** The word k + 1 below sp is the register rs[k]. */
  predicate OnStack(m: State, f: Flat, rs: seq<Byte>)
    requires GeneralRegisters(m, rs)
  {
    forall k :: 0 <= k < |rs| ==> Lookup(f, Lower(m.sp, k + 1)) == Some(m.regs[rs[k]])
  }

  lemma {:induction false} PushSplits(m: State, rs: seq<Byte>, r: Byte)
    ensures PushRegs(m, rs + [r]) == PushReg(PushRegs(m, rs), r)
    decreases |rs|
  {
    hide PushReg;
    if rs == [] {
      assert [] + [r] == [r] + [];
      PushFirst(m, r, []);
    } else {
      assert rs + [r] == [rs[0]] + (rs[1..] + [r]);
      PushFirst(m, rs[0], rs[1..] + [r]);
      PushSplits(PushReg(m, rs[0]), rs[1..], r);
    }
  }

  lemma {:induction false} RegistersPushed(m: State, rs: seq<Byte>)
    requires m.panic == ErrOk && GeneralRegisters(m, rs) && |rs| < 1000
    requires forall k :: 1 <= k <= |rs| ==> Writable(m.mem, Lower(m.sp, k))
    ensures var t := PushRegs(m, rs);
      t == m.(sp := Lower(m.sp, |rs|), mem := t.mem) && SameShape(m.mem, t.mem) && OnStack(m, t.mem, rs)
    decreases |rs|
  {
    hide PushReg, Lower, PushRegs;
    var n := |rs|;
    if n == 0 {
      PushFirst(m, 0, []);
      LowerTwice(m.sp, 0);
    } else {
      var (front, r) := (rs[..n - 1], rs[n - 1]);
      assert rs == front + [r];
      PushSplits(m, front, r);
      RegistersPushed(m, front);
      var s := PushRegs(m, front);
      LowerTwice(m.sp, n - 1);
      PushRegIs(s, r);
      var f := s.mem;
      assert Writable(f, Lower(m.sp, n));
      assert PushReg(s, r) == m.(sp := Lower(m.sp, n), mem := Put(f, Lower(m.sp, n), m.regs[r]));
      forall k | 0 <= k < n - 1
        ensures Lookup(Put(f, Lower(m.sp, n), m.regs[r]), Lower(m.sp, k + 1)) == Some(m.regs[rs[k]])
      {
        LowerDiffer(m.sp, k + 1, n);
        assert front[k] == rs[k];
      }
      assert SameShape(m.mem, Put(f, Lower(m.sp, n), m.regs[r]));
    }
  }

  function Reversed(rs: seq<Byte>): (t: seq<Byte>) {
    if rs == [] then [] else [rs[|rs| - 1]] + Reversed(rs[..|rs| - 1])
  }

  lemma {:induction false} RegistersPopped(m: State, t: State, rs: seq<Byte>)
    requires GeneralRegisters(m, rs) && t.panic == ErrOk && t.regs == m.regs
    requires t.sp == Lower(m.sp, |rs|) && OnStack(m, t.mem, rs)
    ensures var u := PopRegs(t, Reversed(rs));
      u == t.(sp := m.sp, zero := u.zero, negative := u.negative)
      && (rs != [] ==> u.zero == (m.regs[rs[0]] == 0) && u.negative == Negative(m.regs[rs[0]]))
    decreases |rs|
  {
    hide Lower, PopRegs, Popped;
    var n := |rs|;
    if n == 0 {
      LowerTwice(m.sp, 0);
      PopNone(t);
    } else {
      var (front, r) := (rs[..n - 1], rs[n - 1]);
      assert Lookup(t.mem, Lower(m.sp, (n - 1) + 1)) == Some(m.regs[r]);
      LowerTwice(m.sp, n - 1);
      var t1 := Popped(t, r);
      RegisterBack(t, r, Lower(m.sp, n - 1));
      PopFirst(t, r, Reversed(front));
      assert forall k :: 0 <= k < |front| ==> front[k] == rs[k];
      RegistersPopped(m, t1, front);
      if n == 1 {
        PopNone(t1);
      }
    }
  }

  lemma RegisterBack(t: State, r: Byte, sp: Word)
    requires r < |t.regs| <= 250 && Lookup(t.mem, t.sp) == Some(t.regs[r]) && (t.sp as int + 4) % 0x1_0000_0000 == sp
    ensures Popped(t, r) == t.(sp := sp, zero := t.regs[r] == 0, negative := Negative(t.regs[r]))
  {
    assert t.regs[r := t.regs[r]] == t.regs;
  }

  /** Registers pushed together stand below each other on the stack, the first one highest; popped
      together in the opposite order they are restored, and sp with them. */
  lemma PushPopTwo(m: State, w: Word, v: Word, a: Byte, b: Byte)
    requires Operands(w, a, b, 0) && Operands(v, b, a, 0) && m.panic == ErrOk
    requires a < |m.regs| <= 250 && b < |m.regs|
    requires forall n :: 1 <= n <= 2 ==> Writable(m.mem, Lower(m.sp, n))
    ensures var t := Exec(m, PushRR, w);
      var u := Exec(t, PopRR, v);
      && t == m.(sp := Lower(m.sp, 2), mem := t.mem)
      && Lookup(t.mem, Lower(m.sp, 1)) == Some(m.regs[a]) && Lookup(t.mem, Lower(m.sp, 2)) == Some(m.regs[b])
      && u == m.(mem := t.mem, zero := m.regs[a] == 0, negative := Negative(m.regs[a]))
  {
    hide Exec, Operands, Lower, PushRegs, PopRegs;
    var rs := [a, b];
    Dispatched(m, PushRR, w, a, b, 0);
    RegistersPushed(m, rs);
    var t := Exec(m, PushRR, w);
    assert OnStack(m, t.mem, rs) && rs[0] == a && rs[1] == b;
    assert Lookup(t.mem, Lower(m.sp, 0 + 1)) == Some(m.regs[rs[0]]);
    assert Lookup(t.mem, Lower(m.sp, 1 + 1)) == Some(m.regs[rs[1]]);
    ReversedTwo(a, b);
    Dispatched(t, PopRR, v, b, a, 0);
    RegistersPopped(m, t, rs);
  }

  /** Three registers pushed and popped in the opposite order are restored. */
  lemma PushPopThree(m: State, w: Word, v: Word, a: Byte, b: Byte, c: Byte)
    requires Operands(w, a, b, c) && Operands(v, c, b, a) && m.panic == ErrOk && GeneralRegisters(m, [a, b, c])
    requires forall n :: 1 <= n <= 3 ==> Writable(m.mem, Lower(m.sp, n))
    ensures OnStack(m, Exec(m, PushRRR, w).mem, [a, b, c])
    ensures var u := Exec(Exec(m, PushRRR, w), PopRRR, v);
      u.regs == m.regs && u.sp == m.sp && u.panic == ErrOk && u.mem == Exec(m, PushRRR, w).mem
  {
    hide Exec, Operands, Lower, PushRegs, PopRegs;
    Dispatched(m, PushRRR, w, a, b, c);
    RegistersPushed(m, [a, b, c]);
    var t := Exec(m, PushRRR, w);
    ReversedThree(a, b, c);
    Dispatched(t, PopRRR, v, c, b, a);
    RegistersPopped(m, t, [a, b, c]);
  }

  lemma ReversedTwo(a: Byte, b: Byte)
    ensures Reversed([a, b]) == [b, a]
  {
    assert [a, b][..1] == [a] && [a][..0] == [] && Reversed([a]) == [a];
  }

  lemma ReversedThree(a: Byte, b: Byte, c: Byte)
    ensures Reversed([a, b, c]) == [c, b, a]
  {
    assert [a, b, c][..2] == [a, b];
    ReversedTwo(a, b);
  }

  // ---------------------------------------------------------------- interrupts and state

  predicate MasksThere(f: Flat) {
    forall k :: 0 <= k < 8 ==> IMASK_ADDRESS + 4 * k in f.cells
  }

  /** MI masks one interrupt and UMI unmasks it; what else is masked or not stays so. */
  lemma MaskMeans(m: State, w: Word, i: Byte, j: Byte)
    requires Operands(w, i, 0, 0) && MasksThere(m.mem)
    ensures Has(Masks(Exec(m, Mi, w).mem), j) == (j == i || Has(Masks(m.mem), j))
    ensures Has(Masks(Exec(m, Umi, w).mem), j) == (j != i && Has(Masks(m.mem), j))
  {
    hide Exec, Operands, Has, Masks, Bitwise, BitOf;
    Dispatched(m, Mi, w, i, 0, 0);
    Dispatched(m, Umi, w, i, 0, 0);
    var ws := Masks(m.mem);
    MaskWordStored(m.mem, i / 32, Bitwise(Or, ws[i / 32], BitOf(i)));
    MaskWordStored(m.mem, i / 32, Bitwise(AndNot, ws[i / 32], BitOf(i)));
    SetBitHas(ws, i, j);
    ClearBitHas(ws, i, j);
  }

  lemma MaskWordStored(f: Flat, k: nat, v: Word)
    requires k < 8
    ensures Masks(Put(f, IMASK_ADDRESS + 4 * k, v)) == Masks(f)[k := v]
  {
    forall j | 0 <= j < 8
      ensures MaskWord(Put(f, IMASK_ADDRESS + 4 * k, v), j) == if j == k then v else MaskWord(f, j)
    {
    }
  }

  /** The interrupt's bit in memory: number i is bit i % 32 of mask word i / 32, and no other word changes. */
  lemma MaskBit(m: State, w: Word, i: Byte)
    requires Operands(w, i, 0, 0) && MasksThere(m.mem)
    ensures var a := IMASK_ADDRESS + 4 * (i / 32);
      && a in Exec(m, Mi, w).mem.cells && Bit(Exec(m, Mi, w).mem.cells[a], i % 32)
      && a in Exec(m, Umi, w).mem.cells && !Bit(Exec(m, Umi, w).mem.cells[a], i % 32)
      && Exec(m, Mi, w) == m.(mem := m.mem.(cells := m.mem.cells[a := Exec(m, Mi, w).mem.cells[a]]))
      && Exec(m, Umi, w) == m.(mem := m.mem.(cells := m.mem.cells[a := Exec(m, Umi, w).mem.cells[a]]))
  {
    hide Exec, Operands, Bit, Bitwise, BitOf, Masks;
    Dispatched(m, Mi, w, i, 0, 0);
    Dispatched(m, Umi, w, i, 0, 0);
    var x := Masks(m.mem)[i / 32];
    BitwiseBit(Or, x, BitOf(i), i % 32);
    BitwiseBit(AndNot, x, BitOf(i), i % 32);
    OwnBit(i);
  }

  lemma OwnBit(i: Byte)
    ensures Bit(BitOf(i), i % 32)
  {
    PowBit(i % 32, i % 32);
  }

  /** A masked interrupt is not taken, whatever arrives. */
  lemma MaskedNotTaken(m: State, arrivals: seq<Byte>, i: Byte)
    requires Has(Masks(m.mem), i)
    ensures TakenIn(m, arrivals) != Some(i)
  {
    hide Has, Masks, SetAll;
    var m1 := Arrive(m, arrivals);
    if Interrupted(m1) {
      assert Deliverable(m1.pending, Masks(m1.mem), First(m1.pending, Masks(m1.mem)));
    }
  }

  /** After `MI i` no turn takes interrupt i until its mask changes, whatever runs and whatever
      arrives: it is not taken in the turn behind every part of the run that keeps it masked, and if it
      is pending it stays pending. */
  lemma MaskedWaits(m: State, w: Word, schedule: Schedule, i: Byte)
    requires Operands(w, i, 0, 0) && MasksThere(m.mem) && m.panic == ErrOk
    requires var t := Exec(m, Mi, w);
      forall k :: 0 < k < |schedule| ==> Has(Masks(OpenRun(t, schedule[..k]).mem), i)
    ensures var t := Exec(m, Mi, w);
      && (forall k :: 0 <= k < |schedule| ==> TakenIn(OpenRun(t, schedule[..k]), schedule[k]) != Some(i))
      && (Has(m.pending, i) ==> Has(OpenRun(t, schedule).pending, i))
  {
    hide Exec, Operands, Has, Masks, OpenRun, TakenIn;
    var t := Exec(m, Mi, w);
    MaskMeans(m, w, i, i);
    MaskBit(m, w, i);
    forall k | 0 <= k < |schedule|
      ensures TakenIn(OpenRun(t, schedule[..k]), schedule[k]) != Some(i)
    {
      if k == 0 {
        NoTurns(t, schedule[..0]);
      }
      MaskedNotTaken(OpenRun(t, schedule[..k]), schedule[k], i);
    }
    if Has(m.pending, i) {
      PendingStays(t, schedule, i);
    }
  }

  lemma NoTurns(m: State, schedule: Schedule)
    requires schedule == []
    ensures OpenRun(m, schedule) == m
  {
  }

  /** INT makes its interrupt pending and no other. */
  lemma TriggerMeans(m: State, w: Word, i: Byte, j: Byte)
    requires Operands(w, i, 0, 0)
    ensures var t := Exec(m, Int, w);
      t == m.(pending := t.pending) && Has(t.pending, j) == (j == i || Has(m.pending, j))
  {
    hide Exec, Operands, Has, SetBit;
    Dispatched(m, Int, w, i, 0, 0);
    SetBitHas(m.pending, i, j);
  }

  /** IND and INE switch interrupts off and on. */
  lemma SwitchMeans(m: State, w: Word)
    ensures Exec(m, Ind, w) == m.(enabled := false) && Exec(m, Ine, w) == m.(enabled := true)
  {
    hide Exec, ExecControl, ExecStack, ExecRegister, ExecMemory, ExecCmp, SetBit;
    var (a, b, c) := (w / 0x1_0000 % 0x100, w / 0x100 % 0x100, w % 0x100);
    Dispatched(m, Ind, w, a, b, c);
    Dispatched(m, Ine, w, a, b, c);
  }

  /** HALT stops the machine and PANIC fails it. */
  lemma StopMeans(m: State, w: Word)
    requires m.panic == ErrOk
    ensures Exec(m, Halt, w) == m.(running := false) && Exec(m, Panic, w) == m.(panic := ErrPanic)
  {
    hide Exec, ExecControl, ExecStack, ExecRegister, ExecMemory, ExecCmp, SetBit;
    var (a, b, c) := (w / 0x1_0000 % 0x100, w / 0x100 % 0x100, w % 0x100);
    Dispatched(m, Halt, w, a, b, c);
    Dispatched(m, Panic, w, a, b, c);
  }

  predicate Idle(op: Op) {
    op.Nop? || op.Wfi? || op.Xbm? || op.Xdbg? || op.Xpse? || op.Xpsd? || op.Xbrk?
  }

  /** The operations that leave the machine as it is. */
  lemma IdleMeans(m: State, op: Op, w: Word)
    requires Idle(op)
    ensures Exec(m, op, w) == m
  {
    hide Exec, ExecOther, IsControl, IsStack, WritesRegister, WritesMemory;
    var (a, b, c) := (w / 0x1_0000 % 0x100, w / 0x100 % 0x100, w % 0x100);
    Dispatched(m, op, w, a, b, c);
    IdleFamily(op);
    IdleOther(m, op, a, b);
  }

  lemma IdleFamily(op: Op)
    requires Idle(op)
    ensures !IsControl(op) && !IsStack(op) && !WritesRegister(op) && !WritesMemory(op)
  {
  }

  lemma IdleOther(m: State, op: Op, a: Byte, b: Byte)
    requires Idle(op)
    ensures ExecOther(m, op, a, b) == m
  {
    hide ExecCmp, SetBit;
  }

  // ---------------------------------------------------------------- failures

  /** An operand that names no register fails the operation, and nothing else happens. */
  lemma NoRegisterFails(m: State, f: AluFn, w: Word, a: Byte, b: Byte)
    requires Operands(w, a, b, 0) && !Known(m, b) && m.panic == ErrOk
    ensures Exec(m, Mov(Reg), w) == Failed(m, ErrRegister) && Exec(m, Alu(f, Reg), w) == Failed(m, ErrRegister)
    ensures Exec(m, Cmp(Reg), w) == Failed(m, ErrRegister)
  {
    hide Exec, ExecControl, ExecStack, ExecMemory, Operands, RegGet, RegSet;
    Dispatched(m, Mov(Reg), w, a, b, 0);
    Dispatched(m, Alu(f, Reg), w, a, b, 0);
    Dispatched(m, Cmp(Reg), w, a, b, 0);
    ReadsRegister(m, a);
    ReadsRegister(m, b);
  }

  lemma NoAddressFails(m: State, w: Word, a: Byte, b: Byte)
    requires Operands(w, a, b, 0) && !Known(m, b) && m.panic == ErrOk
    ensures Exec(m, LoadRR, w) == Failed(m, ErrRegister) && Exec(m, LoadRRW, w) == Failed(m, ErrRegister)
    ensures Exec(m, Stor(Reg), w) == Failed(m, ErrRegister)
  {
    hide Exec, ExecControl, ExecStack, ExecOther, Operands, RegGet, RegSet;
    Dispatched(m, Stor(Reg), w, a, b, 0);
    Dispatched(m, LoadRR, w, a, b, 0);
    Dispatched(m, LoadRRW, w, a, b, 0);
    ReadsRegister(m, a);
    ReadsRegister(m, b);
  }

  /** The same for the first operand. */
  lemma NoTargetFails(m: State, w: Word, a: Byte)
    requires Operands(w, a, 0, 0) && !Known(m, a) && m.panic == ErrOk
    ensures Exec(m, Inc, w) == Failed(m, ErrRegister) && Exec(m, Dec, w) == Failed(m, ErrRegister)
    ensures Exec(m, CallR, w) == Failed(m, ErrRegister) && Exec(m, Cmp(Imm), w) == Failed(m, ErrRegister)
  {
    hide Exec, ExecStack, ExecMemory, Operands, RegGet, RegSet, Fetch, Fetched;
    Dispatched(m, Inc, w, a, 0, 0);
    Dispatched(m, Dec, w, a, 0, 0);
    Dispatched(m, CallR, w, a, 0, 0);
    Dispatched(m, Cmp(Imm), w, a, 0, 0);
    ReadsRegister(m, a);
  }

  /** Arithmetic, MOV and STOR with a constant have fetched it by then, unlike CMP. */
  lemma NoTargetBehindConstant(m: State, f: AluFn, w: Word, a: Byte, imm: Word)
    requires Operands(w, a, 0, 0) && !Known(m, a) && Follows(m, imm)
    ensures Exec(m, Alu(f, Imm), w) == Failed(Past(m), ErrRegister)
    ensures Exec(m, Mov(Imm), w) == Failed(Past(m), ErrRegister)
    ensures Exec(m, Stor(Imm), w) == Failed(Past(m), ErrRegister)
  {
    hide Exec, ExecStack, ExecControl, Operands, RegGet, RegSet, Fetch, Fetched;
    Dispatched(m, Alu(f, Imm), w, a, 0, 0);
    Dispatched(m, Mov(Imm), w, a, 0, 0);
    Dispatched(m, Stor(Imm), w, a, 0, 0);
    Fetches(m, imm);
    ReadsRegister(Past(m), a);
    SetsRegister(Past(m), a, imm);
  }

  /** A word that cannot be fetched, and a word whose first byte is no code, stop the machine with
      pc behind it. */
  lemma FetchFails(m: State)
    requires m.panic == ErrOk
    ensures m.pc !in m.mem.cells ==> Cycle(m) == Failed(Past(m), ErrRead)
    ensures m.pc in m.mem.cells && Decode(m.mem.cells[m.pc] / 0x100_0000).None? ==>
              Cycle(m) == Failed(Past(m), ErrOpcode)
  {
    hide Decode, Exec;
    WrapIs(m.pc + 4);
  }

  lemma FetchMisses(m: State)
    requires m.panic == ErrOk && m.pc !in m.mem.cells
    ensures Fetch(m) == Failed(Past(m), ErrRead)
  {
    WrapIs(m.pc + 4);
  }

  /** An operation whose constant or target cannot be fetched fails behind it; a conditional jump that
      is not taken does not look at its target. */
  lemma TargetMissing(m: State, w: Word, kind: AddressKind)
    requires m.panic == ErrOk && m.pc !in m.mem.cells
    ensures Exec(m, Jump(Always, kind), w) == Failed(Past(m), ErrRead)
    ensures Exec(m, Jump(IfZero, kind), w) == if m.zero then Failed(Past(m), ErrRead) else Past(m)
    ensures Exec(m, Call(kind), w) == Failed(Past(m), ErrRead)
  {
    hide Exec, ExecStack, ExecRegister, ExecMemory, Fetch;
    var (a, b, c) := (w / 0x1_0000 % 0x100, w / 0x100 % 0x100, w % 0x100);
    FetchMisses(m);
    WrapIs(m.pc + 4);
    Dispatched(m, Jump(Always, kind), w, a, b, c);
    Dispatched(m, Jump(IfZero, kind), w, a, b, c);
    Dispatched(m, Call(kind), w, a, b, c);
  }

  lemma ConstantMissing(m: State, w: Word, f: AluFn)
    requires m.panic == ErrOk && m.pc !in m.mem.cells
    ensures Exec(m, Mov(Imm), w) == Failed(Past(m), ErrRead) && Exec(m, LoadRW, w) == Failed(Past(m), ErrRead)
    ensures Exec(m, Alu(f, Imm), w) == Failed(Past(m), ErrRead) && Exec(m, Stor(Imm), w) == Failed(Past(m), ErrRead)
    ensures Exec(m, PushW, w) == Failed(Past(m), ErrRead)
  {
    hide Exec, ExecStack, ExecControl, RegGet, RegSet, Fetch;
    var (a, b, c) := (w / 0x1_0000 % 0x100, w / 0x100 % 0x100, w % 0x100);
    FetchMisses(m);
    Dispatched(m, PushW, w, a, b, c);
    Dispatched(m, Mov(Imm), w, a, b, c);
    Dispatched(m, LoadRW, w, a, b, c);
    Dispatched(m, Alu(f, Imm), w, a, b, c);
    Dispatched(m, Stor(Imm), w, a, b, c);
  }
}
