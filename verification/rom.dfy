/** The interrupt dispatcher of the ROM: from interrupt entry to the handler and back. */
module Rom {
  import opened Words
  import opened Isa
  import opened Arch
  import opened FlatMemory
  import opened Interrupts
  import opened Machine
  import opened OpenRuns
  import opened Assembler
  import opened Symbolic
  import opened Simulation
  import opened Execution
  import opened Footprint

  const COMPUTE := "compute_interrupt_handler_address"
  const SKIP := "skip_int_dispatch"

  const ROM: seq<Node> := [
    Base(ROM_ADDRESS),
    Ins(IA(Jump(Always, Absolute), SKIP, Absolute)),
    Ins(IR(PushR, "r0")),
    Ins(IA(Call(Absolute), COMPUTE, Absolute)),
    Ins(IR(CallR, "r0")),
    Ins(IR(PopR, "r0")),
    Ins(I(Iret)),
    Label(COMPUTE),
    Ins(IRR(Mov(Reg), "r0", "ir")),
    Ins(IRW(Alu(Mul, Imm), "r0", 4)),
    Ins(IRR(Alu(Add, Reg), "r0", "idt")),
    Ins(IRR(LoadRR, "r0", "r0")),
    Ins(I(Ret)),
    Label(SKIP)
  ]

  const LABELS: Labels := map[COMPUTE := 32, SKIP := 56]

  const DISPATCHER := Program(ROM, LABELS, ROM_ADDRESS)

  lemma Length4(k: nat)
    requires k < |ROM| && ROM[k].Ins? && !HasImmediate(ROM[k].i.op)
    ensures Offset(ROM, k + 1) == Offset(ROM, k) + 4
  {
    hide Length;
    LengthIsWords(ROM[k].i.op);
  }

  lemma Length8(k: nat)
    requires k < |ROM| && ROM[k].Ins? && HasImmediate(ROM[k].i.op)
    ensures Offset(ROM, k + 1) == Offset(ROM, k) + 8
  {
    hide Length;
    LengthIsWords(ROM[k].i.op);
  }

  lemma OffsetsToReturn()
    ensures Offset(ROM, 1) == 0 && Offset(ROM, 2) == 8 && Offset(ROM, 3) == 12 && Offset(ROM, 4) == 20
            && Offset(ROM, 5) == 24
  {
    hide Length;
    assert Offset(ROM, 1) == 0;
    Length8(1);
    Length4(2);
    Length8(3);
    Length4(4);
  }

  lemma OffsetsToCompute()
    ensures Offset(ROM, 7) == 32 && Offset(ROM, 8) == 32
  {
    hide Length;
    OffsetsToReturn();
    Length4(5);
    Length4(6);
  }

  lemma OffsetsToEnd()
    ensures Offset(ROM, 13) == 56
  {
    hide Length;
    OffsetsToCompute();
    Length4(8);
    Length8(9);
    Length4(10);
    Length4(11);
    Length4(12);
  }

  lemma RomDefines()
    ensures forall k, l :: 0 <= k < |ROM| ==>
            (DefinesAt(ROM, k, l) <==> (k == 7 && l == COMPUTE) || (k == 13 && l == SKIP))
    ensures COMPUTE != SKIP
  {
    assert |COMPUTE| != |SKIP|;
  }

  lemma {:induction false} RomBase(k: nat)
    requires 1 <= k <= |ROM|
    ensures BaseAt(ROM, k) == ROM_ADDRESS
  {
    if k > 1 {
      assert !ROM[k - 1].Base?;
      RomBase(k - 1);
    }
  }

  lemma KnownNames()
    ensures Known("r0") && Known("ir") && Known("idt")
    ensures RegisterId("r0") == Some(0) && RegisterId("ir") == Some(REG_IR) && RegisterId("idt") == Some(REG_IDT)
  {
  }

  lemma RomInstruction(k: nat)
    requires k < |ROM|
    ensures ROM[k].Ins? ==> Checked(ROM[k].i, LABELS)
  {
    hide Known, RegisterId, Args, SrcArgs;
    KnownNames();
    Declared();
  }

  lemma Declared()
    ensures Args(Jump(Always, Absolute)) == [A] && Args(Call(Absolute)) == [A]
    ensures Args(PushR) == [R] && Args(PopR) == [R] && Args(CallR) == [R] && Args(Ret) == [] && Args(Iret) == []
    ensures Args(Mov(Reg)) == [R, R] && Args(Alu(Add, Reg)) == [R, R] && Args(LoadRR) == [R, R]
            && Args(Alu(Mul, Imm)) == [R, W]
  {
  }

  lemma RomChecked(k: nat)
    requires k < |ROM|
    ensures NodeChecked(DISPATCHER, k)
  {
    hide Checked, BaseAt;
    RomInstruction(k);
    if k > 0 {
      RomBase(k);
    }
  }

  /** The dispatcher's text assembles at the ROM address. */
  lemma RomValid()
    ensures Valid(DISPATCHER)
  {
    hide Offset, NodeChecked, Defines;
    RomLabels();
    forall k | 0 <= k < |ROM| ensures NodeChecked(DISPATCHER, k) {
      RomChecked(k);
    }
    CheckedIsValid(DISPATCHER);
  }

  lemma RomLabels()
    ensures Unique(ROM, |ROM|) && MapsPrefix(ROM, |ROM|, LABELS)
  {
    hide Offset, DefinesAt;
    OffsetsToCompute();
    OffsetsToEnd();
    RomDefines();
    assert DefinesAt(ROM, 7, COMPUTE) && DefinesAt(ROM, 13, SKIP);
  }

  // ---------------------------------------------------------------- the eight instructions

  ghost predicate IsDispatcher(p: Program)
    ensures IsDispatcher(p) ==> Valid(p) && |p.nodes| == 14
  {
    RomValid();
    p == DISPATCHER
  }

  /** ROM contents refuse writes. */
  predicate RomReadOnly(f: Flat) {
    forall a: Word :: ROM_ADDRESS <= a ==> a in f.readOnly
  }

  /** The dispatcher can run: its text is in a read-only ROM and interrupts are off. */
  ghost predicate Dispatching(p: Program, m: State)
    requires IsDispatcher(p)
  {
    Ready(p, m) && RomReadOnly(m.mem) && 32 <= |m.regs| <= 250
  }

  lemma NextIs(p: Program, k: nat)
    requires IsDispatcher(p)
    requires 1 <= k < 13 && k != 6 && k != 12
    ensures Next(p, k) == k + 1
  {
    assert Emits(ROM[k + 1]);
  }

  lemma PushKeepsDispatching(p: Program, m: State, v: Word)
    requires IsDispatcher(p) && Dispatching(p, m) && Writable(m.mem, Wrap(m.sp - 4))
    ensures var a := Wrap(m.sp - 4); PushValue(m, v) == m.(sp := a, mem := Put(m.mem, a, v))
    ensures Dispatching(p, PushValue(m, v))
  {
    hide Loaded, Valid;
    var a := Wrap(m.sp - 4);
    PushOk(m, v);
    assert a < ROM_ADDRESS;
    PutAgrees(m.mem, a, v, 0, ROM_ADDRESS);
    StillLoaded(p, m.mem, Put(m.mem, a, v), 0, ROM_ADDRESS);
  }

  lemma StepPush(p: Program, m: State)
    requires IsDispatcher(p) && Dispatching(p, m)
    ensures SymStep(p, Sym(At(2), m)) == Some(Sym(At(3), PushValue(m, m.regs[0])))
  {
    hide Execute, SymStep, PushValue, Loaded, Valid, Next;
    KnownNames();
    StepIsExecute(p, 2, m);
    DoPush(p, 2, m, "r0", 0);
    NextIs(p, 2);
  }

  lemma StepCall(p: Program, m: State)
    requires IsDispatcher(p) && Dispatching(p, m) && Writable(m.mem, Wrap(m.sp - 4))
    ensures SymStep(p, Sym(At(3), m)) == Some(Sym(At(8), PushValue(m, AddressOf(p, 4))))
  {
    hide Execute, SymStep, SymCall, PushValue, Loaded, AddressOf, Next, Resolvable, MapsPrefix, Encodable, NodeFits,
         DefinesAt, Skip, IsDispatcher;
    ComputeCall(p);
    StepIsExecute(p, 3, m);
    DoCall(p, 3, m, Absolute, COMPUTE, 7);
    NextIs(p, 3);
    SymCallOk(m, AddressOf(p, 4), At(4), At(8));
  }

  lemma ComputeCall(p: Program)
    requires IsDispatcher(p)
    ensures p.nodes[3] == Ins(IA(Call(Absolute), COMPUTE, Absolute)) && DefinesAt(p.nodes, 7, COMPUTE)
            && Skip(p.nodes, 7) == 8
  {
    hide Offset, Valid;
    RomDefines();
  }

  lemma StepMov(p: Program, m: State)
    requires IsDispatcher(p) && Dispatching(p, m)
    ensures SymStep(p, Sym(At(8), m)) == Some(Sym(At(9), WithReg(m, 0, m.ir)))
  {
    hide Execute, SymStep, WithReg, Loaded, Valid, Next;
    KnownNames();
    StepIsExecute(p, 8, m);
    DoMov(p, 8, m, "r0", 0, "ir");
    NextIs(p, 8);
  }

  lemma StepMul(p: Program, m: State)
    requires IsDispatcher(p) && Dispatching(p, m)
    ensures SymStep(p, Sym(At(9), m)) == Some(Sym(At(10), WithReg(m, 0, Wrap(m.regs[0] as int * 4))))
  {
    hide Execute, SymStep, WithReg, Loaded, Valid, Next, Compute;
    KnownNames();
    StepIsExecute(p, 9, m);
    DoAluImm(p, 9, m, Mul, "r0", 0, 4);
    ComputeIsModular(m.regs[0], 4);
    NextIs(p, 9);
  }

  lemma StepAdd(p: Program, m: State)
    requires IsDispatcher(p) && Dispatching(p, m)
    ensures SymStep(p, Sym(At(10), m)) == Some(Sym(At(11), WithReg(m, 0, Wrap(m.regs[0] + m.idt))))
  {
    hide Execute, SymStep, WithReg, Loaded, Valid, Next, Compute;
    KnownNames();
    StepIsExecute(p, 10, m);
    DoAluReg(p, 10, m, Add, "r0", 0, "idt");
    ComputeIsModular(m.regs[0], m.idt);
    NextIs(p, 10);
  }

  lemma StepLoad(p: Program, m: State)
    requires IsDispatcher(p) && Dispatching(p, m) && Readable(m.mem, m.regs[0])
    ensures SymStep(p, Sym(At(11), m)) == Some(Sym(At(12), WithReg(m, 0, m.mem.cells[m.regs[0]])))
  {
    hide Execute, SymStep, WithReg, Loaded, Valid, Next;
    KnownNames();
    StepIsExecute(p, 11, m);
    DoLoad(p, 11, m, "r0", 0);
    NextIs(p, 11);
  }

  lemma StepRet(p: Program, m: State)
    requires IsDispatcher(p) && Dispatching(p, m) && Readable(m.mem, m.sp) && m.mem.cells[m.sp] == AddressOf(p, 4)
    ensures SymStep(p, Sym(At(12), m)) == Some(Sym(At(4), m.(sp := Wrap(m.sp + 4))))
  {
    hide Execute, SymStep, Loaded, AddressOf, Where;
    StepIsExecute(p, 12, m);
    DoRet(p, 12, m);
    WhereIs(p, 4);
  }

  lemma StepCallHandler(p: Program, m: State)
    requires IsDispatcher(p) && Dispatching(p, m) && Writable(m.mem, Wrap(m.sp - 4))
    ensures SymStep(p, Sym(At(4), m))
            == Some(Sym(Where(p, m.regs[0]), PushValue(m, AddressOf(p, 5))))
  {
    hide Execute, SymStep, SymCall, Loaded, AddressOf, Where, PushValue, Next, Resolvable, MapsPrefix, Encodable,
         NodeFits;
    KnownNames();
    StepIsExecute(p, 4, m);
    DoCallR(p, 4, m, "r0", 0);
    NextIs(p, 4);
    SymCallOk(m, AddressOf(p, 5), At(5), Where(p, m.regs[0]));
  }

  lemma StepPop(p: Program, m: State)
    requires IsDispatcher(p) && Dispatching(p, m) && Readable(m.mem, m.sp)
    ensures SymStep(p, Sym(At(5), m)) == Some(Sym(At(6), WithReg(m.(sp := Wrap(m.sp + 4)), 0, m.mem.cells[m.sp])))
  {
    hide Execute, SymStep, WithReg, Loaded, Valid, Next;
    KnownNames();
    StepIsExecute(p, 5, m);
    DoPop(p, 5, m, "r0", 0);
    NextIs(p, 5);
  }

  lemma StepIret(p: Program, m: State)
    requires IsDispatcher(p) && Dispatching(p, m) && Readable(m.mem, m.sp)
    ensures SymStep(p, Sym(At(6), m))
            == Some(Sym(Where(p, m.mem.cells[m.sp]), m.(sp := Wrap(m.sp + 4), enabled := true)))
  {
    hide Execute, SymStep, Loaded, Where, Valid;
    StepIsExecute(p, 6, m);
    DoIret(p, 6, m);
  }

  // ---------------------------------------------------------------- from interrupt to handler

  /** The address of the handler pointer of interrupt i. */
  function VectorOf(m: State, i: Byte): Word {
    Wrap(Wrap(i * 4) + m.idt)
  }

  /** Three writable words below sp, and a handler pointer. */
  predicate StackRoom(m: State, i: Byte) {
    && Writable(m.mem, Wrap(m.sp - 4)) && Writable(m.mem, Wrap(m.sp - 8)) && Writable(m.mem, Wrap(m.sp - 12))
    && Readable(m.mem, VectorOf(m, i))
  }

  lemma RegKeepsDispatching(p: Program, m: State, v: Word)
    requires IsDispatcher(p) && Dispatching(p, m)
    ensures Dispatching(p, WithReg(m, 0, v))
    ensures WithReg(m, 0, v).mem == m.mem && WithReg(m, 0, v).regs[0] == v
    ensures WithReg(m, 0, v).sp == m.sp && WithReg(m, 0, v).idt == m.idt && WithReg(m, 0, v).ir == m.ir
  {
    hide Loaded, Valid, Signed;
  }

  lemma WithRegTwice(m: State, v: Word, w: Word)
    requires |m.regs| > 0
    ensures WithReg(WithReg(m, 0, v), 0, w) == WithReg(m, 0, w)
  {
    hide Signed;
    assert m.regs[0 := v][0 := w] == m.regs[0 := w];
  }

  lemma SpKeepsDispatching(p: Program, m: State, sp: Word)
    requires IsDispatcher(p) && Dispatching(p, m)
    ensures Dispatching(p, m.(sp := sp))
  {
    hide Loaded, Valid;
  }

  /** compute_interrupt_handler_address: five instructions load the handler pointer into r0. */
  lemma ComputeRun(p: Program, m: State)
    requires IsDispatcher(p) && Dispatching(p, m) && m.ir < 256 && |m.regs| > 0
    requires Readable(m.mem, VectorOf(m, m.ir)) && Readable(m.mem, m.sp) && m.mem.cells[m.sp] == AddressOf(p, 4)
    ensures QuietRun(p, Sym(At(8), m), 5)
            == Some(Sym(At(4), WithReg(m, 0, m.mem.cells[VectorOf(m, m.ir)]).(sp := Wrap(m.sp + 4))))
  {
    hide SymStep, QuietRun, Loaded, Valid, WithReg, Dispatching, IsDispatcher;
    var s := Sym(At(8), m);
    RunNone(p, s);
    var a := WithReg(m, 0, m.ir);
    RegKeepsDispatching(p, m, m.ir);
    StepMov(p, m);
    RunOneMore(p, s, 0, s);
    var b := WithReg(m, 0, Wrap(m.ir * 4));
    RegKeepsDispatching(p, m, Wrap(m.ir * 4));
    WithRegTwice(m, m.ir, Wrap(m.ir * 4));
    StepMul(p, a);
    RunOneMore(p, s, 1, Sym(At(9), a));
    var c := WithReg(m, 0, VectorOf(m, m.ir));
    RegKeepsDispatching(p, m, VectorOf(m, m.ir));
    WithRegTwice(m, Wrap(m.ir * 4), VectorOf(m, m.ir));
    StepAdd(p, b);
    RunOneMore(p, s, 2, Sym(At(10), b));
    var d := WithReg(m, 0, m.mem.cells[VectorOf(m, m.ir)]);
    RegKeepsDispatching(p, m, m.mem.cells[VectorOf(m, m.ir)]);
    WithRegTwice(m, VectorOf(m, m.ir), m.mem.cells[VectorOf(m, m.ir)]);
    StepLoad(p, c);
    RunOneMore(p, s, 3, Sym(At(11), c));
    StepRet(p, d);
    RunOneMore(p, s, 4, Sym(At(12), d));
  }

  lemma RunNone(p: Program, s: Sym)
    requires IsDispatcher(p)
    ensures QuietRun(p, s, 0) == Some(s)
  {
  }

  lemma RunOneMore(p: Program, s: Sym, n: nat, t: Sym)
    requires IsDispatcher(p) && QuietRun(p, s, n) == Some(t) && Dispatching(p, t.m) && SymStep(p, t).Some?
    ensures QuietRun(p, s, n + 1) == SymStep(p, t)
  {
    hide SymStep, QuietRun, Valid;
    ReachesStep(p, s, t, n) by {
      assert Reaches(p, s, t, n);
    }
    assert Reaches(p, s, SymStep(p, t).value, n + 1);
  }

  /** After the first two instructions: r0 and the way back from the computation are saved. */
  function Entered(m: State, back: Word): State
    requires |m.regs| > 0
  {
    var f := Put(m.mem, Wrap(m.sp - 4), m.regs[0]);
    m.(sp := Wrap(m.sp - 8), mem := Put(f, Wrap(m.sp - 8), back))
  }

  lemma SaveRun(p: Program, m: State)
    requires IsDispatcher(p) && Dispatching(p, m) && |m.regs| > 0
    requires Writable(m.mem, Wrap(m.sp - 4)) && Writable(m.mem, Wrap(m.sp - 8))
    ensures QuietRun(p, Sym(At(2), m), 2) == Some(Sym(At(8), Entered(m, AddressOf(p, 4))))
    ensures Dispatching(p, Entered(m, AddressOf(p, 4)))
  {
    hide SymStep, QuietRun, Loaded, Dispatching, IsDispatcher, AddressOf, PushValue, Resolvable, MapsPrefix, Encodable,
         NodeFits;
    var s := Sym(At(2), m);
    RunNone(p, s);
    StepPush(p, m);
    PushKeepsDispatching(p, m, m.regs[0]);
    RunOneMore(p, s, 0, s);
    var a := PushValue(m, m.regs[0]);
    StepCall(p, a);
    PushKeepsDispatching(p, a, AddressOf(p, 4));
    RunOneMore(p, s, 1, Sym(At(3), a));
    assert Wrap(Wrap(m.sp - 4) - 4) == Wrap(m.sp - 8);
  }

  /** The state in which the dispatcher hands over to the handler at h. */
  function Handed(m: State, h: Word, back: Word): State
    requires |m.regs| > 0
  {
    WithReg(Entered(m, back), 0, h)
  }

  /** The second return address overwrites the first one. */
  lemma HandOver(m: State, h: Word, back: Word, back5: Word)
    requires |m.regs| > 0
    ensures var c := Computed(m, h, back);
            c.(sp := Wrap(m.sp - 8), mem := Put(c.mem, Wrap(m.sp - 8), back5)) == Handed(m, h, back5)
  {
    hide Signed;
    var cells: map<Word, Word> := m.mem.cells[Wrap(m.sp - 4) := m.regs[0]];
    assert cells[Wrap(m.sp - 8) := back][Wrap(m.sp - 8) := back5] == cells[Wrap(m.sp - 8) := back5];
  }

  lemma EnteredCells(m: State, back: Word)
    requires |m.regs| > 0 && Writable(m.mem, Wrap(m.sp - 4)) && Writable(m.mem, Wrap(m.sp - 8))
    ensures var s := Entered(m, back);
      && s.mem.cells[Wrap(m.sp - 8)] == back
      && s.mem.readOnly == m.mem.readOnly
      && Wrap(s.sp + 4) == Wrap(m.sp - 4)
      && (forall a :: Readable(m.mem, a) ==> Readable(s.mem, a))
      && (forall a :: Readable(m.mem, a) && a != Wrap(m.sp - 4) && a != Wrap(m.sp - 8) ==>
          s.mem.cells[a] == m.mem.cells[a])
  {
  }

  /** Room for two words below sp, and a handler pointer. */
  predicate DispatchRoom(m: State, i: Byte) {
    Writable(m.mem, Wrap(m.sp - 4)) && Writable(m.mem, Wrap(m.sp - 8)) && Readable(m.mem, VectorOf(m, i))
  }

  /** The word the computation finds for interrupt ir once r0 and the way back are saved. */
  function Looked(m: State, back: Word): Word
    requires |m.regs| > 0 && m.ir < 256 && DispatchRoom(m, m.ir)
  {
    Entered(m, back).mem.cells[VectorOf(m, m.ir)]
  }

  /** The handler address is in r0 and the computation has returned. */
  function Computed(m: State, h: Word, back: Word): State
    requires |m.regs| > 0
  {
    WithReg(Entered(m, back), 0, h).(sp := Wrap(m.sp - 4))
  }

  lemma ComputedRun(p: Program, m: State)
    requires IsDispatcher(p) && Dispatching(p, m) && m.ir < 256 && |m.regs| > 0 && DispatchRoom(m, m.ir)
    ensures var c := Computed(m, Looked(m, AddressOf(p, 4)), AddressOf(p, 4));
      QuietRun(p, Sym(At(2), m), 7) == Some(Sym(At(4), c)) && Dispatching(p, c)
  {
    hide SymStep, QuietRun, Loaded, WithReg, Dispatching, IsDispatcher, AddressOf, Entered, Resolvable, MapsPrefix,
         Encodable, NodeFits;
    var b := Entered(m, AddressOf(p, 4));
    var h := Looked(m, AddressOf(p, 4));
    SaveRun(p, m);
    EnteredCells(m, AddressOf(p, 4));
    EnteredFields(m, AddressOf(p, 4));
    ComputeRun(p, b);
    RunSeven(p, Sym(At(2), m), Sym(At(8), b));
    RegKeepsDispatching(p, b, h);
    SpKeepsDispatching(p, WithReg(b, 0, h), Wrap(b.sp + 4));
  }

  lemma RunSeven(p: Program, s: Sym, t: Sym)
    requires IsDispatcher(p) && QuietRun(p, s, 2) == Some(t) && QuietRun(p, t, 5).Some?
    ensures QuietRun(p, s, 7) == QuietRun(p, t, 5)
  {
    hide QuietRun, Valid;
    var u := QuietRun(p, t, 5).value;
    ReachesTransitive(p, s, t, u, 2, 5) by {
      assert Reaches(p, s, t, 2) && Reaches(p, t, u, 5);
    }
    assert Reaches(p, s, u, 7);
  }

  /** The dispatcher's eight instructions, from its entry to the handler. */
  lemma DispatchRun(p: Program, m: State)
    requires IsDispatcher(p) && Dispatching(p, m) && m.ir < 256 && |m.regs| > 0 && DispatchRoom(m, m.ir)
    ensures var h := Looked(m, AddressOf(p, 4));
      QuietRun(p, Sym(At(2), m), 8) == Some(Sym(Where(p, h), Handed(m, h, AddressOf(p, 5))))
  {
    hide SymStep, QuietRun, Loaded, Where, Dispatching, IsDispatcher, AddressOf, PushValue, Computed, Handed, Looked,
         VectorOf, Put, Resolvable, MapsPrefix, Encodable, NodeFits;
    var h := Looked(m, AddressOf(p, 4));
    var c := Computed(m, h, AddressOf(p, 4));
    ComputedRun(p, m);
    ComputedFields(m, h, AddressOf(p, 4));
    StepCallHandler(p, c);
    PushKeepsDispatching(p, c, AddressOf(p, 5));
    RunOneMore(p, Sym(At(2), m), 7, Sym(At(4), c));
    HandOver(m, h, AddressOf(p, 4), AddressOf(p, 5));
  }

  lemma ComputedFields(m: State, h: Word, back: Word)
    requires |m.regs| > 0 && Writable(m.mem, Wrap(m.sp - 8))
    ensures var c := Computed(m, h, back);
      c.regs[0] == h && |c.regs| == |m.regs| && Wrap(c.sp - 4) == Wrap(m.sp - 8) && Writable(c.mem, Wrap(m.sp - 8))
  {
    hide Signed;
  }

  lemma EnteredFields(m: State, back: Word)
    requires |m.regs| > 0
    ensures var s := Entered(m, back); s.sp == Wrap(m.sp - 8) && s.regs == m.regs && s.idt == m.idt && s.ir == m.ir
  {
  }

  // ---------------------------------------------------------------- interrupt entry and return

  /** The ROM holds the dispatcher and refuses writes. */
  ghost predicate RomInstalled(f: Flat) {
    RomValid();
    Loaded(DISPATCHER, f) && RomReadOnly(f)
  }

  /** Memory when the handler pointer is loaded: pc, r0 and the way back into the dispatcher
      are on the stack. */
  function SavedMemory(m: State, back: Word): Flat
    requires |m.regs| > 0
  {
    Put(Put(Put(m.mem, Wrap(m.sp - 4), m.pc), Wrap(m.sp - 8), m.regs[0]), Wrap(m.sp - 12), back)
  }

  /** The handler of interrupt i: the word at idt + 4 * i when the dispatcher comes to load it. */
  function HandlerOf(m: State, i: Byte): Word
    requires |m.regs| > 0 && StackRoom(m, i)
  {
    SavedMemory(m, ROM_ADDRESS + 20).cells[VectorOf(m, i)]
  }

  /** Unless the descriptor table is on the stack, that is the word found there before. */
  lemma HandlerIsEntry(m: State, i: Byte)
    requires |m.regs| > 0 && StackRoom(m, i)
    requires VectorOf(m, i) !in {Wrap(m.sp - 4), Wrap(m.sp - 8), Wrap(m.sp - 12)}
    ensures HandlerOf(m, i) == m.mem.cells[VectorOf(m, i)]
  {
    hide Wrap, VectorOf;
  }

  /** The machine when the handler of interrupt i starts, but for what else is pending by then:
      control is at the handler, interrupts are off. */
  function EntryState(m: State, i: Byte): State
    requires |m.regs| > 0 && StackRoom(m, i)
  {
    var h := HandlerOf(m, i);
    WithReg(m, 0, h).(pc := h, sp := Wrap(m.sp - 12), ir := i, enabled := false,
        mem := SavedMemory(m, ROM_ADDRESS + 24))
  }

  /** The state after the interrupt is taken and before the dispatcher's first instruction. */
  function Interrupting(m: State, i: Byte, pending: Bank): State {
    m.(enabled := false, ir := i, pending := pending, sp := Wrap(m.sp - 4), mem := Put(m.mem, Wrap(m.sp - 4), m.pc))
  }

  lemma TakenState(p: Program, m: State, i: Byte)
    requires IsDispatcher(p) && Live(m) && Interrupted(m) && i == First(m.pending, Masks(m.mem))
    requires RomInstalled(m.mem) && 32 <= |m.regs| <= 250 && Writable(m.mem, Wrap(m.sp - 4))
    ensures var d := Interrupting(m, i, ClearBit(m.pending, i));
            TakeInterrupt(m) == d.(pc := ROM_ADDRESS + 8) && Dispatching(p, d)
  {
    hide Loaded, Masks, First, ClearBit, Active, Valid;
    var d0 := m.(enabled := false, ir := i, pending := ClearBit(m.pending, i));
    assert Dispatching(p, d0);
    PushKeepsDispatching(p, d0, m.pc);
  }

  lemma EntryPoints(p: Program)
    requires IsDispatcher(p)
    ensures AddressOf(p, 2) == ROM_ADDRESS + 8 && AddressOf(p, 4) == ROM_ADDRESS + 20
    ensures AddressOf(p, 5) == ROM_ADDRESS + 24 && Place(p, 2) && Place(p, 5)
  {
    OffsetsToReturn();
  }

  /** A turn that takes an interrupt goes on as a turn from the dispatcher's entry. */
  lemma FirstTurn(m: State, schedule: Schedule)
    requires schedule != [] && Live(m) && Interrupted(Arrive(m, schedule[0]))
    requires Live(TakeInterrupt(Arrive(m, schedule[0]))) && !TakeInterrupt(Arrive(m, schedule[0])).enabled
    ensures OpenRun(m, schedule) == OpenRun(TakeInterrupt(Arrive(m, schedule[0])), [[]] + schedule[1..])
  {
    hide Cycle, TakeInterrupt, Active, Masks;
    var t := TakeInterrupt(Arrive(m, schedule[0]));
    var rest := [[]] + schedule[1..];
    assert rest[1..] == schedule[1..] && rest[0] == [];
    assert Arrive(t, []) == t;
    assert Turn(m, schedule[0]) == Cycle(t) && Turn(t, rest[0]) == Cycle(t);
  }

  /** The machine dispatches, whatever is triggered meanwhile. */
  lemma Dispatches(p: Program, d: State, schedule: Schedule)
    requires IsDispatcher(p) && Dispatching(p, d) && d.ir < 256 && DispatchRoom(d, d.ir) && |schedule| == 8
    ensures var h, e := Looked(d, ROM_ADDRESS + 20), OpenRun(d.(pc := ROM_ADDRESS + 8), schedule);
      e == Handed(d, h, ROM_ADDRESS + 24).(pc := h, pending := e.pending)
  {
    hide IsDispatcher, QuietRun, OpenRun, Where, WithReg, AddressOf, VectorOf, DispatchRoom, Put, Handed, Looked,
         Ready, Resolvable, MapsPrefix, Encodable, AllWellShaped, NodeFits;
    EntryPoints(p);
    DispatchRun(p, d);
    QuietSimulates(p, Sym(At(2), d), d.(pc := ROM_ADDRESS + 8), schedule);
    WherePc(p, Looked(d, ROM_ADDRESS + 20));
  }

  lemma Takes(p: Program, m: State, i: Byte, schedule: Schedule) returns (d: State)
    requires IsDispatcher(p) && schedule != [] && Live(m) && TakenIn(m, schedule[0]) == Some(i)
    requires RomInstalled(m.mem) && 32 <= |m.regs| <= 250 && Writable(m.mem, Wrap(m.sp - 4))
    ensures d == Interrupting(m, i, d.pending) && Dispatching(p, d)
    ensures OpenRun(m, schedule) == OpenRun(d.(pc := ROM_ADDRESS + 8), [[]] + schedule[1..])
  {
    hide IsDispatcher, RomInstalled, Masks, First, ClearBit, Active, TakeInterrupt, OpenRun, Loaded, SetAll, Valid;
    var m1 := Arrive(m, schedule[0]);
    TakenState(p, m1, i);
    d := Interrupting(m, i, ClearBit(m1.pending, i));
    assert TakeInterrupt(m1) == d.(pc := ROM_ADDRESS + 8);
    FirstTurn(m, schedule);
  }

  lemma EntersThrough(p: Program, m: State, i: Byte, schedule: Schedule)
    requires IsDispatcher(p) && |schedule| == 8 && Live(m) && TakenIn(m, schedule[0]) == Some(i)
    requires RomInstalled(m.mem) && 32 <= |m.regs| <= 250 && StackRoom(m, i)
    ensures var e := OpenRun(m, schedule); e == EntryState(m, i).(pending := e.pending)
  {
    hide IsDispatcher, RomInstalled, OpenRun, Dispatching, VectorOf, DispatchRoom, Put, Handed, EntryState, HandlerOf,
         Looked, TakenIn, Valid;
    var d := Takes(p, m, i, schedule);
    RoomBelow(m, d, i);
    Dispatches(p, d, [[]] + schedule[1..]);
    HandedIsEntry(m, d, i);
  }

  lemma RoomBelow(m: State, d: State, i: Byte)
    requires 32 <= |m.regs| && StackRoom(m, i) && d == Interrupting(m, i, d.pending)
    ensures DispatchRoom(d, i) && Looked(d, ROM_ADDRESS + 20) == HandlerOf(m, i)
  {
    hide Wrap;
    WrapTwice(m.sp);
    assert VectorOf(d, i) == VectorOf(m, i);
    assert Entered(d, ROM_ADDRESS + 20).mem == SavedMemory(m, ROM_ADDRESS + 20);
  }

  /** An interrupt reaches its handler in exactly eight turns, whatever else is triggered in the
      meantime: with three writable words below sp, the dispatcher in ROM jumps to the address
      it finds at idt + 4 * i. */
  lemma EntersHandler(m: State, i: Byte, schedule: Schedule)
    requires |schedule| == 8 && Live(m) && TakenIn(m, schedule[0]) == Some(i)
    requires RomInstalled(m.mem) && 32 <= |m.regs| <= 250 && StackRoom(m, i)
    ensures var e := OpenRun(m, schedule); e == EntryState(m, i).(pending := e.pending)
  {
    hide RomInstalled, OpenRun, EntryState, Valid, TakenIn;
    RomValid();
    assert IsDispatcher(DISPATCHER);
    EntersThrough(DISPATCHER, m, i, schedule);
  }

  lemma HandedIsEntry(m: State, d: State, i: Byte)
    requires |m.regs| > 0 && StackRoom(m, i) && d == Interrupting(m, i, d.pending)
    ensures var h := HandlerOf(m, i);
      Handed(d, h, ROM_ADDRESS + 24).(pc := h) == EntryState(m, i).(pending := d.pending)
  {
    hide SetFlags, Put, VectorOf, Wrap, HandlerOf;
    WrapTwice(m.sp);
    FlagsCommute(Entered(d, ROM_ADDRESS + 24), m, HandlerOf(m, i));
  }

  lemma WrapTwice(sp: Word)
    ensures Wrap(Wrap(sp - 4) - 4) == Wrap(sp - 8) && Wrap(Wrap(sp - 4) - 8) == Wrap(sp - 12)
  {
  }

  lemma FlagsCommute(d: State, m: State, h: Word)
    requires d.regs == m.regs && |m.regs| > 0
    ensures WithReg(d, 0, h).zero == WithReg(m, 0, h).zero && WithReg(d, 0, h).negative == WithReg(m, 0, h).negative
    ensures WithReg(d, 0, h)
            == d.(regs := d.regs[0 := h], zero := WithReg(d, 0, h).zero, negative := WithReg(d, 0, h).negative)
    ensures WithReg(m, 0, h)
            == m.(regs := m.regs[0 := h], zero := WithReg(m, 0, h).zero, negative := WithReg(m, 0, h).negative)
  {
  }

  /** The handler came back as it must: to the dispatcher, with sp, the saved words and every
      register but r0 kept, and with interrupts left off. */
  ghost predicate Balanced(m: State, g: State) {
    && Live(g) && !g.enabled
    && g.pc == ROM_ADDRESS + 24 && g.sp == Wrap(m.sp - 8)
    && |g.regs| == |m.regs| && 32 <= |m.regs| <= 250
    && (forall r :: 1 <= r < |m.regs| ==> g.regs[r] == m.regs[r])
    && g.bp == m.bp && g.cs == m.cs && g.idt == m.idt
    && Readable(g.mem, Wrap(m.sp - 8)) && g.mem.cells[Wrap(m.sp - 8)] == m.regs[0]
    && Readable(g.mem, Wrap(m.sp - 4)) && g.mem.cells[Wrap(m.sp - 4)] == m.pc
  }

  /** What the dispatcher makes of g, the flags and pending bits apart. */
  function Restored(m: State, g: State): State {
    SetFlags(g.(regs := m.regs, sp := m.sp, pc := m.pc, enabled := true), if m.regs == [] then 0 else m.regs[0])
  }

  lemma ReturnsThrough(p: Program, m: State, g: State, schedule: Schedule)
    requires IsDispatcher(p) && Dispatching(p, g) && Balanced(m, g) && |schedule| == 2
    ensures var e := OpenRun(g, schedule); e == Restored(m, g).(pending := e.pending)
  {
    hide QuietRun, OpenRun, Where, AddressOf, WithReg, IsDispatcher, Ready, Resolvable, MapsPrefix, Encodable,
         AllWellShaped, NodeFits, SetFlags;
    EntryPoints(p);
    SpSteps(m.sp);
    ReturnRun(p, g);
    QuietSimulates(p, Sym(At(5), g), g, schedule);
    WherePc(p, m.pc);
    ReturnState(m, g);
  }

  lemma SpSteps(sp: Word)
    ensures Wrap(Wrap(sp - 8) + 4) == Wrap(sp - 4) && Wrap(Wrap(sp - 8) + 8) == sp
  {
  }

  /** The last two instructions of the dispatcher undo the interrupt: pc, sp and all general
      registers are what they were, and interrupts are on again. */
  lemma ReturnsFromHandler(m: State, g: State, schedule: Schedule)
    requires Balanced(m, g) && RomInstalled(g.mem) && |schedule| == 2
    ensures var e := OpenRun(g, schedule); e == Restored(m, g).(pending := e.pending)
  {
    hide Loaded, OpenRun, Restored, Valid;
    RomValid();
    assert IsDispatcher(DISPATCHER);
    assert Dispatching(DISPATCHER, g);
    ReturnsThrough(DISPATCHER, m, g, schedule);
  }

  lemma ReturnState(m: State, g: State)
    requires Balanced(m, g)
    ensures WithReg(g.(sp := Wrap(m.sp - 4)), 0, m.regs[0]).(sp := m.sp, pc := m.pc, enabled := true)
         == Restored(m, g)
  {
    hide RomInstalled, Signed;
    assert g.regs[0 := m.regs[0]] == m.regs;
  }

  lemma ReturnRun(p: Program, g: State)
    requires IsDispatcher(p) && Dispatching(p, g) && |g.regs| > 0
    requires Readable(g.mem, g.sp) && Readable(g.mem, Wrap(g.sp + 4))
    ensures QuietRun(p, Sym(At(5), g), 2)
         == Some(Sym(Where(p, g.mem.cells[Wrap(g.sp + 4)]),
                     WithReg(g.(sp := Wrap(g.sp + 4)), 0, g.mem.cells[g.sp]).(sp := Wrap(g.sp + 8), enabled := true)))
  {
    hide SymStep, QuietRun, Dispatching, IsDispatcher, WithReg, Where, Valid;
    var s := Sym(At(5), g);
    RunNone(p, s);
    StepPop(p, g);
    RunOneMore(p, s, 0, s);
    SpKeepsDispatching(p, g, Wrap(g.sp + 4));
    RegKeepsDispatching(p, g.(sp := Wrap(g.sp + 4)), g.mem.cells[g.sp]);
    var g1 := WithReg(g.(sp := Wrap(g.sp + 4)), 0, g.mem.cells[g.sp]);
    StepIret(p, g1);
    RunOneMore(p, s, 1, Sym(At(6), g1));
  }

  lemma RomWordStays(p: Program, f: Flat, g: Flat, k: nat)
    requires IsDispatcher(p) && Loaded(p, f) && k < |p.nodes|
    requires SameShape(f, g) && RomReadOnly(f) && forall a :: a in f.cells && a in f.readOnly ==>
            g.cells[a] == f.cells[a]
    ensures NodeLoaded(p, g, k)
  {
    hide ImmediateOf, FirstWord, Resolvable, MapsPrefix, Encodable, NodeFits;
    assert NodeLoaded(p, f, k);
    if p.nodes[k].Ins? {
      NoWrap(p, k);
    }
  }

  /** Whatever runs, and whatever the devices trigger, the dispatcher stays in the ROM. */
  lemma RomStays(m: State, schedule: Schedule)
    requires RomInstalled(m.mem) && MaskMapped(m.mem)
    ensures RomInstalled(OpenRun(m, schedule).mem)
  {
    hide NodeLoaded, OpenRun, Valid;
    RomValid();
    var g := OpenRun(m, schedule).mem;
    RunKeepsReadOnly(m, schedule);
    forall k | 0 <= k < |DISPATCHER.nodes| ensures NodeLoaded(DISPATCHER, g, k) {
      RomWordStays(DISPATCHER, m.mem, g, k);
    }
  }

  /** The flags are those of v. */
  predicate FlagsSay(m: State, v: Word) {
    m.zero == (v == 0) && m.negative == (Signed(v) < 0)
  }

  /** The whole interrupt: entry, any handler that comes back balanced after n turns, and return,
      with devices triggering whatever they like all along. The interrupted program finds its
      pc, sp and registers unchanged. Its flags describe r0, whatever they said before: they are
      unchanged exactly when that is what they said. */
  lemma InterruptRoundTrip(m: State, i: Byte, schedule: Schedule, n: nat)
    requires |schedule| == 8 + n + 2 && Live(m) && TakenIn(m, schedule[0]) == Some(i)
    requires RomInstalled(m.mem) && MaskMapped(m.mem) && 32 <= |m.regs| <= 250 && StackRoom(m, i)
    requires Balanced(m, OpenRun(OpenRun(m, schedule[..8]), schedule[8..8 + n]))
    ensures var h := OpenRun(m, schedule[..8]); h == EntryState(m, i).(pending := h.pending)
    ensures var e := OpenRun(m, schedule);
      && e.regs == m.regs && e.sp == m.sp && e.pc == m.pc && e.bp == m.bp && e.cs == m.cs && e.idt == m.idt
      && e.enabled && Live(e)
    ensures var e := OpenRun(m, schedule);
      && FlagsSay(e, m.regs[0])
      && (e.zero == m.zero && e.negative == m.negative <==> FlagsSay(m, m.regs[0]))
    ensures OpenRun(m, schedule).ir == OpenRun(OpenRun(m, schedule[..8]), schedule[8..8 + n]).ir
  {
    hide Loaded, OpenRun, Balanced, RomInstalled, MaskMapped, EntryState, TakenIn, SetFlags;
    var h := OpenRun(m, schedule[..8]);
    var g := OpenRun(h, schedule[8..8 + n]);
    assert schedule[..8][0] == schedule[0];
    EntersHandler(m, i, schedule[..8]);
    OpenSplit(m, schedule[..8], schedule[8..8 + n]);
    assert schedule[..8] + schedule[8..8 + n] == schedule[..8 + n];
    OpenSplit(m, schedule[..8 + n], schedule[8 + n..]);
    assert schedule[..8 + n] + schedule[8 + n..] == schedule;
    RomStays(m, schedule[..8 + n]);
    ReturnsFromHandler(m, g, schedule[8 + n..]);
    RestoredFields(m, g);
  }

  lemma RestoredFields(m: State, g: State)
    requires Balanced(m, g)
    ensures var e := Restored(m, g);
      && e.regs == m.regs && e.sp == m.sp && e.pc == m.pc && e.bp == m.bp && e.cs == m.cs && e.idt == m.idt
      && e.enabled && Live(e) && FlagsSay(e, m.regs[0]) && e.ir == g.ir
  {
    hide Signed;
  }

  // ---------------------------------------------------------------- the shortest handler

  /** The word at h is a RET, and interrupt entry does not overwrite it. */
  predicate ReturnsAtOnce(m: State, h: Word) {
    && Readable(m.mem, h) && ToBe(m.mem.cells[h])[0] == Code(Ret)
    && h != Wrap(m.sp - 4) && h != Wrap(m.sp - 8) && h != Wrap(m.sp - 12)
  }

  lemma EntryFields(m: State, i: Byte)
    requires Live(m) && |m.regs| > 0 && StackRoom(m, i)
    ensures var e, h := EntryState(m, i), HandlerOf(m, i);
      && Live(e) && !e.enabled && e.pc == h && e.sp == Wrap(m.sp - 12) && e.mem == SavedMemory(m, ROM_ADDRESS + 24)
      && e.regs == m.regs[0 := h] && e.bp == m.bp && e.cs == m.cs && e.idt == m.idt && e.ir == i
  {
    hide HandlerOf, SavedMemory, Signed;
  }

  /** What the three pushes leave where, and that the word at h is not among them. */
  lemma EntryCells(m: State, h: Word)
    requires |m.regs| > 0 && ReturnsAtOnce(m, h)
    requires Writable(m.mem, Wrap(m.sp - 4)) && Writable(m.mem, Wrap(m.sp - 8)) && Writable(m.mem, Wrap(m.sp - 12))
    ensures var f := SavedMemory(m, ROM_ADDRESS + 24);
      && Readable(f, Wrap(m.sp - 4)) && f.cells[Wrap(m.sp - 4)] == m.pc
      && Readable(f, Wrap(m.sp - 8)) && f.cells[Wrap(m.sp - 8)] == m.regs[0]
      && Readable(f, Wrap(m.sp - 12)) && f.cells[Wrap(m.sp - 12)] == ROM_ADDRESS + 24
      && Readable(f, h) && f.cells[h] == m.mem.cells[h]
      && Wrap(Wrap(m.sp - 12) + 4) == Wrap(m.sp - 8)
  {
    hide ToBe, Code, Wrap;
    ThreeSlots(m.sp);
  }

  lemma ThreeSlots(sp: Word)
    ensures var a, b, c := Wrap(sp - 4), Wrap(sp - 8), Wrap(sp - 12);
      a != b && b != c && a != c && Wrap(c as int + 4) == b
  {
  }

  /** A turn at a RET, with interrupts off. */
  lemma RetTurn(e: State, arrivals: seq<Byte>)
    requires Live(e) && !e.enabled && Readable(e.mem, e.pc) && ToBe(e.mem.cells[e.pc])[0] == Code(Ret)
    ensures var g := OpenRun(e, [arrivals]); g == ExecRet(e.(pc := Wrap(e.pc + 4))).(pending := g.pending)
  {
    hide Masks, Active, Exec, ToBe, Code, SetAll;
    OneTurn(e, arrivals);
    DecodeInvertsCode(Ret);
    var e1 := Arrive(e, arrivals);
    RetRuns(Fetch(e1), Fetched(e1));
    RetBlind(e.(pc := Wrap(e.pc + 4)), e1.pending);
  }

  lemma RetRuns(m: State, w: Word)
    ensures Exec(m, Ret, w) == ExecRet(m)
  {
    hide ToBe;
  }

  /** The machine is at a RET, with the way back into the dispatcher and what it restores on the stack. */
  ghost predicate AtReturn(m: State, e: State) {
    && Live(e) && !e.enabled && Readable(e.mem, e.pc) && ToBe(e.mem.cells[e.pc])[0] == Code(Ret)
    && Readable(e.mem, e.sp) && e.mem.cells[e.sp] == ROM_ADDRESS + 24 && Wrap(e.sp + 4) == Wrap(m.sp - 8)
    && |m.regs| > 0 && Readable(e.mem, Wrap(m.sp - 8)) && e.mem.cells[Wrap(m.sp - 8)] == m.regs[0]
    && Readable(e.mem, Wrap(m.sp - 4)) && e.mem.cells[Wrap(m.sp - 4)] == m.pc
    && |e.regs| == |m.regs| && (forall r :: 1 <= r < |m.regs| ==> e.regs[r] == m.regs[r])
    && e.bp == m.bp && e.cs == m.cs && e.idt == m.idt
  }

  lemma EntryReturns(m: State, i: Byte, e: State)
    requires Live(m) && 32 <= |m.regs| && StackRoom(m, i) && ReturnsAtOnce(m, HandlerOf(m, i))
    requires e == EntryState(m, i).(pending := e.pending)
    ensures AtReturn(m, e)
  {
    hide EntryState, SavedMemory, HandlerOf, ToBe, Code, VectorOf, Wrap;
    EntryFields(m, i);
    EntryCells(m, HandlerOf(m, i));
  }

  lemma ReturnBalances(m: State, e: State, arrivals: seq<Byte>)
    requires AtReturn(m, e) && 32 <= |m.regs| <= 250
    ensures Balanced(m, OpenRun(e, [arrivals])) && OpenRun(e, [arrivals]).ir == e.ir
  {
    hide ToBe, Code, OpenRun, Wrap;
    RetTurn(e, arrivals);
  }

  /** The shortest handler, a single RET, is balanced. */
  lemma ReturningHandler(m: State, i: Byte, e: State, arrivals: seq<Byte>)
    requires Live(m) && 32 <= |m.regs| <= 250 && StackRoom(m, i) && ReturnsAtOnce(m, HandlerOf(m, i))
    requires e == EntryState(m, i).(pending := e.pending)
    ensures Balanced(m, OpenRun(e, [arrivals])) && OpenRun(e, [arrivals]).ir == i
  {
    hide EntryState, HandlerOf, OpenRun, StackRoom, ReturnsAtOnce, AtReturn, Balanced;
    EntryFields(m, i);
    EntryReturns(m, i, e);
    ReturnBalances(m, e, arrivals);
  }

  /** An interrupt whose handler returns at once takes eleven turns and changes no register. */
  lemma EmptyInterrupt(m: State, i: Byte, schedule: Schedule)
    requires |schedule| == 11 && Live(m) && TakenIn(m, schedule[0]) == Some(i)
    requires RomInstalled(m.mem) && MaskMapped(m.mem) && 32 <= |m.regs| <= 250 && StackRoom(m, i)
    requires ReturnsAtOnce(m, HandlerOf(m, i))
    ensures var e := OpenRun(m, schedule);
      e.regs == m.regs && e.sp == m.sp && e.pc == m.pc && e.enabled && Live(e) && e.ir == i
  {
    hide OpenRun, Balanced, RomInstalled, EntryState, TakenIn, MaskMapped, HandlerOf, ReturnsAtOnce;
    EntersHandler(m, i, schedule[..8]);
    ReturningHandler(m, i, OpenRun(m, schedule[..8]), schedule[8]);
    assert schedule[8..9] == [schedule[8]];
    InterruptRoundTrip(m, i, schedule, 1);
  }

  /** An interrupt between a comparison and the jump that depends on it loses the comparison:
      with 1 in r0, `CMP r0, 1` sets the zero flag, and after the interrupt it is clear. */
  lemma ComparisonLost(m: State, i: Byte, schedule: Schedule)
    requires |schedule| == 11 && Live(m) && TakenIn(m, schedule[0]) == Some(i)
    requires RomInstalled(m.mem) && MaskMapped(m.mem) && 32 <= |m.regs| <= 250 && StackRoom(m, i)
    requires ReturnsAtOnce(m, HandlerOf(m, i))
    requires m.regs[0] == 1 && m.zero
    ensures Compare(m, m.regs[0], 1).zero
    ensures var e := OpenRun(m, schedule); e.pc == m.pc && e.regs == m.regs && !e.zero
    ensures Taken(OpenRun(m, schedule), IfNotZero) && !Taken(m, IfNotZero)
  {
    hide OpenRun, Balanced, RomInstalled, EntryState, TakenIn, MaskMapped, HandlerOf, ReturnsAtOnce;
    CompareFlags(m, m.regs[0], 1);
    EntersHandler(m, i, schedule[..8]);
    ReturningHandler(m, i, OpenRun(m, schedule[..8]), schedule[8]);
    assert schedule[8..9] == [schedule[8]];
    InterruptRoundTrip(m, i, schedule, 1);
  }
}
