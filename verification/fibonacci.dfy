/** The recursive Fibonacci program: what it computes, how much stack it takes, and exactly
    when the stack suffices. */
module Fibonacci {
  import opened Words
  import opened Isa
  import opened Arch
  import opened FlatMemory
  import opened Machine
  import opened OpenRuns
  import opened Assembler
  import opened Symbolic
  import opened Simulation
  import opened Execution

  const FIBONACCI := "fibonacci"
  const NOT_0 := "not_0"
  const NOT_1 := "not_1"

  const FIB: seq<Node> := [
    Ins(IR(PushR, "r0")),
    Ins(IA(Call(Segment), FIBONACCI, Segment)),
    Ins(IRR(Mov(Reg), "r3", "r0")),
    Ins(IR(PopR, "r0")),
    Ins(I(Halt)),
    Label(FIBONACCI),
    Ins(IRW(Cmp(Imm), "r0", 0)),
    Ins(IA(Jump(IfNotZero, Segment), NOT_0, Segment)),
    Ins(I(Ret)),
    Label(NOT_0),
    Ins(IRW(Cmp(Imm), "r0", 1)),
    Ins(IA(Jump(IfNotZero, Segment), NOT_1, Segment)),
    Ins(I(Ret)),
    Label(NOT_1),
    Ins(IR(PushR, "r0")),
    Ins(IR(Dec, "r0")),
    Ins(IA(Call(Segment), FIBONACCI, Segment)),
    Ins(IRR(Mov(Reg), "r1", "r0")),
    Ins(IR(PopR, "r0")),
    Ins(IRW(Alu(Sub, Imm), "r0", 2)),
    Ins(IR(PushR, "r1")),
    Ins(IA(Call(Segment), FIBONACCI, Segment)),
    Ins(IR(PopR, "r1")),
    Ins(IRR(Alu(Add, Reg), "r0", "r1")),
    Ins(I(Ret))
  ]

  function Fib(n: nat): nat {
    if n < 2 then n else Fib(n - 1) + Fib(n - 2)
  }

  // ---------------------------------------------------------------- the text

  lemma FibDefines(k: nat, name: string)
    requires k < |FIB|
    ensures DefinesAt(FIB, k, name)
            <==> (k == 5 && name == FIBONACCI) || (k == 9 && name == NOT_0) || (k == 13 && name == NOT_1)
  {
  }

  lemma NamesDiffer()
    ensures FIBONACCI != NOT_0 && FIBONACCI != NOT_1 && NOT_0 != NOT_1
  {
    assert |FIBONACCI| != |NOT_0| && NOT_0[4] != NOT_1[4];
  }

  lemma KnownNames()
    ensures Known("r0") && Known("r1") && Known("r3")
    ensures RegisterId("r0") == Some(0) && RegisterId("r1") == Some(1) && RegisterId("r3") == Some(3)
  {
  }

  lemma FibInstruction(k: nat, labels: Labels)
    requires k < |FIB| && FIBONACCI in labels && NOT_0 in labels && NOT_1 in labels
    ensures !FIB[k].Data?
    ensures FIB[k].Ins? ==> Checked(FIB[k].i, labels) && (FIB[k].i.IA? ==> FIB[k].i.kind.Segment?)
  {
    hide Known, RegisterId, Args, SrcArgs;
    KnownNames();
    Declared();
  }

  lemma Declared()
    ensures Args(PushR) == [R] && Args(PopR) == [R] && Args(Dec) == [R] && Args(Halt) == [] && Args(Ret) == []
    ensures Args(Mov(Reg)) == [R, R] && Args(Alu(Add, Reg)) == [R, R]
    ensures Args(Cmp(Imm)) == [R, W] && Args(Alu(Sub, Imm)) == [R, W]
    ensures Args(Call(Segment)) == [S] && Args(Jump(IfNotZero, Segment)) == [S]
  {
  }

  /** p is the program, with the labels pass 1 gives it, loaded somewhere below 4 GB. */
  ghost predicate IsFib(p: Program)
    ensures IsFib(p) ==> Valid(p) && |p.nodes| == 25
  {
    if p.nodes == FIB && MapsPrefix(FIB, |FIB|, p.labels) && p.origin + 200 < WORD_LIMIT then
      FibValid(p);
      true
    else false
  }

  lemma FibValid(p: Program)
    requires p.nodes == FIB && MapsPrefix(FIB, |FIB|, p.labels) && p.origin + 200 < WORD_LIMIT
    ensures Valid(p)
  {
    hide Offset, Checked, DefinesAt;
    NamesDiffer();
    FibDefines(5, FIBONACCI);
    FibDefines(9, NOT_0);
    FibDefines(13, NOT_1);
    forall i, j, l | 0 <= i < j < |FIB| && DefinesAt(FIB, i, l) ensures !DefinesAt(FIB, j, l) {
      FibDefines(i, l);
      FibDefines(j, l);
    }
    forall k | 0 <= k < |FIB| ensures NodeChecked(p, k) {
      FibInstruction(k, p.labels);
    }
    CheckedIsValid(p);
  }

  lemma FibNext(p: Program, k: nat)
    requires IsFib(p) && k < 24 && k != 4 && k != 8 && k != 12
    ensures Next(p, k) == k + 1
  {
    assert Emits(FIB[k + 1]);
  }

  lemma FibTarget(p: Program)
    requires IsFib(p)
    ensures Skip(p.nodes, 5) == 6 && Skip(p.nodes, 9) == 10 && Skip(p.nodes, 13) == 14
  {
    hide IsFib, Offset;
    assert p.nodes == FIB by {
      FibNodes(p);
    }
    assert !Emits(FIB[5]) && !Emits(FIB[9]) && !Emits(FIB[13]) && Emits(FIB[6]) && Emits(FIB[10]) && Emits(FIB[14]);
  }

  lemma FibNodes(p: Program)
    requires IsFib(p)
    ensures p.nodes == FIB && Valid(p)
  {
    hide Valid, MapsPrefix;
  }

  // ---------------------------------------------------------------- single steps

  /** The program can run: its text is in memory, cs points at it, interrupts are off. */
  ghost predicate Calm(p: Program, m: State)
    requires IsFib(p)
  {
    Ready(p, m) && m.cs == p.origin && 32 <= |m.regs| <= 250
  }

  /** The return address a call just before node k pushes. */
  function Back(p: Program, k: nat): Word
    requires IsFib(p) && k <= 25
  {
    AddressOf(p, k)
  }

  /** t differs from m only in r0, r1, r3, sp, pc, the flags and memory. */
  predicate Same(m: State, t: State) {
    && |t.regs| == |m.regs| && (forall r :: 2 <= r < |m.regs| && r != 3 ==> t.regs[r] == m.regs[r])
    && t.cs == m.cs && t.bp == m.bp && t.idt == m.idt && t.ir == m.ir
    && t.enabled == m.enabled && t.panic == m.panic && t.running == m.running && t.pending == m.pending
  }

  lemma CalmKept(p: Program, m: State, t: State)
    requires IsFib(p) && Calm(p, m) && Same(m, t) && AgreeOutside(m.mem, t.mem, 0, p.origin)
    ensures Calm(p, t)
  {
    hide Loaded, IsFib, Valid;
    StillLoaded(p, m.mem, t.mem, 0, p.origin);
  }

  /** One more step of the program at the end of a run. */
  lemma Go(p: Program, s: Sym, t: Sym, n: nat)
    requires IsFib(p) && Calm(p, t.m) && Reaches(p, s, t, n) && SymStep(p, t).Some?
    ensures Reaches(p, s, SymStep(p, t).value, n + 1)
  {
    hide SymStep, Reaches, Loaded, IsFib, Valid;
    ReachesStep(p, s, t, n);
  }

  lemma StepPush(p: Program, m: State, k: nat, r: Byte)
    requires IsFib(p) && Calm(p, m) && ((k == 0 && r == 0) || (k == 14 && r == 0) || (k == 20 && r == 1))
    ensures SymStep(p, Sym(At(k), m)) == Some(Sym(At(k + 1), PushValue(m, m.regs[r])))
  {
    hide Execute, SymStep, PushValue, Loaded, Valid, Next, RegisterId;
    KnownNames();
    StepIsExecute(p, k, m);
    DoPush(p, k, m, if r == 0 then "r0" else "r1", r);
    FibNext(p, k);
  }

  lemma StepPop(p: Program, m: State, k: nat, r: Byte)
    requires IsFib(p) && Calm(p, m) && ((k == 3 && r == 0) || (k == 18 && r == 0) || (k == 22 && r == 1))
    requires Readable(m.mem, m.sp)
    ensures SymStep(p, Sym(At(k), m)) == Some(Sym(At(k + 1), WithReg(m.(sp := Wrap(m.sp + 4)), r, m.mem.cells[m.sp])))
  {
    hide Execute, SymStep, WithReg, Loaded, Valid, Next, RegisterId;
    KnownNames();
    StepIsExecute(p, k, m);
    DoPop(p, k, m, if r == 0 then "r0" else "r1", r);
    FibNext(p, k);
  }

  lemma StepMov(p: Program, m: State, k: nat, r: Byte)
    requires IsFib(p) && Calm(p, m) && ((k == 2 && r == 3) || (k == 17 && r == 1))
    ensures SymStep(p, Sym(At(k), m)) == Some(Sym(At(k + 1), WithReg(m, r, m.regs[0])))
  {
    hide Execute, SymStep, WithReg, Loaded, Valid, Next, RegisterId;
    KnownNames();
    StepIsExecute(p, k, m);
    DoMov(p, k, m, if r == 1 then "r1" else "r3", r, "r0");
    FibNext(p, k);
  }

  lemma StepDec(p: Program, m: State)
    requires IsFib(p) && Calm(p, m)
    ensures SymStep(p, Sym(At(15), m)) == Some(Sym(At(16), WithReg(m, 0, Wrap(m.regs[0] as int - 1))))
  {
    hide Execute, SymStep, WithReg, Loaded, Valid, Next, RegisterId;
    KnownNames();
    StepIsExecute(p, 15, m);
    DoDec(p, 15, m, "r0", 0);
    FibNext(p, 15);
  }

  lemma StepSub(p: Program, m: State)
    requires IsFib(p) && Calm(p, m)
    ensures SymStep(p, Sym(At(19), m)) == Some(Sym(At(20), WithReg(m, 0, Wrap(m.regs[0] as int - 2))))
  {
    hide Execute, SymStep, WithReg, Loaded, Valid, Next, RegisterId, Compute;
    KnownNames();
    StepIsExecute(p, 19, m);
    DoAluImm(p, 19, m, Sub, "r0", 0, 2);
    ComputeIsModular(m.regs[0], 2);
    FibNext(p, 19);
  }

  lemma StepAdd(p: Program, m: State)
    requires IsFib(p) && Calm(p, m)
    ensures SymStep(p, Sym(At(23), m)) == Some(Sym(At(24), WithReg(m, 0, Wrap(m.regs[0] as int + m.regs[1] as int))))
  {
    hide Execute, SymStep, WithReg, Loaded, Valid, Next, RegisterId, Compute;
    KnownNames();
    StepIsExecute(p, 23, m);
    DoAluReg(p, 23, m, Add, "r0", 0, "r1");
    ComputeIsModular(m.regs[0], m.regs[1]);
    FibNext(p, 23);
  }

  /** CMP r0, w leaves the registers alone and sets the zero flag on equality. */
  lemma StepCmp(p: Program, m: State, k: nat, w: Word) returns (t: State)
    requires IsFib(p) && Calm(p, m) && ((k == 6 && w == 0) || (k == 10 && w == 1))
    ensures SymStep(p, Sym(At(k), m)) == Some(Sym(At(k + 1), t))
    ensures t.zero == (m.regs[0] == w) && t == m.(zero := t.zero, negative := t.negative) && Calm(p, t)
  {
    hide Execute, SymStep, Loaded, Valid, Next, RegisterId, Wrap, Signed;
    KnownNames();
    StepIsExecute(p, k, m);
    DoCmpImm(p, k, m, "r0", 0, w);
    FibNext(p, k);
    t := Compare(m, m.regs[0], w);
  }

  lemma FibJne(p: Program, k: nat, name: string)
    requires IsFib(p) && ((k == 7 && name == NOT_0) || (k == 11 && name == NOT_1))
    ensures AtIns(p, k, IA(Jump(IfNotZero, Segment), name, Segment)) && DefinesAt(p.nodes, k + 2, name)
  {
    hide Valid, MapsPrefix;
    FibDefines(k + 2, name);
  }

  lemma StepJne(p: Program, m: State, k: nat)
    requires IsFib(p) && Calm(p, m) && (k == 7 || k == 11)
    ensures SymStep(p, Sym(At(k), m)) == Some(Sym(At(if m.zero then k + 1 else k + 3), m))
  {
    hide Execute, SymStep, Loaded, Valid, Next, DefinesAt, Skip;
    var name := if k == 7 then NOT_0 else NOT_1;
    StepIsExecute(p, k, m);
    FibJne(p, k, name);
    DoJump(p, k, m, IfNotZero, Segment, name, k + 2);
    FibNext(p, k);
    FibTarget(p);
  }

  lemma StepCall(p: Program, m: State, k: nat)
    requires IsFib(p) && Calm(p, m) && (k == 1 || k == 16 || k == 21) && Writable(m.mem, Wrap(m.sp - 4))
    ensures SymStep(p, Sym(At(k), m)) == Some(Sym(At(6), PushValue(m, Back(p, k + 1))))
  {
    hide Execute, SymStep, SymCall, PushValue, Loaded, AddressOf, Next, Resolvable, MapsPrefix, Encodable, NodeFits;
    StepIsExecute(p, k, m);
    FibDefines(5, FIBONACCI);
    DoCall(p, k, m, Segment, FIBONACCI, 5);
    FibNext(p, k);
    FibTarget(p);
    SymCallOk(m, AddressOf(p, k + 1), At(k + 1), At(6));
  }

  lemma StepRet(p: Program, m: State, k: nat)
    requires IsFib(p) && Calm(p, m) && (k == 8 || k == 12 || k == 24) && Readable(m.mem, m.sp)
    ensures SymStep(p, Sym(At(k), m)) == Some(Sym(Where(p, m.mem.cells[m.sp]), m.(sp := Wrap(m.sp + 4))))
  {
    hide Execute, SymStep, Loaded, Where, Valid;
    StepIsExecute(p, k, m);
    DoRet(p, k, m);
  }

  // ---------------------------------------------------------------- stretches between calls

  /** Every aligned word from lo up to hi can be written. */
  predicate StackFree(f: Flat, lo: int, hi: int) {
    forall a: Word :: lo <= a < hi && a % 4 == 0 ==> Writable(f, a)
  }

  lemma FreeKept(f: Flat, g: Flat, lo: int, hi: int)
    requires StackFree(f, lo, hi) && SameShape(f, g)
    ensures StackFree(g, lo, hi)
  {
    forall a: Word | lo <= a < hi && a % 4 == 0 ensures Writable(g, a) {
      assert Writable(f, a);
    }
  }

  /** A push in free stack below the program. */
  lemma PushFree(p: Program, m: State, v: Word)
    requires IsFib(p) && Calm(p, m) && 4 <= m.sp <= p.origin && Writable(m.mem, m.sp as int - 4)
    ensures PushValue(m, v) == m.(sp := m.sp as int - 4, mem := Put(m.mem, m.sp as int - 4, v))
    ensures Calm(p, PushValue(m, v)) && AgreeOutside(m.mem, PushValue(m, v).mem, m.sp as int - 4, m.sp)
  {
    hide IsFib, Loaded, Valid;
    PushOk(m, v);
    PutAgrees(m.mem, m.sp as int - 4, v, m.sp as int - 4, m.sp);
    AgreeWidens(m.mem, PushValue(m, v).mem, m.sp as int - 4, m.sp, 0, p.origin);
    CalmKept(p, m, PushValue(m, v));
  }

  lemma RegCalm(p: Program, m: State, r: Byte, v: Word)
    requires IsFib(p) && Calm(p, m) && (r < 2 || r == 3)
    ensures var t := WithReg(m, r, v);
      Calm(p, t) && t.regs == m.regs[r := v] && t.sp == m.sp && t.mem == m.mem && Same(m, t)
  {
    hide IsFib, Loaded, Valid, Signed;
  }

  lemma SpCalm(p: Program, m: State, sp: Word)
    requires IsFib(p) && Calm(p, m)
    ensures Calm(p, m.(sp := sp)) && Same(m, m.(sp := sp))
  {
    hide IsFib, Loaded, Valid;
  }

  lemma SameTwice(m: State, t: State, u: State)
    requires Same(m, t) && Same(t, u)
    ensures Same(m, u)
  {
  }

  function TestTurns(n: nat): nat {
    if n == 0 then 2 else 4
  }

  /** The tests at the start: an index below two goes straight to RET, others go on at node 14. */
  lemma Tests(p: Program, m: State) returns (k: nat, t: State)
    requires IsFib(p) && Calm(p, m)
    ensures Reaches(p, Sym(At(6), m), Sym(At(k), t), TestTurns(m.regs[0])) && Calm(p, t)
    ensures t == m.(zero := t.zero, negative := t.negative)
    ensures k == if m.regs[0] == 0 then 8 else if m.regs[0] == 1 then 12 else 14
  {
    hide SymStep, IsFib, Ready, Reaches, Valid;
    var s := Sym(At(6), m);
    ReachesSelf(p, s);
    t := StepCmp(p, m, 6, 0);
    Go(p, s, s, 0);
    StepJne(p, t, 7);
    Go(p, s, Sym(At(7), t), 1);
    k := 8;
    if !t.zero {
      var u := StepCmp(p, t, 10, 1);
      Go(p, s, Sym(At(10), t), 2);
      StepJne(p, u, 11);
      Go(p, s, Sym(At(11), u), 3);
      t := u;
      k := if u.zero then 12 else 14;
    }
  }

  /** Index 0 or 1: nothing changes but sp and the flags. */
  lemma Small(p: Program, m: State) returns (t: State)
    requires IsFib(p) && Calm(p, m) && m.regs[0] < 2 && Readable(m.mem, m.sp)
    ensures Reaches(p, Sym(At(6), m), Sym(Where(p, m.mem.cells[m.sp]), t), TestTurns(m.regs[0]) + 1)
    ensures t == m.(sp := Wrap(m.sp + 4), zero := t.zero, negative := t.negative) && Calm(p, t)
  {
    hide SymStep, IsFib, Ready, Reaches, Valid, Where;
    var k, u := Tests(p, m);
    StepRet(p, u, k);
    Go(p, Sym(At(6), m), Sym(At(k), u), TestTurns(m.regs[0]));
    t := u.(sp := Wrap(u.sp + 4));
    SpCalm(p, u, Wrap(u.sp + 4));
  }

  /** From the entry to the entry of the first recursive call. */
  lemma Descend(p: Program, m: State) returns (t: State)
    requires IsFib(p) && Calm(p, m) && m.regs[0] >= 2
    requires 8 <= m.sp <= p.origin && Writable(m.mem, m.sp as int - 4) && Writable(m.mem, m.sp as int - 8)
    ensures Reaches(p, Sym(At(6), m), Sym(At(6), t), 7) && Calm(p, t) && Same(m, t)
    ensures t.regs[0] == m.regs[0] as int - 1 && t.sp == m.sp as int - 8
    ensures t.mem == Put(Put(m.mem, m.sp as int - 4, m.regs[0]), m.sp as int - 8, Back(p, 17))
    ensures AgreeOutside(m.mem, t.mem, m.sp as int - 8, m.sp)
  {
    hide SymStep, IsFib, Ready, Reaches, Valid, PushValue, WithReg, Back;
    var s := Sym(At(6), m);
    var k, u := Tests(p, m);
    StepPush(p, u, 14, 0);
    PushFree(p, u, u.regs[0]);
    Go(p, s, Sym(At(14), u), 4);
    var v := PushValue(u, u.regs[0]);
    StepDec(p, v);
    Go(p, s, Sym(At(15), v), 5);
    var w := WithReg(v, 0, Wrap(v.regs[0] as int - 1));
    RegCalm(p, v, 0, Wrap(v.regs[0] as int - 1));
    StepCall(p, w, 16);
    Go(p, s, Sym(At(16), w), 6);
    PushFree(p, w, Back(p, 17));
    t := PushValue(w, Back(p, 17));
    SameTwice(m, w, t);
  }

  /** From the return of the first recursive call to the entry of the second one. */
  lemma Between(p: Program, m: State) returns (t: State)
    requires IsFib(p) && Calm(p, m) && 4 <= m.sp < p.origin - 3
    requires Writable(m.mem, m.sp) && Writable(m.mem, m.sp as int - 4) && m.mem.cells[m.sp] >= 2
    ensures Reaches(p, Sym(At(17), m), Sym(At(6), t), 5) && Calm(p, t) && Same(m, t)
    ensures t.regs[0] == m.mem.cells[m.sp] as int - 2 && t.sp == m.sp as int - 4
    ensures t.mem == Put(Put(m.mem, m.sp, m.regs[0]), m.sp as int - 4, Back(p, 22))
    ensures AgreeOutside(m.mem, t.mem, m.sp as int - 4, m.sp + 4)
  {
    hide SymStep, IsFib, Ready, Reaches, Valid, PushValue, WithReg, Back;
    var s := Sym(At(17), m);
    var u := UpToSub(p, m);
    StepPush(p, u, 20, 1);
    PushFree(p, u, m.regs[0]);
    Go(p, s, Sym(At(20), u), 3);
    var v := PushValue(u, m.regs[0]);
    StepCall(p, v, 21);
    PushFree(p, v, Back(p, 22));
    Go(p, s, Sym(At(21), v), 4);
    t := PushValue(v, Back(p, 22));
    SameTwice(m, u, t);
  }

  lemma UpToSub(p: Program, m: State) returns (t: State)
    requires IsFib(p) && Calm(p, m) && m.sp < p.origin - 3
    requires Readable(m.mem, m.sp) && m.mem.cells[m.sp] >= 2
    ensures Reaches(p, Sym(At(17), m), Sym(At(20), t), 3) && Calm(p, t) && Same(m, t)
    ensures t.regs[0] == m.mem.cells[m.sp] as int - 2 && t.regs[1] == m.regs[0]
    ensures t.sp == m.sp + 4 && t.mem == m.mem
  {
    hide SymStep, IsFib, Ready, Reaches, Valid, WithReg;
    var s := Sym(At(17), m);
    ReachesSelf(p, s);
    StepMov(p, m, 17, 1);
    RegCalm(p, m, 1, m.regs[0]);
    Go(p, s, s, 0);
    var u := WithReg(m, 1, m.regs[0]);
    StepPop(p, u, 18, 0);
    SpCalm(p, u, Wrap(u.sp + 4));
    RegCalm(p, u.(sp := Wrap(u.sp + 4)), 0, m.mem.cells[m.sp]);
    Go(p, s, Sym(At(18), u), 1);
    var v := WithReg(u.(sp := Wrap(u.sp + 4)), 0, m.mem.cells[m.sp]);
    StepSub(p, v);
    RegCalm(p, v, 0, Wrap(v.regs[0] as int - 2));
    Go(p, s, Sym(At(19), v), 2);
    t := WithReg(v, 0, Wrap(v.regs[0] as int - 2));
    SameTwice(m, u, v);
    SameTwice(m, v, t);
  }

  /** From the return of the second recursive call to the return of the whole call. */
  lemma Finish(p: Program, m: State) returns (t: State)
    requires IsFib(p) && Calm(p, m) && m.sp < p.origin - 7
    requires Readable(m.mem, m.sp) && Readable(m.mem, m.sp + 4)
    ensures Reaches(p, Sym(At(22), m), Sym(Where(p, m.mem.cells[m.sp + 4]), t), 3) && Calm(p, t) && Same(m, t)
    ensures t.regs[0] == Wrap(m.regs[0] as int + m.mem.cells[m.sp] as int) && t.sp == m.sp + 8 && t.mem == m.mem
  {
    hide SymStep, IsFib, Ready, Reaches, Valid, WithReg, Where;
    var s := Sym(At(22), m);
    ReachesSelf(p, s);
    StepPop(p, m, 22, 1);
    SpCalm(p, m, Wrap(m.sp + 4));
    RegCalm(p, m.(sp := Wrap(m.sp + 4)), 1, m.mem.cells[m.sp]);
    Go(p, s, s, 0);
    var u := WithReg(m.(sp := Wrap(m.sp + 4)), 1, m.mem.cells[m.sp]);
    StepAdd(p, u);
    RegCalm(p, u, 0, Wrap(u.regs[0] as int + u.regs[1] as int));
    Go(p, s, Sym(At(23), u), 1);
    var v := WithReg(u, 0, Wrap(u.regs[0] as int + u.regs[1] as int));
    StepRet(p, v, 24);
    SpCalm(p, v, Wrap(v.sp + 4));
    Go(p, s, Sym(At(24), v), 2);
    t := v.(sp := Wrap(v.sp + 4));
    SameTwice(m, u, v);
    SameTwice(m, v, t);
  }

  // ---------------------------------------------------------------- the recursion

  /** The stack the call for index n takes below its return address. */
  function Depth(n: nat): nat {
    if n < 2 then 0 else 8 * (n - 1)
  }

  /** The turns the call for index n takes. */
  function CallTurns(n: nat): nat {
    if n < 2 then TestTurns(n) + 1 else 7 + CallTurns(n - 1) + 5 + CallTurns(n - 2) + 3
  }

  lemma CallTurnsIs(n: nat)
    ensures n >= 2 ==> CallTurns(n) == 7 + CallTurns(n - 1) + 5 + CallTurns(n - 2) + 3
  {
  }

  /** A call with room for its stack: the return address is at sp. */
  ghost predicate Called(p: Program, m: State, n: nat)
    requires IsFib(p)
  {
    && Calm(p, m) && m.regs[0] == n && m.sp % 4 == 0 && m.sp + 4 <= p.origin && Readable(m.mem, m.sp)
    && Depth(n) <= m.sp && StackFree(m.mem, m.sp - Depth(n), m.sp)
  }

  /** What the call leaves: Fibonacci of n in r0, the return address popped, memory at and
      above sp and below the stack it took as it was. */
  ghost predicate Returned(p: Program, m: State, t: State, n: nat)
    requires IsFib(p)
  {
    && Calm(p, t) && Same(m, t) && t.regs[0] == Wrap(Fib(n)) && t.sp == m.sp + 4
    && AgreeOutside(m.mem, t.mem, m.sp - Depth(n), m.sp)
  }

  lemma WrapAdd(a: nat, b: nat)
    ensures Wrap(Wrap(a) as int + Wrap(b) as int) == Wrap(a + b)
  {
  }

  lemma CalledFirst(p: Program, m: State, a: State, n: nat)
    requires IsFib(p) && Called(p, m, n) && n >= 2 && Calm(p, a) && a.regs[0] == n - 1 && a.sp == m.sp as int - 8
    requires AgreeOutside(m.mem, a.mem, m.sp - 8, m.sp)
    ensures Called(p, a, n - 1) && Depth(n - 1) == Depth(n) - 8
  {
    hide IsFib, Calm, StackFree;
    FreeKept(m.mem, a.mem, m.sp - Depth(n), m.sp);
    FreeNarrows(a.mem, m.sp - Depth(n), m.sp, m.sp - 8);
    FreeAt(m.mem, m.sp - Depth(n), m.sp, m.sp as int - 8);
  }

  lemma FreeNarrows(f: Flat, lo: int, hi: int, hi2: int)
    requires StackFree(f, lo, hi) && hi2 <= hi
    ensures StackFree(f, lo, hi2)
  {
  }

  lemma FreeAt(f: Flat, lo: int, hi: int, a: Word)
    requires StackFree(f, lo, hi) && lo <= a < hi && a % 4 == 0
    ensures Writable(f, a)
  {
  }

  lemma FibSmall(p: Program, m: State, n: nat) returns (t: State)
    requires IsFib(p) && Called(p, m, n) && n < 2
    ensures Reaches(p, Sym(At(6), m), Sym(Where(p, m.mem.cells[m.sp]), t), CallTurns(n)) && Returned(p, m, t, n)
  {
    hide IsFib, Ready, Reaches, Valid, Where, StackFree;
    t := Small(p, m);
  }

  /** The first half: down to the first recursive call, which is called properly. */
  lemma FirstCall(p: Program, m: State, n: nat) returns (a: State)
    requires IsFib(p) && Called(p, m, n) && n >= 2
    ensures Reaches(p, Sym(At(6), m), Sym(At(6), a), 7) && Called(p, a, n - 1) && Same(m, a) && FirstFrame(p, m, a)
    ensures Where(p, a.mem.cells[a.sp]) == At(17)
  {
    hide IsFib, Ready, Reaches, Valid, Where, Back, StackFree;
    FreeAt(m.mem, m.sp - Depth(n), m.sp, m.sp as int - 4);
    FreeAt(m.mem, m.sp - Depth(n), m.sp, m.sp as int - 8);
    a := Descend(p, m);
    CalledFirst(p, m, a, n);
    BackIs(p, 17);
  }

  ghost predicate FirstFrame(p: Program, m: State, a: State)
    requires IsFib(p) && 32 <= |m.regs|
  {
    && m.sp >= 8 && a.sp == m.sp as int - 8
    && Writable(m.mem, m.sp as int - 4) && Writable(m.mem, m.sp as int - 8)
    && a.mem == Put(Put(m.mem, m.sp as int - 4, m.regs[0]), m.sp as int - 8, Back(p, 17))
    && AgreeOutside(m.mem, a.mem, m.sp - 8, m.sp)
  }

  lemma ReachesFive(p: Program, s: Sym, t: Sym, u: Sym, v: Sym, w: Sym, x: Sym, a: nat, b: nat)
    requires Valid(p) && Reaches(p, s, t, 7) && Reaches(p, t, u, a) && Reaches(p, u, v, 5)
    requires Reaches(p, v, w, b) && Reaches(p, w, x, 3)
    ensures Reaches(p, s, x, 7 + a + 5 + b + 3)
  {
    hide Reaches, Valid;
    ReachesTransitive(p, s, t, u, 7, a);
    ReachesTransitive(p, s, u, v, 7 + a, 5);
    ReachesTransitive(p, s, v, w, 7 + a + 5, b);
    ReachesTransitive(p, s, w, x, 7 + a + 5 + b, 3);
  }

  /** The call for index n returns with Fibonacci of n, for every n whose stack fits, after
      exactly CallTurns(n) turns. */
  lemma {:induction false} FibRuns(p: Program, m: State, n: nat) returns (t: State)
    requires IsFib(p) && Called(p, m, n)
    ensures Reaches(p, Sym(At(6), m), Sym(Where(p, m.mem.cells[m.sp]), t), CallTurns(n))
    ensures Returned(p, m, t, n)
    decreases n
  {
    hide IsFib, Calm, Reaches, Valid, Where, Back, StackFree, AgreeOutside, Fib, Depth, FirstFrame, Same, Returned,
         CallTurns;
    CallTurnsIs(n);
    if n < 2 {
      t := FibSmall(p, m, n);
    } else {
      var a := FirstCall(p, m, n);
      var b := FibRuns(p, a, n - 1);
      var c := Resume(p, m, a, b, n);
      CalledSecond(p, m, c, n);
      var d := FibRuns(p, c, n - 2);
      BackIs(p, 22);
      t := Sum(p, m, c, d, n);
      ReachesFive(p, Sym(At(6), m), Sym(At(6), a), Sym(At(17), b), Sym(At(6), c), Sym(At(22), d),
                  Sym(Where(p, m.mem.cells[m.sp]), t), CallTurns(n - 1), CallTurns(n - 2));
    }
  }

  lemma BackIs(p: Program, k: nat)
    requires IsFib(p) && (k == 2 || k == 17 || k == 22)
    ensures Where(p, Back(p, k)) == At(k)
  {
    hide Valid, Where;
    FibNodes(p);
    WhereIs(p, k);
  }

  /** The second recursive call is about to start: Fibonacci of n - 1 is saved above its
      return address. */
  ghost predicate Resumed(p: Program, m: State, c: State, n: nat)
    requires IsFib(p)
  {
    && n >= 2 && m.sp >= 8 && Calm(p, c) && Same(m, c) && c.regs[0] == n - 2 && c.sp == m.sp as int - 8
    && AgreeOutside(m.mem, c.mem, m.sp - Depth(n), m.sp)
    && Readable(c.mem, m.sp as int - 4) && c.mem.cells[m.sp as int - 4] == Wrap(Fib(n - 1))
    && Readable(c.mem, m.sp as int - 8) && c.mem.cells[m.sp as int - 8] == Back(p, 22)
  }

  lemma Resume(p: Program, m: State, a: State, b: State, n: nat) returns (c: State)
    requires IsFib(p) && Called(p, m, n) && n >= 2
    requires Same(m, a) && FirstFrame(p, m, a) && Called(p, a, n - 1) && Returned(p, a, b, n - 1)
    ensures Reaches(p, Sym(At(17), b), Sym(At(6), c), 5) && Resumed(p, m, c, n)
  {
    hide SymStep, IsFib, Ready, Reaches, Valid, Where, Back, StackFree, Fib;
    c := Between(p, b);
    AgreeWidens(m.mem, a.mem, m.sp - 8, m.sp, m.sp - Depth(n), m.sp);
    AgreeWidens(a.mem, b.mem, a.sp - Depth(n - 1), a.sp, m.sp - Depth(n), m.sp);
    AgreeWidens(b.mem, c.mem, b.sp - 4, b.sp + 4, m.sp - Depth(n), m.sp);
    AgreeTransitive(m.mem, a.mem, b.mem, m.sp - Depth(n), m.sp);
    AgreeTransitive(m.mem, b.mem, c.mem, m.sp - Depth(n), m.sp);
    SameTwice(m, a, b);
    SameTwice(m, b, c);
  }

  /** The sum, once both calls have returned. */
  lemma Sum(p: Program, m: State, c: State, d: State, n: nat) returns (t: State)
    requires IsFib(p) && Called(p, m, n) && Resumed(p, m, c, n) && Returned(p, c, d, n - 2)
    ensures Reaches(p, Sym(At(22), d), Sym(Where(p, m.mem.cells[m.sp]), t), 3) && Returned(p, m, t, n)
  {
    hide SymStep, IsFib, Ready, Reaches, Valid, Where, Back, StackFree;
    AgreeWidens(c.mem, d.mem, c.sp - Depth(n - 2), c.sp, m.sp - Depth(n), m.sp);
    AgreeTransitive(m.mem, c.mem, d.mem, m.sp - Depth(n), m.sp);
    t := Finish(p, d);
    WrapAdd(Fib(n - 2), Fib(n - 1));
    SameTwice(m, c, d);
    SameTwice(m, d, t);
  }

  lemma CalledSecond(p: Program, m: State, c: State, n: nat)
    requires IsFib(p) && Called(p, m, n) && Resumed(p, m, c, n)
    ensures Called(p, c, n - 2) && c.mem.cells[c.sp] == Back(p, 22)
  {
    hide IsFib, Calm, StackFree;
    FreeKept(m.mem, c.mem, m.sp - Depth(n), m.sp);
    FreeNarrows(c.mem, m.sp - Depth(n), m.sp, m.sp - 8);
    FreeFrom(c.mem, m.sp - Depth(n), c.sp - Depth(n - 2), c.sp);
    FreeAt(m.mem, m.sp - Depth(n), m.sp, m.sp as int - 8);
  }

  lemma FreeFrom(f: Flat, lo: int, lo2: int, hi: int)
    requires StackFree(f, lo, hi) && lo <= lo2
    ensures StackFree(f, lo2, hi)
  {
  }

  // ---------------------------------------------------------------- running out of stack

  lemma PushBlocked(m: State, v: Word)
    requires !Writable(m.mem, Wrap(m.sp - 4))
    ensures PushValue(m, v).panic == ErrWrite
  {
  }

  lemma TwoWords(f: Flat, sp: Word)
    requires StackFree(f, 0, sp) && sp % 4 == 0 && sp >= 8
    ensures Writable(f, sp as int - 4) && Writable(f, sp as int - 8)
  {
    hide StackFree, Writable;
    FreeAt(f, 0, sp, sp as int - 4);
    FreeAt(f, 0, sp, sp as int - 8);
  }

  lemma OverflowAtZero(p: Program, m: State) returns (c: Ctl, t: State)
    requires IsFib(p) && Calm(p, m) && m.regs[0] >= 2 && m.sp == 0 && !Writable(m.mem, 0xFFFF_FFFC)
    ensures Reaches(p, Sym(At(6), m), Sym(c, t), 5) && t.panic == ErrWrite
  {
    hide SymStep, IsFib, Ready, Reaches, Valid, PushValue;
    var k, u := Tests(p, m);
    StepPush(p, u, 14, 0);
    PushBlocked(u, u.regs[0]);
    Go(p, Sym(At(6), m), Sym(At(14), u), 4);
    c, t := At(15), PushValue(u, u.regs[0]);
  }

  /** A call that cannot push its return address. */
  lemma StepCallBlocked(p: Program, m: State, k: nat)
    requires IsFib(p) && Calm(p, m) && (k == 1 || k == 16) && !Writable(m.mem, Wrap(m.sp - 4))
    ensures SymStep(p, Sym(At(k), m)) == Some(Sym(At(k + 1), PushValue(m, Back(p, k + 1))))
  {
    hide Execute, SymStep, PushValue, Loaded, AddressOf, Next, Resolvable, MapsPrefix, Encodable, NodeFits;
    StepIsExecute(p, k, m);
    FibDefines(5, FIBONACCI);
    DoCall(p, k, m, Segment, FIBONACCI, 5);
    FibNext(p, k);
    FibTarget(p);
    PushBlocked(m, AddressOf(p, k + 1));
  }

  lemma OverflowAtFour(p: Program, m: State) returns (c: Ctl, t: State)
    requires IsFib(p) && Calm(p, m) && m.regs[0] >= 2 && m.sp == 4 <= p.origin
    requires Writable(m.mem, 0) && !Writable(m.mem, 0xFFFF_FFFC)
    ensures Reaches(p, Sym(At(6), m), Sym(c, t), 7) && t.panic == ErrWrite
  {
    hide SymStep, IsFib, Ready, Reaches, Valid, PushValue, WithReg, Back;
    var s := Sym(At(6), m);
    var k, u := Tests(p, m);
    StepPush(p, u, 14, 0);
    PushFree(p, u, u.regs[0]);
    Go(p, s, Sym(At(14), u), 4);
    var v := PushValue(u, u.regs[0]);
    StepDec(p, v);
    Go(p, s, Sym(At(15), v), 5);
    var w := WithReg(v, 0, Wrap(v.regs[0] as int - 1));
    RegCalm(p, v, 0, Wrap(v.regs[0] as int - 1));
    StepCallBlocked(p, w, 16);
    Go(p, s, Sym(At(16), w), 6);
    PushBlocked(w, Back(p, 17));
    c, t := At(17), PushValue(w, Back(p, 17));
  }

  /** The turns until a call whose stack does not fit fails. */
  function OverflowTurns(sp: nat): nat {
    if sp < 4 then 5 else if sp < 8 then 7 else 7 + OverflowTurns(sp - 8)
  }

  /** A call whose stack does not fit runs down to address 0 and panics on the push below it. */
  lemma {:induction false} FibOverflows(p: Program, m: State, n: nat) returns (c: Ctl, t: State)
    requires IsFib(p) && Calm(p, m) && m.regs[0] == n && n >= 2 && m.sp % 4 == 0 && m.sp <= p.origin
    requires m.sp < Depth(n) && StackFree(m.mem, 0, m.sp) && !Writable(m.mem, 0xFFFF_FFFC)
    ensures Reaches(p, Sym(At(6), m), Sym(c, t), OverflowTurns(m.sp)) && t.panic == ErrWrite
    decreases n
  {
    hide IsFib, Ready, Reaches, Valid, Back, StackFree, Put;
    if m.sp == 0 {
      c, t := OverflowAtZero(p, m);
    } else if m.sp == 4 {
      FreeAt(m.mem, 0, m.sp, 0);
      c, t := OverflowAtFour(p, m);
    } else {
      TwoWords(m.mem, m.sp);
      var a := Descend(p, m);
      FreeKept(m.mem, a.mem, 0, m.sp);
      FreeNarrows(a.mem, 0, m.sp, m.sp - 8);
      c, t := FibOverflows(p, a, n - 1);
      ReachesTransitive(p, Sym(At(6), m), Sym(At(6), a), Sym(c, t), 7, OverflowTurns(a.sp));
    }
  }

  // ---------------------------------------------------------------- the whole program

  /** The machine is about to start the program: the stack words below sp are free, and the
      word a stack underflow would wrap around to is not writable. */
  ghost predicate Started(p: Program, m: State)
    requires IsFib(p)
  {
    && Calm(p, m) && m.sp % 4 == 0 && m.sp <= p.origin
    && StackFree(m.mem, 0, m.sp) && !Writable(m.mem, 0xFFFF_FFFC)
  }

  /** The stack the whole program takes: two words for itself, and that of its call. */
  function NeededStack(n: nat): nat {
    8 + Depth(n)
  }

  /** The turns the program takes from a given sp, to its end or to the failing push. */
  function ProgramTurns(n: nat, sp: nat): nat {
    if sp < 4 then 1
    else if sp < 8 then 2
    else if NeededStack(n) <= sp then 2 + CallTurns(n) + 3
    else 2 + OverflowTurns(sp - 8)
  }

  /** The program has halted with the result in r3 and everything else as it found it, but r1,
      the flags, and the stack words it used. */
  predicate Finished(m: State, t: State)
    requires 32 <= |m.regs|
  {
    && !t.running && t.panic == ErrOk && |t.regs| == |m.regs|
    && t.regs[3] == Wrap(Fib(m.regs[0])) && t.sp == m.sp
    && (forall r :: 0 <= r < |m.regs| && r != 1 && r != 3 ==> t.regs[r] == m.regs[r])
    && t.cs == m.cs && t.bp == m.bp && t.idt == m.idt && t.ir == m.ir && t.enabled == m.enabled
    && AgreeOutside(m.mem, t.mem, m.sp - 8 - Depth(m.regs[0]), m.sp)
  }

  /** The first two instructions save r0 and call. */
  lemma Prologue(p: Program, m: State) returns (a: State)
    requires IsFib(p) && Started(p, m) && m.sp >= 8
    ensures Reaches(p, Sym(At(0), m), Sym(At(6), a), 2) && Calm(p, a) && Same(m, a)
    ensures a.regs[0] == m.regs[0] && a.sp == m.sp as int - 8 && AgreeOutside(m.mem, a.mem, m.sp - 8, m.sp)
    ensures Writable(a.mem, m.sp as int - 4) && a.mem.cells[m.sp as int - 4] == m.regs[0]
    ensures Readable(a.mem, a.sp) && Where(p, a.mem.cells[a.sp]) == At(2)
    ensures StackFree(a.mem, 0, m.sp)
  {
    hide SymStep, IsFib, Ready, Reaches, Valid, Back, StackFree, PushValue, Where;
    var s := Sym(At(0), m);
    ReachesSelf(p, s);
    TwoWords(m.mem, m.sp);
    StepPush(p, m, 0, 0);
    PushFree(p, m, m.regs[0]);
    Go(p, s, s, 0);
    var u := PushValue(m, m.regs[0]);
    StepCall(p, u, 1);
    PushFree(p, u, Back(p, 2));
    Go(p, s, Sym(At(1), u), 1);
    a := PushValue(u, Back(p, 2));
    BackIs(p, 2);
    FreeKept(m.mem, a.mem, 0, m.sp);
  }

  /** The last three instructions move the result, restore r0 and halt. */
  lemma Epilogue(p: Program, m: State) returns (t: State)
    requires IsFib(p) && Calm(p, m) && Readable(m.mem, m.sp) && m.sp < p.origin - 3
    ensures Reaches(p, Sym(At(2), m), Sym(At(6), t), 3) && t.mem == m.mem && t.sp == m.sp + 4
    ensures !t.running && Same(m.(running := false), t) && t.regs[3] == m.regs[0] && t.regs[0] == m.mem.cells[m.sp]
  {
    hide SymStep, IsFib, Ready, Reaches, Valid, WithReg;
    var s := Sym(At(2), m);
    ReachesSelf(p, s);
    StepMov(p, m, 2, 3);
    RegCalm(p, m, 3, m.regs[0]);
    Go(p, s, s, 0);
    var u := WithReg(m, 3, m.regs[0]);
    StepPop(p, u, 3, 0);
    SpCalm(p, u, Wrap(u.sp + 4));
    RegCalm(p, u.(sp := Wrap(u.sp + 4)), 0, m.mem.cells[m.sp]);
    Go(p, s, Sym(At(3), u), 1);
    var v := WithReg(u.(sp := Wrap(u.sp + 4)), 0, m.mem.cells[m.sp]);
    StepHalt(p, v);
    Go(p, s, Sym(At(4), v), 2);
    t := v.(running := false);
    SameTwice(m, u, v);
  }

  lemma StepHalt(p: Program, m: State)
    requires IsFib(p) && Calm(p, m)
    ensures SymStep(p, Sym(At(4), m)) == Some(Sym(At(6), m.(running := false)))
  {
    hide Execute, SymStep, Loaded, Valid;
    StepIsExecute(p, 4, m);
    DoHalt(p, 4, m);
    FibTarget(p);
  }

  lemma Completes(p: Program, m: State) returns (t: State)
    requires IsFib(p) && Started(p, m) && NeededStack(m.regs[0]) <= m.sp
    ensures Reaches(p, Sym(At(0), m), Sym(At(6), t), ProgramTurns(m.regs[0], m.sp)) && Finished(m, t)
  {
    hide IsFib, Loaded, Reaches, Valid, Where, StackFree, Fib;
    var n := m.regs[0];
    var a := Prologue(p, m);
    FreeNarrows(a.mem, 0, m.sp, a.sp);
    FreeFrom(a.mem, 0, a.sp - Depth(n), a.sp);
    var d := FibRuns(p, a, n);
    AgreeWidens(m.mem, a.mem, m.sp - 8, m.sp, m.sp - 8 - Depth(n), m.sp);
    AgreeWidens(a.mem, d.mem, a.sp - Depth(n), a.sp, m.sp - 8 - Depth(n), m.sp);
    AgreeTransitive(m.mem, a.mem, d.mem, m.sp - 8 - Depth(n), m.sp);
    t := Epilogue(p, d);
    ReachesTransitive(p, Sym(At(0), m), Sym(At(6), a), Sym(At(2), d), 2, CallTurns(n));
    ReachesTransitive(p, Sym(At(0), m), Sym(At(2), d), Sym(At(6), t), 2 + CallTurns(n), 3);
    SameTwice(m, a, d);
  }

  lemma Overflows(p: Program, m: State) returns (c: Ctl, t: State)
    requires IsFib(p) && Started(p, m) && NeededStack(m.regs[0]) > m.sp
    ensures Reaches(p, Sym(At(0), m), Sym(c, t), ProgramTurns(m.regs[0], m.sp)) && t.panic == ErrWrite
  {
    hide IsFib, Ready, Reaches, Valid, Where, StackFree, Fib;
    if m.sp < 8 {
      c, t := NoStack(p, m);
    } else {
      var a := Prologue(p, m);
      FreeNarrows(a.mem, 0, m.sp, a.sp);
      c, t := FibOverflows(p, a, m.regs[0]);
      ReachesTransitive(p, Sym(At(0), m), Sym(At(6), a), Sym(c, t), 2, OverflowTurns(a.sp));
    }
  }

  /** With less than two words of stack the program does not get to its first call. */
  lemma NoStack(p: Program, m: State) returns (c: Ctl, t: State)
    requires IsFib(p) && Started(p, m) && m.sp < 8
    ensures Reaches(p, Sym(At(0), m), Sym(c, t), if m.sp < 4 then 1 else 2) && t.panic == ErrWrite
  {
    hide SymStep, IsFib, Ready, Reaches, Valid, PushValue, Back, StackFree;
    var s := Sym(At(0), m);
    ReachesSelf(p, s);
    StepPush(p, m, 0, 0);
    Go(p, s, s, 0);
    if m.sp == 0 {
      PushBlocked(m, m.regs[0]);
      c, t := At(1), PushValue(m, m.regs[0]);
    } else {
      FreeAt(m.mem, 0, m.sp, 0);
      PushFree(p, m, m.regs[0]);
      var u := PushValue(m, m.regs[0]);
      StepCallBlocked(p, u, 1);
      PushBlocked(u, Back(p, 2));
      Go(p, s, Sym(At(1), u), 1);
      c, t := At(2), PushValue(u, Back(p, 2));
    }
  }

  /** A symbolic run of the program that stops is a machine run to the same state, but for pc
      and what the devices have triggered, and the machine stays there. */
  lemma MachineStops(p: Program, m: State, c: Ctl, t: State, n: nat, schedule: Schedule)
    requires IsFib(p) && Calm(p, m) && m.pc == p.origin && Reaches(p, Sym(At(0), m), Sym(c, t), n)
    requires !Live(t) && |schedule| >= n
    ensures var g := OpenRun(m, schedule); g == t.(pc := g.pc, pending := g.pending)
  {
    hide QuietRun, OpenRun, Loaded, Valid, Offset;
    FibOrigin(p);
    QuietSimulates(p, Sym(At(0), m), m, schedule[..n]);
    assert schedule == schedule[..n] + schedule[n..];
    OpenSplit(m, schedule[..n], schedule[n..]);
    OpenStuck(OpenRun(m, schedule[..n]), schedule[n..]);
  }

  lemma FibOrigin(p: Program)
    requires IsFib(p)
    ensures p.origin + Offset(p.nodes, |p.nodes|) < WORD_LIMIT && AddressOf(p, 0) == p.origin && Place(p, 0)
  {
    hide MapsPrefix, Resolvable, Encodable, AllWellShaped, NodeFits;
  }

  /** What the program comes to: the result when the stack suffices, and a panic on a write when not. */
  ghost predicate Ended(p: Program, m: State, t: State)
    requires IsFib(p) && 32 <= |m.regs|
  {
    if NeededStack(m.regs[0]) <= m.sp then Finished(m, t) else t.panic == ErrWrite
  }

  /** The whole program, assembled, loaded and run by the CPU loop while devices trigger whatever
      they like: after ProgramTurns turns it has halted with Fibonacci of r0 modulo 2^32 in r3,
      if the stack suffices, and has panicked on a write otherwise. */
  lemma FibonacciProgram(p: Program, m: State, schedule: Schedule)
    requires IsFib(p) && Started(p, m) && m.pc == p.origin && |schedule| >= ProgramTurns(m.regs[0], m.sp)
    ensures Ended(p, m, OpenRun(m, schedule))
  {
    hide IsFib, Ready, Reaches, OpenRun, Fib, StackFree, AgreeOutside, ProgramTurns;
    var n := ProgramTurns(m.regs[0], m.sp);
    if NeededStack(m.regs[0]) <= m.sp {
      var t := Completes(p, m);
      MachineStops(p, m, At(6), t, n, schedule);
    } else {
      var c, t := Overflows(p, m);
      MachineStops(p, m, c, t, n, schedule);
    }
  }

  /** Whenever the machine has stopped, it has stopped with the result, or for want of stack. */
  lemma FibonacciEnds(p: Program, m: State, schedule: Schedule)
    requires IsFib(p) && Started(p, m) && m.pc == p.origin && !Live(OpenRun(m, schedule))
    ensures Ended(p, m, OpenRun(m, schedule))
  {
    hide IsFib, Ready, StackFree, Ended, OpenRun, ProgramTurns;
    var more := Silence(ProgramTurns(m.regs[0], m.sp));
    OpenSplit(m, schedule, more);
    OpenStuck(OpenRun(m, schedule), more);
    FibonacciProgram(p, m, schedule + more);
  }

  /** On the stack the machine is reset with, the program is right for every index up to 512
      and for no other. */
  lemma FibonacciOnReset(p: Program, m: State)
    requires IsFib(p) && Started(p, m) && m.pc == p.origin && m.sp == STACK_SIZE
    ensures (exists schedule :: Finished(m, OpenRun(m, schedule))) <==> m.regs[0] <= 512
    ensures m.regs[0] <= 512 ==>
              forall schedule :: |schedule| >= 5 + CallTurns(m.regs[0]) ==> Finished(m, OpenRun(m, schedule))
  {
    hide IsFib, Ready, StackFree, OpenRun, CallTurns, OverflowTurns, Finished, NeededStack;
    ResetNeeds(m.regs[0]);
    if m.regs[0] <= 512 {
      forall schedule: Schedule | |schedule| >= 5 + CallTurns(m.regs[0]) ensures Finished(m, OpenRun(m, schedule)) {
        FibonacciProgram(p, m, schedule);
      }
      var enough := Silence(5 + CallTurns(m.regs[0]));
      assert Finished(m, OpenRun(m, enough));
    } else {
      forall schedule: Schedule ensures !Finished(m, OpenRun(m, schedule)) {
        if Finished(m, OpenRun(m, schedule)) {
          NotBoth(m, OpenRun(m, schedule));
          FibonacciEnds(p, m, schedule);
        }
      }
    }
  }

  lemma ResetNeeds(n: nat)
    ensures NeededStack(n) <= STACK_SIZE <==> n <= 512
  {
  }

  lemma NotBoth(m: State, t: State)
    requires 32 <= |m.regs| && Finished(m, t)
    ensures t.panic == ErrOk && !Live(t)
  {
    hide Fib, AgreeOutside;
  }

  /** Pass 1 accepts the program. */
  lemma FibResolvable()
    ensures Resolvable(FIB)
  {
    hide Offset, DefinesAt;
    NamesDiffer();
    OffsetBound(FIB, 25);
    FibDefines(5, FIBONACCI);
    FibDefines(9, NOT_0);
    FibDefines(13, NOT_1);
    forall i, j, l | 0 <= i < j < |FIB| && DefinesAt(FIB, i, l) ensures !DefinesAt(FIB, j, l) {
      FibDefines(i, l);
      FibDefines(j, l);
    }
    forall k, l | 0 <= k < |FIB| && UsesAt(FIB, k, l) ensures Defined(FIB, l) {
      FibUses(k, l);
    }
  }

  lemma FibUses(k: nat, name: string)
    requires UsesAt(FIB, k, name)
    ensures name == FIBONACCI || name == NOT_0 || name == NOT_1
  {
  }
}
