/** Tools to follow one program through its symbolic steps. */
module Execution {
  import opened Words
  import opened Isa
  import opened FlatMemory
  import opened Interrupts
  import opened Machine
  import opened Assembler
  import opened OpenRuns
  import opened Symbolic
  import opened Simulation

  // ---------------------------------------------------------------- runs with interrupts off

  /** n steps, with interrupts off in front of each. */
  ghost function QuietRun(p: Program, s: Sym, n: nat): Option<Sym>
    requires Valid(p)
    decreases n
  {
    if n == 0 then Some(s)
    else if s.m.enabled then None
    else
      var t := SymStep(p, s);
      if t.None? then None else QuietRun(p, t.value, n - 1)
  }

  /** Exactly n quiet steps lead from s to t. */
  ghost predicate Reaches(p: Program, s: Sym, t: Sym, n: nat)
    requires Valid(p)
  {
    QuietRun(p, s, n) == Some(t)
  }

  lemma ReachesSelf(p: Program, s: Sym)
    requires Valid(p)
    ensures Reaches(p, s, s, 0)
  {
  }

  lemma {:induction false} ReachesTransitive(p: Program, s: Sym, t: Sym, u: Sym, a: nat, b: nat)
    requires Valid(p) && Reaches(p, s, t, a) && Reaches(p, t, u, b)
    ensures Reaches(p, s, u, a + b)
    decreases a
  {
    hide SymStep, Valid;
    if a > 0 {
      ReachesTransitive(p, SymStep(p, s).value, t, u, a - 1, b);
    }
  }

  /** One more step at the end of a run. */
  lemma ReachesStep(p: Program, s: Sym, t: Sym, n: nat)
    requires Valid(p) && Reaches(p, s, t, n) && !t.m.enabled && SymStep(p, t).Some?
    ensures Reaches(p, s, SymStep(p, t).value, n + 1)
  {
    hide SymStep, Valid;
    var u := SymStep(p, t).value;
    assert QuietRun(p, t, 1) == QuietRun(p, u, 0);
    ReachesTransitive(p, s, t, u, n, 1);
  }

  /** One turn of the loop, whatever arrives before it, is one quiet step but for pending bits. */
  lemma QuietTurn(p: Program, s: Sym, m: State, arrivals: seq<Byte>)
    requires Valid(p) && Related(p, s, m.(pending := s.m.pending)) && !s.m.enabled && SymStep(p, s).Some?
    ensures Live(m)
    ensures var t := SymStep(p, s).value; Related(p, t, Turn(m, arrivals).(pending := t.m.pending))
  {
    hide SymStep, Cycle, Valid, PcOf, Place, SetAll;
    var m0, m1 := m.(pending := s.m.pending), Arrive(m, arrivals);
    StepSimulates(p, s, m0);
    assert Step(m0) == Cycle(m0) && Step(m1) == Cycle(m1);
    assert m1 == m0.(pending := m1.pending);
    CycleBlind(m0, m1.pending);
  }

  /** With interrupts off the text simulates the machine whatever the devices trigger. */
  lemma {:induction false} QuietSimulates(p: Program, s: Sym, m: State, schedule: Schedule)
    requires Valid(p) && Related(p, s, m.(pending := s.m.pending)) && QuietRun(p, s, |schedule|).Some?
    ensures var t, g := QuietRun(p, s, |schedule|).value, OpenRun(m, schedule);
      && Related(p, t, g.(pending := t.m.pending))
      && g == t.m.(pc := PcOf(p, t.ctl), pending := g.pending)
    decreases |schedule|
  {
    hide SymStep, Turn, Valid, PcOf, Place;
    if schedule != [] {
      QuietTurn(p, s, m, schedule[0]);
      QuietSimulates(p, SymStep(p, s).value, Turn(m, schedule[0]), schedule[1..]);
    }
  }

  /** The machine can take a step of p: alive, interrupts off, program text in place. */
  ghost predicate Ready(p: Program, m: State)
    requires Valid(p)
  {
    Live(m) && !m.enabled && Loaded(p, m.mem)
  }

  lemma StepIsExecute(p: Program, k: nat, m: State)
    requires Valid(p) && Ready(p, m) && k < |p.nodes| && p.nodes[k].Ins?
    ensures SymStep(p, Sym(At(k), m)) == Execute(p, k, m)
  {
    hide Execute, Loaded;
  }

  // ---------------------------------------------------------------- checking a program text

  predicate Known(name: string) {
    RegisterId(name).Some? && name != "cp"
  }

  /** The operands of an instruction are what its operation declares, and all names are known. */
  predicate Checked(i: Instruction, labels: Labels) {
    match i
    case I(op) => Args(op) == []
    case IA(op, name, kind) => name in labels && Args(op) == KindArgs(kind)
    case IR(op, r) => Known(r) && Args(op) == [R]
    case IRW(op, r, _) => Known(r) && Args(op) == [R, W]
    case IRR(op, r, r2) => Known(r) && Known(r2) && Args(op) == [R, R]
    case _ => false
  }

  ghost predicate NodeChecked(p: Program, k: nat)
    requires k < |p.nodes|
  {
    && !p.nodes[k].Data?
    && (p.nodes[k].Ins? ==> Checked(p.nodes[k].i, p.labels))
    && (p.nodes[k].Ins? && p.nodes[k].i.IA? && p.nodes[k].i.kind.Absolute? ==> BaseAt(p.nodes, k) == p.origin)
  }

  /** What a valid program asks of each instruction: declared operands, known names, and no
      address beyond 4 GB. */
  ghost predicate NodeValid(p: Program, k: nat)
    requires k < |p.nodes|
  {
    p.nodes[k].Ins? ==>
      var i := p.nodes[k].i;
      WellShaped(i) && RegistersKnown(i) && AddressKnown(i, p.labels, BaseAt(p.nodes, k)) && NodeFits(p, k)
  }

  lemma NodeEncodes(p: Program, k: nat)
    requires k < |p.nodes|
    ensures NodeValid(p, k)
       <==> EncodeNode(p.nodes, k, p.labels).Ok? && (p.nodes[k].Ins? ==> WellShaped(p.nodes[k].i)) && NodeFits(p, k)
  {
    hide EncodeIns, BaseAt, WellShaped, RegistersKnown, AddressKnown;
    if p.nodes[k].Ins? {
      EncodeSucceeds(p.nodes[k].i, p.labels, BaseAt(p.nodes, k));
    }
  }

  /** A text that fits, with the labels pass 1 gives it, is valid exactly when each of its
      instructions is. */
  lemma ValidNodes(p: Program)
    requires Unique(p.nodes, |p.nodes|) && MapsPrefix(p.nodes, |p.nodes|, p.labels)
    requires p.origin + Offset(p.nodes, |p.nodes|) < WORD_LIMIT
    ensures Valid(p) <==> forall k :: 0 <= k < |p.nodes| ==> NodeValid(p, k)
  {
    hide NodeValid, EncodeNode, WellShaped, NodeFits, Offset, Unique;
    forall k | 0 <= k < |p.nodes|
      ensures NodeValid(p, k)
         <==> EncodeNode(p.nodes, k, p.labels).Ok? && (p.nodes[k].Ins? ==> WellShaped(p.nodes[k].i)) && NodeFits(p, k)
    {
      NodeEncodes(p, k);
    }
    forall k, l | 0 <= k < |p.nodes| && UsesAt(p.nodes, k, l) && NodeValid(p, k) ensures Defined(p.nodes, l) {
      UseDefined(p, k);
    }
  }

  lemma UseDefined(p: Program, k: nat)
    requires k < |p.nodes| && NodeValid(p, k) && MapsPrefix(p.nodes, |p.nodes|, p.labels)
    requires p.nodes[k].Ins? && p.nodes[k].i.IA?
    ensures Defined(p.nodes, p.nodes[k].i.name)
  {
  }

  lemma {:induction false} OffsetBound(nodes: seq<Node>, k: nat)
    requires k <= |nodes|
    ensures Offset(nodes, k) <= 8 * k
  {
    hide Length;
    if k > 0 {
      OffsetBound(nodes, k - 1);
      if nodes[k - 1].Ins? {
        LengthIsWords(nodes[k - 1].i.op);
      }
    }
  }

  /** A text whose nodes check out assembles, given the map of its labels. */
  lemma CheckedIsValid(p: Program)
    requires Unique(p.nodes, |p.nodes|) && MapsPrefix(p.nodes, |p.nodes|, p.labels)
    requires p.origin + 8 * |p.nodes| < WORD_LIMIT
    requires forall k :: 0 <= k < |p.nodes| ==> NodeChecked(p, k)
    ensures Valid(p)
  {
    hide Checked, NodeChecked, NodeValid, BaseAt;
    OffsetBound(p.nodes, |p.nodes|);
    forall l | l in p.labels ensures p.origin + p.labels[l] < WORD_LIMIT {
      var k :| 0 <= k < |p.nodes| && DefinesAt(p.nodes, k, l);
      OffsetBound(p.nodes, k);
    }
    forall k | 0 <= k < |p.nodes| ensures NodeValid(p, k) {
      CheckedNode(p, k);
    }
    ValidNodes(p);
  }

  lemma CheckedNode(p: Program, k: nat)
    requires k < |p.nodes| && NodeChecked(p, k)
    requires forall l :: l in p.labels ==> p.origin + p.labels[l] < WORD_LIMIT
    ensures NodeValid(p, k)
  {
    hide RegisterId, BaseAt;
  }

  // ---------------------------------------------------------------- memory between two addresses

  /** g differs from f at most at the addresses in [lo, hi). */
  predicate AgreeOutside(f: Flat, g: Flat, lo: int, hi: int) {
    SameShape(f, g) && forall a :: a in f.cells && !(lo <= a < hi) ==> g.cells[a] == f.cells[a]
  }

  lemma AgreeTransitive(f: Flat, g: Flat, h: Flat, lo: int, hi: int)
    requires AgreeOutside(f, g, lo, hi) && AgreeOutside(g, h, lo, hi)
    ensures AgreeOutside(f, h, lo, hi)
  {
  }

  lemma PutAgrees(f: Flat, a: Word, v: Word, lo: int, hi: int)
    requires a in f.cells && lo <= a < hi
    ensures AgreeOutside(f, Put(f, a, v), lo, hi)
  {
    assert Put(f, a, v).cells.Keys == f.cells.Keys;
  }

  lemma AgreeWidens(f: Flat, g: Flat, lo: int, hi: int, lo2: int, hi2: int)
    requires AgreeOutside(f, g, lo, hi) && lo2 <= lo && hi <= hi2
    ensures AgreeOutside(f, g, lo2, hi2)
  {
  }

  /** Changes below the program leave its text in place. */
  lemma StillLoaded(p: Program, f: Flat, g: Flat, lo: int, hi: int)
    requires Valid(p) && Loaded(p, f) && AgreeOutside(f, g, lo, hi) && hi <= p.origin
    ensures Loaded(p, g)
  {
    hide ImmediateOf, FirstWord, Resolvable, Encodable, MapsPrefix;
    forall k | 0 <= k < |p.nodes| ensures NodeLoaded(p, g, k) {
      assert NodeLoaded(p, f, k);
      if p.nodes[k].Ins? {
        NoWrap(p, k);
      }
    }
  }

  /** The second word of an instruction does not wrap around. */
  lemma NoWrap(p: Program, k: nat)
    requires Valid(p) && k < |p.nodes| && p.nodes[k].Ins?
    ensures ImmediateOf(p, k).Some? ==> Wrap(AddressOf(p, k) + 4) == AddressOf(p, k) + 4
  {
    hide Resolvable, Encodable, MapsPrefix, Length, ImmediateOf, HasImmediate;
    OffsetMonotone(p.nodes, k + 1, |p.nodes|);
    LengthIsWords(p.nodes[k].i.op);
  }

  // ---------------------------------------------------------------- arithmetic

  /** Arithmetic through signed casts is arithmetic modulo 2^32 on the words. */
  lemma ComputeIsModular(x: Word, y: Word)
    ensures Compute(Add, x, y) == Wrap(x + y)
    ensures Compute(Sub, x, y) == Wrap(x - y)
    ensures Compute(Mul, x, y) == Wrap(x * y)
  {
    hide Wrap, Signed;
    SignedCongruent(x);
    SignedCongruent(y);
    var p, q := if x == Signed(x) then 0 else 1, if y == Signed(y) then 0 else 1;
    WrapSum(x + y, Signed(x) + Signed(y), p + q);
    WrapSum(x - y, Signed(x) - Signed(y), p - q);
    WrapProduct(Signed(x), Signed(y), p, q);
  }

  /** CMP sets the zero flag exactly on equal operands, and the negative flag to signed
      less-than exactly when the true difference fits in 32 bits. */
  lemma CompareFlags(m: State, x: Word, y: Word)
    ensures Compare(m, x, y).zero <==> x == y
    ensures (Compare(m, x, y).negative <==> Signed(x) < Signed(y))
            <==> -0x8000_0000 <= Signed(x) as int - Signed(y) as int < 0x8000_0000
  {
  }

  /** The least number compares as not less than one. */
  lemma CompareOverflows(m: State)
    ensures Signed(0x8000_0000) < Signed(1) && !Compare(m, 0x8000_0000, 1).negative
  {
  }

  lemma WrapProduct(a: int, b: int, p: int, q: int)
    ensures Wrap((a + p * WORD_LIMIT) * (b + q * WORD_LIMIT)) == Wrap(a * b)
  {
    var n := a * q + p * b + p * q * WORD_LIMIT;
    assert (a + p * WORD_LIMIT) * (b + q * WORD_LIMIT) == a * b + n * WORD_LIMIT;
    WrapSum((a + p * WORD_LIMIT) * (b + q * WORD_LIMIT), a * b, n);
  }

  lemma SignedCongruent(x: Word)
    ensures x == Signed(x) || x == Signed(x) + WORD_LIMIT
  {
  }

  lemma WrapSum(a: int, b: int, q: int)
    requires a == b + q * WORD_LIMIT
    ensures Wrap(a) == Wrap(b)
  {
  }

  // ---------------------------------------------------------------- single instructions

  /** The instruction at k is i, and the machine can execute it. */
  ghost predicate AtIns(p: Program, k: nat, i: Instruction)
    requires Valid(p)
  {
    k < |p.nodes| && p.nodes[k] == Ins(i)
  }

  predicate General(m: State, name: string, r: Byte) {
    RegisterId(name) == Some(r) && r < |m.regs| && r < REG_IDT
  }

  function WithReg(m: State, r: Byte, v: Word): State
    requires r < |m.regs|
  {
    SetFlags(m.(regs := m.regs[r := v]), v)
  }

  lemma GeneralVal(m: State, name: string, r: Byte)
    requires General(m, name, r)
    ensures RegGet(m, r) == Some(m.regs[r]) && Val(m, r) == m.regs[r]
  {
  }

  /** Where pc stands while a general register is set does not matter. */
  lemma SetAnywhere(m: State, name: string, r: Byte, v: Word, x: Word)
    requires General(m, name, r) && m.panic == ErrOk
    ensures RegSet(m.(pc := x), r, v).(pc := m.pc) == WithReg(m, r, v)
  {
    hide RegisterId, Signed;
  }

  lemma ValAnywhere(m: State, r: Byte, x: Word)
    requires r != REG_PC
    ensures Val(m.(pc := x), r) == Val(m, r)
  {
  }

  lemma KnownVal(m: State, name: string, x: Word)
    requires Known(name)
    ensures Val(m.(pc := x), RegisterId(name).value) == Val(m, RegisterId(name).value)
  {
    hide RegisterId;
    RegisterIds(name);
    ValAnywhere(m, RegisterId(name).value, x);
  }

  lemma DoPush(p: Program, k: nat, m: State, name: string, r: Byte)
    requires Valid(p) && AtIns(p, k, IR(PushR, name)) && General(m, name, r) && m.panic == ErrOk
    ensures Execute(p, k, m) == Some(Sym(At(Next(p, k)), PushValue(m, m.regs[r])))
  {
    hide PushValue, Valid, RegisterId, RegGet, Val, PcSeen;
    var seen := m.(pc := PcSeen(p, k));
    GeneralVal(seen, name, r);
    PushValuePc(m, m.regs[r], PcSeen(p, k));
    PushKeepsPc(m, m.regs[r]);
    assert PushReg(seen, r) == PushValue(seen, m.regs[r]);
    assert PushRegs(seen, [r]) == PushRegs(PushReg(seen, r), []);
  }

  lemma PushKeepsPc(m: State, v: Word)
    ensures PushValue(m, v).pc == m.pc
  {
  }

  lemma DoPop(p: Program, k: nat, m: State, name: string, r: Byte)
    requires Valid(p) && AtIns(p, k, IR(PopR, name)) && General(m, name, r) && m.panic == ErrOk
    requires Readable(m.mem, m.sp)
    ensures Execute(p, k, m) == Some(Sym(At(Next(p, k)), WithReg(m.(sp := Wrap(m.sp + 4)), r, m.mem.cells[m.sp])))
  {
    hide Valid, RegisterId, RegSet, WithReg, PcSeen, EffectAt, Execute, Wrap;
    var seen := m.(pc := PcSeen(p, k));
    SetAnywhere(m.(sp := Wrap(m.sp + 4)), name, r, m.mem.cells[m.sp], PcSeen(p, k));
    DataExecute(p, k, m);
    assert EffectAt(p, k, m) == PopReg(seen, r) by {
      PopEffect(p, k, m, name, r);
    }
  }

  lemma PopEffect(p: Program, k: nat, m: State, name: string, r: Byte)
    requires Valid(p) && AtIns(p, k, IR(PopR, name)) && General(m, name, r) && Readable(m.mem, m.sp)
    ensures EffectAt(p, k, m) == PopReg(m.(pc := PcSeen(p, k)), r)
  {
    hide Valid, RegisterId, RegSet, PcSeen;
    var seen := m.(pc := PcSeen(p, k));
    assert PopRegs(seen, [r]) == PopRegs(PopReg(seen, r), []);
  }

  lemma DoMov(p: Program, k: nat, m: State, name: string, r: Byte, name2: string)
    requires Valid(p) && AtIns(p, k, IRR(Mov(Reg), name, name2)) && General(m, name, r) && m.panic == ErrOk
    requires Known(name2)
    ensures Execute(p, k, m) == Some(Sym(At(Next(p, k)), WithReg(m, r, Val(m, RegisterId(name2).value))))
  {
    hide Valid, RegisterId, RegSet, WithReg, Val, PcSeen;
    KnownVal(m, name2, PcSeen(p, k));
    SetAnywhere(m, name, r, Val(m, RegisterId(name2).value), PcSeen(p, k));
  }

  lemma DoAluImm(p: Program, k: nat, m: State, f: AluFn, name: string, r: Byte, w: Word)
    requires Valid(p) && AtIns(p, k, IRW(Alu(f, Imm), name, w)) && General(m, name, r) && m.panic == ErrOk
    ensures Execute(p, k, m) == Some(Sym(At(Next(p, k)), WithReg(m, r, Compute(f, m.regs[r], w))))
  {
    hide Valid, RegisterId, RegSet, WithReg, Val, Compute, PcSeen;
    GeneralVal(m.(pc := PcSeen(p, k)), name, r);
    SetAnywhere(m, name, r, Compute(f, m.regs[r], w), PcSeen(p, k));
  }

  lemma DoAluReg(p: Program, k: nat, m: State, f: AluFn, name: string, r: Byte, name2: string)
    requires Valid(p) && AtIns(p, k, IRR(Alu(f, Reg), name, name2)) && General(m, name, r) && m.panic == ErrOk
    requires Known(name2)
    ensures Execute(p, k, m)
         == Some(Sym(At(Next(p, k)), WithReg(m, r, Compute(f, m.regs[r], Val(m, RegisterId(name2).value)))))
  {
    hide Valid, RegisterId, RegSet, WithReg, Val, Compute, PcSeen;
    GeneralVal(m.(pc := PcSeen(p, k)), name, r);
    KnownVal(m, name2, PcSeen(p, k));
    SetAnywhere(m, name, r, Compute(f, m.regs[r], Val(m, RegisterId(name2).value)), PcSeen(p, k));
  }

  lemma DoDec(p: Program, k: nat, m: State, name: string, r: Byte)
    requires Valid(p) && AtIns(p, k, IR(Dec, name)) && General(m, name, r) && m.panic == ErrOk
    ensures Execute(p, k, m) == Some(Sym(At(Next(p, k)), WithReg(m, r, Wrap(m.regs[r] as int - 1))))
  {
    hide Valid, RegisterId, RegSet, WithReg, Val, Wrap, PcSeen;
    GeneralVal(m.(pc := PcSeen(p, k)), name, r);
    SetAnywhere(m, name, r, Wrap(m.regs[r] as int - 1), PcSeen(p, k));
  }

  lemma DoCmpImm(p: Program, k: nat, m: State, name: string, r: Byte, w: Word)
    requires Valid(p) && AtIns(p, k, IRW(Cmp(Imm), name, w)) && General(m, name, r)
    ensures Execute(p, k, m) == Some(Sym(At(Next(p, k)), Compare(m, m.regs[r], w)))
    ensures Compare(m, m.regs[r], w).zero == (m.regs[r] == w)
  {
    hide Valid, RegisterId, Val, Compute, Wrap, Signed, PcSeen;
    GeneralVal(m.(pc := PcSeen(p, k)), name, r);
    CompareFlags(m, m.regs[r], w);
  }

  lemma DoLoad(p: Program, k: nat, m: State, name: string, r: Byte)
    requires Valid(p) && AtIns(p, k, IRR(LoadRR, name, name)) && General(m, name, r) && m.panic == ErrOk
    requires Readable(m.mem, m.regs[r])
    ensures Execute(p, k, m) == Some(Sym(At(Next(p, k)), WithReg(m, r, m.mem.cells[m.regs[r]])))
  {
    hide Valid, RegisterId, RegSet, WithReg, Val, PcSeen;
    GeneralVal(m.(pc := PcSeen(p, k)), name, r);
    SetAnywhere(m, name, r, m.mem.cells[m.regs[r]], PcSeen(p, k));
  }

  /** A conditional or unconditional jump to a label of the program. */
  lemma DoJump(p: Program, k: nat, m: State, cond: Cond, kind: AddressKind, name: string, d: nat)
    requires Valid(p) && AtIns(p, k, IA(Jump(cond, kind), name, kind)) && DefinesAt(p.nodes, d, name)
    requires kind.Segment? ==> m.cs == p.origin
    ensures Execute(p, k, m) == Some(Sym(At(if Taken(m, cond) then Skip(p.nodes, d) else Next(p, k)), m))
    ensures Taken(m, cond) <==> cond == Always || (cond == IfZero && m.zero) || (cond == IfNotZero && !m.zero)
  {
    hide Valid;
    TargetIs(p, name, d);
  }

  lemma DoCall(p: Program, k: nat, m: State, kind: AddressKind, name: string, d: nat)
    requires Valid(p) && AtIns(p, k, IA(Call(kind), name, kind)) && DefinesAt(p.nodes, d, name)
    requires kind.Segment? ==> m.cs == p.origin
    ensures Execute(p, k, m) == Some(SymCall(m, AddressOf(p, Next(p, k)), At(Next(p, k)), At(Skip(p.nodes, d))))
  {
    hide SymCall;
    TargetIs(p, name, d);
  }

  lemma DoCallR(p: Program, k: nat, m: State, name: string, r: Byte)
    requires Valid(p) && AtIns(p, k, IR(CallR, name)) && General(m, name, r)
    ensures Execute(p, k, m) == Some(SymCall(m, AddressOf(p, Next(p, k)), At(Next(p, k)), Where(p, m.regs[r])))
  {
    hide SymCall, Val, RegisterId, Where, PcSeen;
    GeneralVal(m.(pc := PcSeen(p, k)), name, r);
  }

  lemma DoRet(p: Program, k: nat, m: State)
    requires Valid(p) && AtIns(p, k, I(Ret)) && Readable(m.mem, m.sp)
    ensures Execute(p, k, m) == Some(Sym(Where(p, m.mem.cells[m.sp]), m.(sp := Wrap(m.sp + 4))))
  {
    hide Where, Valid;
  }

  lemma DoIret(p: Program, k: nat, m: State)
    requires Valid(p) && AtIns(p, k, I(Iret)) && Readable(m.mem, m.sp) && m.panic == ErrOk
    ensures Execute(p, k, m) == Some(Sym(Where(p, m.mem.cells[m.sp]), m.(sp := Wrap(m.sp + 4), enabled := true)))
  {
    hide Where, Valid;
  }

  lemma DoHalt(p: Program, k: nat, m: State)
    requires Valid(p) && AtIns(p, k, I(Halt))
    ensures Execute(p, k, m) == Some(Sym(At(Next(p, k)), m.(running := false)))
  {
    hide Valid;
  }

  /** A push onto a writable word. */
  lemma PushOk(m: State, v: Word)
    requires Writable(m.mem, Wrap(m.sp - 4)) && m.panic == ErrOk
    ensures PushValue(m, v) == m.(sp := Wrap(m.sp - 4), mem := Put(m.mem, Wrap(m.sp - 4), v))
    ensures PushValue(m, v).panic == ErrOk
  {
  }

  lemma SymCallOk(m: State, back: Word, next: Ctl, target: Ctl)
    requires Writable(m.mem, Wrap(m.sp - 4)) && m.panic == ErrOk
    ensures SymCall(m, back, next, target) == Sym(target, PushValue(m, back))
  {
  }
}
