/** Runs during which devices trigger interrupts: before every turn of the loop some may arrive. */
module OpenRuns {
  import opened Words
  import opened Isa
  import opened FlatMemory
  import opened Interrupts
  import opened Machine

  /** For each turn, the interrupts that are triggered before it. */
  type Schedule = seq<seq<Byte>>

  function SetAll(ws: Bank, arrivals: seq<Byte>): Bank
    decreases |arrivals|
  {
    if arrivals == [] then ws else SetAll(SetBit(ws, arrivals[0]), arrivals[1..])
  }

  lemma {:induction false} SetAllHas(ws: Bank, arrivals: seq<Byte>, j: Byte)
    ensures Has(SetAll(ws, arrivals), j) <==> Has(ws, j) || j in arrivals
    decreases |arrivals|
  {
    hide Has, SetBit;
    if arrivals != [] {
      SetBitHas(ws, arrivals[0], j);
      SetAllHas(SetBit(ws, arrivals[0]), arrivals[1..], j);
    }
  }

  function Arrive(m: State, arrivals: seq<Byte>): State {
    m.(pending := SetAll(m.pending, arrivals))
  }

  function Turn(m: State, arrivals: seq<Byte>): State
    requires Live(m)
  {
    Step(Arrive(m, arrivals))
  }

  /** One turn per entry; a halted or panicked machine stays as it is. */
  function OpenRun(m: State, schedule: Schedule): State
    decreases |schedule|
  {
    if schedule == [] || !Live(m) then m else OpenRun(Turn(m, schedule[0]), schedule[1..])
  }

  lemma {:induction false} OpenSplit(m: State, s: Schedule, t: Schedule)
    ensures OpenRun(m, s + t) == OpenRun(OpenRun(m, s), t)
    decreases |s|
  {
    hide Turn;
    if s == [] {
      assert s + t == t;
    } else if Live(m) {
      assert (s + t)[1..] == s[1..] + t;
      OpenSplit(Turn(m, s[0]), s[1..], t);
    }
  }

  lemma OneTurn(m: State, arrivals: seq<Byte>)
    requires Live(m)
    ensures OpenRun(m, [arrivals]) == Turn(m, arrivals)
  {
    hide Turn;
    assert OpenRun(m, [arrivals]) == OpenRun(Turn(m, arrivals), []);
  }

  lemma {:induction false} OpenStuck(m: State, schedule: Schedule)
    requires !Live(m)
    ensures OpenRun(m, schedule) == m
  {
  }

  /** No device does anything. */
  function Silence(n: nat): (s: Schedule)
    ensures |s| == n
  {
    if n == 0 then [] else [[]] + Silence(n - 1)
  }

  lemma {:induction false} ClosedRun(m: State, n: nat)
    ensures OpenRun(m, Silence(n)) == Run(m, n)
    decreases n
  {
    hide Step;
    if n > 0 && Live(m) {
      assert Silence(n)[1..] == Silence(n - 1);
      ClosedRun(Step(m), n - 1);
    }
  }

  // ---------------------------------------------------------------- execution and pending bits

  /** What an operation does to the pending bits: only INT sets one. */
  function PendingAfter(pending: Bank, op: Op, w: Word): Bank {
    if op.Int? then SetBit(pending, ToBe(w)[1]) else pending
  }

  lemma PutRegBlind(m: State, r: Byte, v: Word, x: Bank)
    requires ValidReg(m, r)
    ensures PutReg(m.(pending := x), r, v) == PutReg(m, r, v).(pending := x)
  {
    if r < REG_IDT {
      assert PutReg(m, r, v) == m.(regs := m.regs[r := v]);
    }
  }

  lemma RegSetBlind(m: State, r: Byte, v: Word, x: Bank)
    ensures RegSet(m.(pending := x), r, v) == RegSet(m, r, v).(pending := x)
  {
    hide PutReg, Signed;
    if ValidReg(m, r) {
      PutRegBlind(m, r, v, x);
    }
  }

  lemma RegGetBlind(m: State, r: Byte, x: Bank)
    ensures RegGet(m.(pending := x), r) == RegGet(m, r)
    ensures ReadReg(m.(pending := x), r) == ReadReg(m, r).(pending := x)
  {
  }

  lemma FetchBlind(m: State, x: Bank)
    ensures Fetch(m.(pending := x)) == Fetch(m).(pending := x) && Fetched(m.(pending := x)) == Fetched(m)
  {
    hide Wrap;
  }

  lemma WriteBlind(m: State, a: Word, v: Word, x: Bank)
    ensures WriteWord(m.(pending := x), a, v) == WriteWord(m, a, v).(pending := x)
  {
  }

  lemma PushValueBlind(m: State, v: Word, x: Bank)
    ensures PushValue(m.(pending := x), v) == PushValue(m, v).(pending := x)
  {
    hide WriteWord;
    var sp := Wrap(m.sp - 4);
    WriteBlind(m.(sp := sp), sp, v, x);
  }

  lemma LoadBlind(m: State, r: Byte, address: Word, x: Bank)
    ensures LoadFrom(m.(pending := x), r, address) == LoadFrom(m, r, address).(pending := x)
  {
    hide RegSet;
    if Readable(m.mem, address) {
      RegSetBlind(m, r, m.mem.cells[address], x);
    }
  }

  lemma CompareBlind(m: State, v: Word, w: Word, x: Bank)
    ensures Compare(m.(pending := x), v, w) == Compare(m, v, w).(pending := x)
  {
    hide Signed, Wrap;
  }

  lemma CallToBlind(m: State, address: Word, x: Bank)
    ensures CallTo(m.(pending := x), address) == CallTo(m, address).(pending := x)
  {
    hide PushValue;
    PushValueBlind(m, m.pc, x);
  }

  lemma PushRegBlind(m: State, r: Byte, x: Bank)
    ensures PushReg(m.(pending := x), r) == PushReg(m, r).(pending := x)
  {
    hide RegGet, PushValue;
    RegGetBlind(m, r, x);
    if RegGet(m, r).Some? {
      PushValueBlind(m.(panic := ErrOk), RegGet(m, r).value, x);
    }
  }

  lemma PopRegBlind(m: State, r: Byte, x: Bank)
    requires Readable(m.mem, m.sp)
    ensures PopReg(m.(pending := x), r) == PopReg(m, r).(pending := x)
  {
    hide RegSet;
    RegSetBlind(m.(sp := Wrap(m.sp + 4)), r, m.mem.cells[m.sp], x);
  }

  lemma {:induction false} PushRegsBlind(m: State, rs: seq<Byte>, x: Bank)
    ensures PushRegs(m.(pending := x), rs) == PushRegs(m, rs).(pending := x)
    decreases |rs|
  {
    hide PushReg;
    if rs != [] {
      PushRegBlind(m, rs[0], x);
      PushRegsBlind(PushReg(m, rs[0]), rs[1..], x);
    }
  }

  lemma {:induction false} PopRegsBlind(m: State, rs: seq<Byte>, x: Bank)
    ensures PopRegs(m.(pending := x), rs) == PopRegs(m, rs).(pending := x)
    decreases |rs|
  {
    hide PopReg;
    if rs != [] && Readable(m.mem, m.sp) {
      PopRegBlind(m, rs[0], x);
      PopRegsBlind(PopReg(m, rs[0]), rs[1..], x);
    }
  }

  lemma StackBlind(m: State, op: Op, a: Byte, b: Byte, c: Byte, x: Bank)
    requires IsStack(op)
    ensures ExecStack(m.(pending := x), op, a, b, c) == ExecStack(m, op, a, b, c).(pending := x)
  {
    hide PushRegs, PopRegs;
    match op
    case PushR => PushRegsBlind(m, [a], x);
    case PushRR => PushRegsBlind(m, [a, b], x);
    case PushRRR => PushRegsBlind(m, [a, b, c], x);
    case Pusha => PushRegsBlind(m, Ascending(0, |m.regs|), x);
    case PopR => PopRegsBlind(m, [a], x);
    case PopRR => PopRegsBlind(m, [a, b], x);
    case PopRRR => PopRegsBlind(m, [a, b, c], x);
    case Popa => PopRegsBlind(m, Descending(|m.regs|), x);
  }

  lemma MovBlind(m: State, src: Src, a: Byte, b: Byte, x: Bank)
    ensures ExecMov(m.(pending := x), src, a, b) == ExecMov(m, src, a, b).(pending := x)
  {
    hide RegSet, RegGet, ReadReg, Fetch, Fetched;
    if src.Imm? {
      FetchBlind(m, x);
      RegSetBlind(Fetch(m), a, Fetched(m), x);
    } else {
      RegGetBlind(m, b, x);
      if RegGet(m, b).Some? {
        RegSetBlind(m, a, RegGet(m, b).value, x);
      }
    }
  }

  lemma AluBlind(m: State, f: AluFn, src: Src, a: Byte, b: Byte, x: Bank)
    ensures ExecAlu(m.(pending := x), f, src, a, b) == ExecAlu(m, f, src, a, b).(pending := x)
  {
    hide RegSet, RegGet, ReadReg, Fetch, Fetched, Compute;
    FetchBlind(m, x);
    var m1 := Fetch(m);
    RegGetBlind(m1, a, x);
    RegGetBlind(m, a, x);
    RegGetBlind(m, b, x);
    if src.Imm? && RegGet(m1, a).Some? {
      RegSetBlind(m1, a, Compute(f, RegGet(m1, a).value, Fetched(m)), x);
    }
    if src.Reg? && RegGet(m, a).Some? && RegGet(m, b).Some? {
      RegSetBlind(m, a, Compute(f, RegGet(m, a).value, RegGet(m, b).value), x);
    }
  }

  lemma StepBlind(m: State, delta: int, a: Byte, x: Bank)
    ensures ExecStep(m.(pending := x), delta, a) == ExecStep(m, delta, a).(pending := x)
  {
    hide RegSet, RegGet, ReadReg, Signed, Wrap;
    RegGetBlind(m, a, x);
    if RegGet(m, a).Some? {
      RegSetBlind(m, a, Wrap(Signed(RegGet(m, a).value) + delta), x);
    }
  }

  lemma LoadsBlind(m: State, a: Byte, b: Byte, x: Bank)
    ensures ExecLoadRR(m.(pending := x), a, b) == ExecLoadRR(m, a, b).(pending := x)
    ensures ExecLoadRW(m.(pending := x), a) == ExecLoadRW(m, a).(pending := x)
    ensures ExecLoadRRW(m.(pending := x), a, b) == ExecLoadRRW(m, a, b).(pending := x)
  {
    hide LoadFrom, RegGet, ReadReg, Fetch, Fetched, Wrap;
    RegGetBlind(m, b, x);
    var m0 := ReadReg(m, b);
    FetchBlind(m, x);
    FetchBlind(m0, x);
    LoadBlind(Fetch(m), a, Fetched(m), x);
    if RegGet(m, b).Some? {
      LoadBlind(m0, a, RegGet(m, b).value, x);
      LoadBlind(Fetch(m0), a, Wrap(RegGet(m, b).value + Fetched(m0)), x);
    }
  }

  lemma RegisterBlind(m: State, op: Op, a: Byte, b: Byte, x: Bank)
    requires WritesRegister(op)
    ensures ExecRegister(m.(pending := x), op, a, b) == ExecRegister(m, op, a, b).(pending := x)
  {
    hide ExecMov, ExecAlu, ExecStep, ExecLoadRR, ExecLoadRW, ExecLoadRRW;
    match op
    case Mov(src) => MovBlind(m, src, a, b, x);
    case Alu(f, src) => AluBlind(m, f, src, a, b, x);
    case Inc => StepBlind(m, 1, a, x);
    case Dec => StepBlind(m, -1, a, x);
    case LoadRR => LoadsBlind(m, a, b, x);
    case LoadRW => LoadsBlind(m, a, b, x);
    case LoadRRW => LoadsBlind(m, a, b, x);
  }

  lemma StorBlind(m: State, src: Src, a: Byte, b: Byte, x: Bank)
    ensures ExecStor(m.(pending := x), src, a, b) == ExecStor(m, src, a, b).(pending := x)
  {
    hide WriteWord, RegGet, ReadReg, Fetch, Fetched;
    FetchBlind(m, x);
    var m1 := Fetch(m);
    RegGetBlind(m1, a, x);
    RegGetBlind(m, a, x);
    RegGetBlind(m, b, x);
    if src.Imm? && RegGet(m1, a).Some? {
      WriteBlind(m1, Fetched(m), RegGet(m1, a).value, x);
    }
    if src.Reg? && RegGet(m, a).Some? && RegGet(m, b).Some? {
      WriteBlind(ReadReg(m, b), RegGet(m, a).value, RegGet(m, b).value, x);
    }
  }

  lemma MemoryBlind(m: State, op: Op, a: Byte, b: Byte, x: Bank)
    requires WritesMemory(op)
    ensures ExecMemory(m.(pending := x), op, a, b) == ExecMemory(m, op, a, b).(pending := x)
  {
    hide ExecStor, PushValue, Fetch, Fetched, Masks, Bitwise;
    match op
    case PushW =>
      FetchBlind(m, x);
      PushValueBlind(Fetch(m), Fetched(m), x);
    case Stor(src) => StorBlind(m, src, a, b, x);
    case Mi =>
    case Umi =>
  }

  lemma JumpBlind(m: State, cond: Cond, kind: AddressKind, x: Bank)
    ensures ExecJump(m.(pending := x), cond, kind) == ExecJump(m, cond, kind).(pending := x)
  {
    hide Fetch, Fetched, Wrap;
    FetchBlind(m, x);
  }

  lemma CallBlind(m: State, kind: AddressKind, x: Bank)
    ensures ExecCall(m.(pending := x), kind) == ExecCall(m, kind).(pending := x)
  {
    hide CallTo, Fetch, Fetched, Wrap;
    FetchBlind(m, x);
    CallToBlind(Fetch(m), if kind.Segment? then Wrap(m.cs + Fetched(m)) else Fetched(m), x);
  }

  lemma CallRBlind(m: State, a: Byte, x: Bank)
    ensures ExecCallR(m.(pending := x), a) == ExecCallR(m, a).(pending := x)
  {
    hide CallTo, RegGet, ReadReg;
    RegGetBlind(m, a, x);
    if RegGet(m, a).Some? {
      CallToBlind(ReadReg(m, a), RegGet(m, a).value, x);
    }
  }

  lemma RetBlind(m: State, x: Bank)
    ensures ExecRet(m.(pending := x)) == ExecRet(m).(pending := x)
    ensures ExecIret(m.(pending := x)) == ExecIret(m).(pending := x)
  {
    hide Wrap;
  }

  lemma ControlBlind(m: State, op: Op, a: Byte, x: Bank)
    requires IsControl(op)
    ensures ExecControl(m.(pending := x), op, a) == ExecControl(m, op, a).(pending := x)
  {
    hide ExecJump, ExecCall, ExecCallR, ExecRet, ExecIret;
    match op
    case Jump(cond, kind) => JumpBlind(m, cond, kind, x);
    case Call(kind) => CallBlind(m, kind, x);
    case CallR => CallRBlind(m, a, x);
    case Ret => RetBlind(m, x);
    case Iret => RetBlind(m, x);
  }

  lemma CmpBlind(m: State, src: Src, a: Byte, b: Byte, x: Bank)
    ensures ExecCmp(m.(pending := x), src, a, b) == ExecCmp(m, src, a, b).(pending := x)
  {
    hide Compare, RegGet, ReadReg, Fetch, Fetched;
    RegGetBlind(m, a, x);
    RegGetBlind(m, b, x);
    var m0 := ReadReg(m, a);
    FetchBlind(m0, x);
    if RegGet(m, a).Some? {
      CompareBlind(Fetch(m0), RegGet(m, a).value, Fetched(m0), x);
      if RegGet(m, b).Some? {
        CompareBlind(ReadReg(m, b), RegGet(m, a).value, RegGet(m, b).value, x);
      }
    }
  }

  lemma OtherBlind(m: State, op: Op, a: Byte, b: Byte, x: Bank)
    ensures ExecOther(m.(pending := x), op, a, b)
         == ExecOther(m, op, a, b).(pending := if op.Int? then SetBit(x, a) else x)
  {
    hide ExecCmp, SetBit;
    if op.Cmp? {
      CmpBlind(m, op.src, a, b, x);
    }
  }

  /** Operations do not look at the pending bits. */
  lemma ExecBlind(m: State, op: Op, w: Word, x: Bank)
    ensures Exec(m.(pending := x), op, w) == Exec(m, op, w).(pending := PendingAfter(x, op, w))
  {
    hide ExecControl, ExecStack, ExecRegister, ExecMemory, ExecOther, SetBit, ToBe;
    var a, b, c := ToBe(w)[1], ToBe(w)[2], ToBe(w)[3];
    if IsControl(op) {
      ControlBlind(m, op, a, x);
    } else if IsStack(op) {
      StackBlind(m, op, a, b, c, x);
    } else if WritesRegister(op) {
      RegisterBlind(m, op, a, b, x);
    } else if WritesMemory(op) {
      MemoryBlind(m, op, a, b, x);
    } else {
      OtherBlind(m, op, a, b, x);
    }
  }

  /** A turn without interrupt does not look at the pending bits and only adds to them. */
  lemma CycleBlind(m: State, x: Bank)
    ensures var g := Cycle(m.(pending := x));
      && g == Cycle(m).(pending := g.pending)
      && (forall j: Byte :: Has(x, j) ==> Has(g.pending, j))
  {
    hide Exec, Decode, ToBe, Has, SetBit;
    var m1 := Fetch(m);
    var d := Decode(ToBe(Fetched(m))[0]);
    assert Fetch(m.(pending := x)) == m1.(pending := x);
    if m1.panic == ErrOk && d.Some? {
      ExecBlind(m1, d.value, Fetched(m), x);
      forall j: Byte ensures Has(x, j) ==> Has(PendingAfter(x, d.value, Fetched(m)), j) {
        SetBitHas(x, ToBe(Fetched(m))[1], j);
      }
    }
  }

  // ---------------------------------------------------------------- what is pending stays pending

  /** The interrupt a turn takes, if it takes one. */
  function TakenIn(m: State, arrivals: seq<Byte>): Option<Byte> {
    var m1 := Arrive(m, arrivals);
    if Interrupted(m1) then Some(First(m1.pending, Masks(m1.mem))) else None
  }

  lemma TurnKeepsPending(m: State, arrivals: seq<Byte>, j: Byte)
    requires Live(m) && (Has(m.pending, j) || j in arrivals) && TakenIn(m, arrivals) != Some(j)
    ensures Has(Turn(m, arrivals).pending, j)
  {
    hide Cycle, Has, Masks, First, ClearBit, Active;
    var m1 := Arrive(m, arrivals);
    var m2 := if Interrupted(m1) then TakeInterrupt(m1) else m1;
    SetAllHas(m.pending, arrivals, j);
    ClearBitHas(m1.pending, First(m1.pending, Masks(m1.mem)), j);
    assert Has(m2.pending, j);
    CycleBlind(m2, m2.pending);
  }

  /** No trigger is lost: what is pending stays pending until it is taken, over every run and
      whatever else arrives. */
  lemma {:induction false} PendingStays(m: State, schedule: Schedule, j: Byte)
    requires Has(m.pending, j)
    requires forall k :: 0 <= k < |schedule| && Live(OpenRun(m, schedule[..k])) ==>
               TakenIn(OpenRun(m, schedule[..k]), schedule[k]) != Some(j)
    ensures Has(OpenRun(m, schedule).pending, j)
    decreases |schedule|
  {
    hide Turn, TakenIn, Has;
    if schedule != [] && Live(m) {
      assert schedule[..0] == [];
      assert OpenRun(m, schedule[..0]) == m;
      TurnKeepsPending(m, schedule[0], j);
      var g := Turn(m, schedule[0]);
      forall k | 0 <= k < |schedule[1..]| && Live(OpenRun(g, schedule[1..][..k]))
        ensures TakenIn(OpenRun(g, schedule[1..][..k]), schedule[1..][k]) != Some(j)
      {
        assert schedule[..k + 1][1..] == schedule[1..][..k];
        assert OpenRun(m, schedule[..k + 1]) == OpenRun(g, schedule[1..][..k]);
      }
      PendingStays(g, schedule[1..], j);
    }
  }
}
