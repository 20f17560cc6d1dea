/** What a turn of the CPU loop may write, and what no run ever writes. */
module Footprint {
  import opened Words
  import opened Isa
  import opened Arch
  import opened FlatMemory
  import opened Interrupts
  import opened Machine
  import opened OpenRuns

  /** The interrupt mask is mapped where the PIC keeps it, and writable. */
  predicate MaskMapped(f: Flat) {
    forall k :: 0 <= k < 8 ==> Writable(f, IMASK_ADDRESS + 4 * k)
  }

  /** t maps what m maps, and differs from m at most in writable words listed in at. */
  predicate Kept(f: Flat, g: Flat, at: set<Word>) {
    && SameShape(f, g)
    && (forall a :: a in f.cells && (a !in at || a in f.readOnly) ==> g.cells[a] == f.cells[a])
  }

  function Below(sp: Word, n: nat): set<Word> {
    if n == 0 then {} else {Wrap(sp - 4 * n)} + Below(sp, n - 1)
  }

  lemma WrapBelow(sp: Word, n: nat)
    ensures Wrap(Wrap(sp - 4) - 4 * n) == Wrap(sp - 4 * (n + 1))
  {
  }

  lemma {:induction false} BelowNext(sp: Word, n: nat)
    ensures Below(sp, n + 1) == {Wrap(sp - 4)} + Below(Wrap(sp - 4), n)
  {
    hide Wrap;
    if n > 0 {
      BelowNext(sp, n - 1);
      WrapBelow(sp, n);
      assert Below(sp, n + 1) == {Wrap(sp - 4 * (n + 1))} + Below(sp, n);
    }
  }

  /** The words an operation is meant to write: pushed words, a stored word, a mask word. */
  function Targets(m: State, op: Op, w: Word): set<Word> {
    var a := ToBe(w)[1];
    match op
    case PushR => Below(m.sp, 1)
    case PushRR => Below(m.sp, 2)
    case PushRRR => Below(m.sp, 3)
    case Pusha => Below(m.sp, |m.regs|)
    case PushW => Below(m.sp, 1)
    case Call(_) => Below(m.sp, 1)
    case CallR => Below(m.sp, 1)
    case Stor(src) => if src.Imm? then {Fetched(m)} else if RegGet(m, a).Some? then {RegGet(m, a).value} else {}
    case Mi => {IMASK_ADDRESS + 4 * (a / 32)}
    case Umi => {IMASK_ADDRESS + 4 * (a / 32)}
    case _ => {}
  }

  lemma WriteWordKept(m: State, a: Word, v: Word, at: set<Word>)
    requires a in at
    ensures Kept(m.mem, WriteWord(m, a, v).mem, at)
  {
    assert a in m.mem.cells ==> m.mem.cells[a := v].Keys == m.mem.cells.Keys;
  }

  lemma KeptTransitive(f: Flat, g: Flat, h: Flat, at: set<Word>)
    requires Kept(f, g, at) && Kept(g, h, at)
    ensures Kept(f, h, at)
  {
  }

  lemma KeptWidens(f: Flat, g: Flat, at: set<Word>, wide: set<Word>)
    requires Kept(f, g, at) && at <= wide
    ensures Kept(f, g, wide)
  {
  }

  lemma PushValueKept(m: State, v: Word, at: set<Word>)
    requires Wrap(m.sp - 4) in at
    ensures Kept(m.mem, PushValue(m, v).mem, at)
    ensures PushValue(m, v).sp == Wrap(m.sp - 4)
  {
    WriteWordKept(m.(sp := Wrap(m.sp - 4)), Wrap(m.sp - 4), v, at);
  }

  lemma {:induction false} BelowMonotone(sp: Word, n: nat)
    ensures Below(sp, n) <= Below(sp, n + 1)
  {
  }

  lemma {:induction false} PushRegsKept(m: State, rs: seq<Byte>)
    ensures Kept(m.mem, PushRegs(m, rs).mem, Below(m.sp, |rs|))
    decreases |rs|
  {
    hide PushValue, RegGet, Kept;
    if rs == [] {
      KeptSelf(m.mem, {});
    } else {
      var m1 := PushReg(m, rs[0]);
      PushRegsKept(m1, rs[1..]);
      BelowNext(m.sp, |rs| - 1);
      if RegGet(m, rs[0]).Some? {
        PushValueKept(m.(panic := ErrOk), RegGet(m, rs[0]).value, Below(m.sp, |rs|));
        KeptWidens(m1.mem, PushRegs(m, rs).mem, Below(m1.sp, |rs| - 1), Below(m.sp, |rs|));
        KeptTransitive(m.mem, m1.mem, PushRegs(m, rs).mem, Below(m.sp, |rs|));
      } else {
        BelowMonotone(m.sp, |rs| - 1);
        KeptWidens(m1.mem, PushRegs(m, rs).mem, Below(m.sp, |rs| - 1), Below(m.sp, |rs|));
      }
    }
  }

  lemma KeptSelf(f: Flat, at: set<Word>)
    ensures Kept(f, f, at)
  {
  }

  lemma {:induction false} PopRegsKept(m: State, rs: seq<Byte>)
    ensures PopRegs(m, rs).mem == m.mem
    decreases |rs|
  {
    if rs != [] && Readable(m.mem, m.sp) {
      PopRegsKept(PopReg(m, rs[0]), rs[1..]);
    }
  }

  lemma StackKept(m: State, op: Op, w: Word)
    requires IsStack(op)
    ensures Kept(m.mem, ExecStack(m, op, ToBe(w)[1], ToBe(w)[2], ToBe(w)[3]).mem, Targets(m, op, w))
  {
    hide PushRegs, PopRegs, ToBe, Below, Kept;
    var a, b, c := ToBe(w)[1], ToBe(w)[2], ToBe(w)[3];
    KeptSelf(m.mem, {});
    match op
    case PushR => PushRegsKept(m, [a]);
    case PushRR => PushRegsKept(m, [a, b]);
    case PushRRR => PushRegsKept(m, [a, b, c]);
    case Pusha => PushRegsKept(m, Ascending(0, |m.regs|));
    case PopR => PopRegsKept(m, [a]);
    case PopRR => PopRegsKept(m, [a, b]);
    case PopRRR => PopRegsKept(m, [a, b, c]);
    case Popa => PopRegsKept(m, Descending(|m.regs|));
  }

  lemma RegSetMem(m: State, r: Byte, v: Word)
    ensures RegSet(m, r, v).mem == m.mem
  {
  }

  lemma RegisterKept(m: State, op: Op, a: Byte, b: Byte)
    requires WritesRegister(op)
    ensures ExecRegister(m, op, a, b).mem == m.mem
  {
    hide RegSet, Compute, RegGet, Wrap, Signed;
    forall t: State, r: Byte, v: Word ensures RegSet(t, r, v).mem == t.mem {
      RegSetMem(t, r, v);
    }
  }

  lemma OneBelow(sp: Word)
    ensures Below(sp, 1) == {Wrap(sp - 4)}
  {
  }

  lemma ControlKept(m: State, op: Op, w: Word)
    requires IsControl(op)
    ensures Kept(m.mem, ExecControl(m, op, ToBe(w)[1]).mem, Targets(m, op, w))
  {
    hide PushValue, ToBe, Below, RegGet, Kept;
    KeptSelf(m.mem, {});
    KeptSelf(m.mem, Below(m.sp, 1));
    OneBelow(m.sp);
    forall t: State, v: Word | t.mem == m.mem && t.sp == m.sp ensures Kept(m.mem, PushValue(t, v).mem, Below(m.sp, 1)) {
      PushValueKept(t, v, Below(m.sp, 1));
    }
  }

  lemma MaskKept(m: State, i: Byte, masked: bool)
    requires MaskMapped(m.mem)
    ensures Kept(m.mem, ExecMask(m, i, masked).mem, {IMASK_ADDRESS + 4 * (i / 32)})
  {
    hide Masks, Bitwise;
    var a := IMASK_ADDRESS + 4 * (i / 32);
    assert Writable(m.mem, IMASK_ADDRESS + 4 * (i / 32));
    var v := Bitwise(if masked then Or else AndNot, Masks(m.mem)[i / 32], BitOf(i));
    assert m.mem.cells[a := v].Keys == m.mem.cells.Keys;
  }

  lemma MemoryKept(m: State, op: Op, w: Word)
    requires WritesMemory(op) && MaskMapped(m.mem)
    ensures Kept(m.mem, ExecMemory(m, op, ToBe(w)[1], ToBe(w)[2]).mem, Targets(m, op, w))
  {
    hide PushValue, WriteWord, ToBe, Below, RegGet, Kept, ExecMask;
    var a, b := ToBe(w)[1], ToBe(w)[2];
    KeptSelf(m.mem, Targets(m, op, w));
    match op
    case PushW =>
      OneBelow(m.sp);
      PushValueKept(Fetch(m), Fetched(m), Below(m.sp, 1));
    case Stor(src) =>
      forall t: State, at: Word, v: Word | t.mem == m.mem ensures Kept(m.mem, WriteWord(t, at, v).mem, {at}) {
        WriteWordKept(t, at, v, {at});
      }
    case Mi => MaskKept(m, a, true);
    case Umi => MaskKept(m, a, false);
  }

  /** An operation changes no word but its targets, and no word of a read-only zone. */
  lemma ExecKept(m: State, op: Op, w: Word)
    requires MaskMapped(m.mem)
    ensures Kept(m.mem, Exec(m, op, w).mem, Targets(m, op, w))
  {
    hide ExecControl, ExecStack, ExecRegister, ExecMemory, ToBe, Kept, Compare;
    if IsControl(op) {
      ControlKept(m, op, w);
    } else if IsStack(op) {
      StackKept(m, op, w);
    } else if WritesRegister(op) {
      RegisterKept(m, op, ToBe(w)[1], ToBe(w)[2]);
      KeptSelf(m.mem, Targets(m, op, w));
    } else if WritesMemory(op) {
      MemoryKept(m, op, w);
    } else {
      OtherKept(m, op, ToBe(w)[1], ToBe(w)[2]);
      KeptSelf(m.mem, Targets(m, op, w));
    }
  }

  lemma OtherKept(m: State, op: Op, a: Byte, b: Byte)
    ensures ExecOther(m, op, a, b).mem == m.mem
  {
    hide RegGet, Wrap, Signed, SetBit;
  }

  /** The words one turn of the loop is meant to write: the saved pc of an interrupt, and the
      targets of the instruction. */
  function StepTargets(m: State): set<Word>
    requires Live(m)
  {
    var m1 := if Interrupted(m) then TakeInterrupt(m) else m;
    var saved := if Interrupted(m) then {Wrap(m.sp - 4)} else {};
    var m2 := Fetch(m1);
    var d := Decode(ToBe(Fetched(m1))[0]);
    if m2.panic == ErrOk && d.Some? then saved + Targets(m2, d.value, Fetched(m1)) else saved
  }

  lemma StepKept(m: State)
    requires Live(m) && MaskMapped(m.mem)
    ensures Kept(m.mem, Step(m).mem, StepTargets(m))
  {
    hide Exec, Targets, PushValue, Active, Decode, ToBe, ClearBit, Kept, Masks, First;
    var at := StepTargets(m);
    var m1 := if Interrupted(m) then TakeInterrupt(m) else m;
    KeptSelf(m.mem, at);
    if Interrupted(m) {
      var i := First(m.pending, Masks(m.mem));
      PushValueKept(m.(enabled := false, ir := i, pending := ClearBit(m.pending, i)), m.pc, at);
    }
    MaskStays(m.mem, m1.mem, at);
    var m2 := Fetch(m1);
    var d := Decode(ToBe(Fetched(m1))[0]);
    if m2.panic == ErrOk && d.Some? {
      ExecKept(m2, d.value, Fetched(m1));
      KeptWidens(m2.mem, Step(m).mem, Targets(m2, d.value, Fetched(m1)), at);
      KeptTransitive(m.mem, m1.mem, Step(m).mem, at);
    }
  }

  lemma MaskStays(f: Flat, g: Flat, at: set<Word>)
    requires MaskMapped(f) && Kept(f, g, at)
    ensures MaskMapped(g)
  {
    forall k | 0 <= k < 8 ensures Writable(g, IMASK_ADDRESS + 4 * k) {
      assert Writable(f, IMASK_ADDRESS + 4 * k);
    }
  }

  /** Over every run, of any program and with any triggers from devices: the memory map stays
      as it is and no word of a read-only zone changes. */
  lemma {:induction false} RunKeepsReadOnly(m: State, schedule: Schedule)
    requires MaskMapped(m.mem)
    ensures var g := OpenRun(m, schedule).mem;
      && SameShape(m.mem, g) && MaskMapped(g)
      && (forall a :: a in m.mem.cells && a in m.mem.readOnly ==> g.cells[a] == m.mem.cells[a])
    decreases |schedule|
  {
    hide Step, StepTargets, SetAll;
    if schedule != [] && Live(m) {
      var m1 := Arrive(m, schedule[0]);
      StepKept(m1);
      MaskStays(m.mem, Step(m1).mem, StepTargets(m1));
      RunKeepsReadOnly(Step(m1), schedule[1..]);
    }
  }

  /** What is not written: a word outside every turn's targets keeps its value over a run. */
  lemma {:induction false} RunKeepsUntargeted(m: State, schedule: Schedule, a: Word)
    requires MaskMapped(m.mem) && a in m.mem.cells
    requires forall k :: 0 <= k < |schedule| && Live(OpenRun(m, schedule[..k])) ==>
               a !in StepTargets(Arrive(OpenRun(m, schedule[..k]), schedule[k]))
    ensures a in OpenRun(m, schedule).mem.cells && OpenRun(m, schedule).mem.cells[a] == m.mem.cells[a]
    decreases |schedule|
  {
    hide Step, StepTargets, SetAll;
    if schedule != [] && Live(m) {
      assert schedule[..0] == [] && OpenRun(m, schedule[..0]) == m;
      var m1 := Arrive(m, schedule[0]);
      StepKept(m1);
      MaskStays(m.mem, Step(m1).mem, StepTargets(m1));
      var g, rest := Step(m1), schedule[1..];
      forall k | 0 <= k < |rest| && Live(OpenRun(g, rest[..k]))
        ensures a !in StepTargets(Arrive(OpenRun(g, rest[..k]), rest[k]))
      {
        assert schedule[..k + 1][1..] == rest[..k];
        assert OpenRun(m, schedule[..k + 1]) == OpenRun(g, rest[..k]);
      }
      RunKeepsUntargeted(g, rest, a);
    }
  }
}
