/** The CPU object: registers, flags and state updated in place, memory behind a bus, interrupts
    behind a controller. Every method is proved to do what the function of the same operation
    does to the machine as a value. */
module Cpus {
  import opened Words
  import opened Isa
  import opened Arch
  import opened FlatMemory
  import opened Interrupts
  import opened Machine
  import opened Meaning
  import opened OpenRuns
  import opened Zones
  import opened BusRuns
  import opened Memories
  import opened Buses
  import opened Pics

  /** Zone k shows eight interrupt mask words, writable, at their address. */
  predicate ShowsMasks(bs: seq<Block>, k: nat) {
    k < |bs| && bs[k].from == IMASK_ADDRESS && bs[k].size == 32 && bs[k].writable && |bs[k].words| == 8
  }

  /** The masks found through the memory are the words of the zone that shows them. */
  lemma MasksShown(bs: seq<Block>, k: nat)
    requires Tidy(bs) && ShowsMasks(bs, k)
    ensures Masks(FlatOf(bs)) == bs[k].words
  {
    hide Sorted, Disjoint, AllFit, ReadOutcome, ReadValue;
    forall j | 0 <= j < 8 ensures MaskWord(FlatOf(bs), j) == bs[k].words[j] {
      ZoneRead(bs, k, IMASK_ADDRESS + 4 * j);
    }
  }

  /** Storing into word j of that zone is a write to the mask address of j. */
  lemma MaskStored(bs: seq<Block>, k: nat, j: nat, v: Word)
    requires Tidy(bs) && ShowsMasks(bs, k) && j < 8
    ensures var cs := bs[k := bs[k].(words := bs[k].words[j := v])];
            Tidy(cs) && FlatOf(cs) == Put(FlatOf(bs), IMASK_ADDRESS + 4 * j, v)
  {
    hide Tidy, FlatOf, Find, FindFrom;
    var a := IMASK_ADDRESS + 4 * j;
    ZoneRead(bs, k, a);
    TidyIsSound(bs);
    WriteIsPut(bs, a, v);
    StoreTidy(bs, a, v);
    AnswersAsFlat(bs, a);
  }

  /** The zone shows the controller's mask memory where the CPU expects the masks. */
  predicate MaskZone(z: Zone, mask: Memory) {
    z.memory == mask && z.from == IMASK_ADDRESS
  }

  class Cpu {
    const bus: Bus
    const pic: Pic
    const order: ByteOrder
    const registers: array<Word>
    var pc: Word
    var sp: Word
    var bp: Word
    var cs: Word
    var idt: Word
    var ir: Word
    var enabled: bool
    var zero: bool
    var negative: bool
    var running: bool
    var panic: CpuError
    /** Bus and controller are in order, and the controller's masks are mapped where they belong. */
    ghost predicate Wired()
      reads bus, pic.mask, MemoriesOf(bus.zones), ArraysOf(bus.zones)
    {
      && bus.Valid() && pic.Valid() && Tidy(bus.Blocks()) && pic.active !in ArraysOf(bus.zones)
      && exists k :: 0 <= k < |bus.zones| && MaskZone(bus.zones[k], pic.mask)
    }

    ghost function Mem(): Flat
      requires Wired()
      reads bus, pic.mask, MemoriesOf(bus.zones), ArraysOf(bus.zones)
    {
      FlatOf(bus.Blocks())
    }

    ghost function Pending(): Bank
      requires Wired()
      reads bus, pic.mask, pic.active, MemoriesOf(bus.zones), ArraysOf(bus.zones)
    {
      pic.Pending()
    }

    ghost predicate Valid()
      reads this, bus, pic.mask, MemoriesOf(bus.zones), ArraysOf(bus.zones)
    {
      registers.Length <= 255 && registers != pic.active && registers !in ArraysOf(bus.zones) && Wired()
    }

    ghost function Footprint(): set<object>
      reads bus
    {
      {this, registers, pic.active} + ArraysOf(bus.zones)
    }

    /** The machine this object stands for. */
    ghost function Abs(): State
      requires Valid()
      reads this, registers, bus, pic.mask, pic.active, MemoriesOf(bus.zones), ArraysOf(bus.zones)
    {
      State(registers[..], sp, pc, bp, cs, idt, ir, enabled, zero, negative, panic, running,
            Mem(), Pending())
    }

    /** Cleared registers, everything that points into memory at the top of the stack, nothing going on. */
    predicate IsReset()
      reads this, registers
    {
      && registers.Length >= 32 && (forall k :: 0 <= k < 32 ==> registers[k] == 0)
      && pc == sp == bp == cs == STACK_SIZE && !enabled && !zero && !negative && !running && panic == ErrOk
    }

    /** Reset clears 32 registers whatever their count, so fewer would be overrun. idt, ir and
        the registers beyond the first 32 start with arbitrary values. */
    constructor Create(bus: Bus, pic: Pic, registerCount: Byte, order: ByteOrder)
      requires registerCount >= 32
      requires bus.Valid() && pic.Valid() && Tidy(bus.Blocks()) && pic.active !in ArraysOf(bus.zones)
      requires exists k :: 0 <= k < |bus.zones| && MaskZone(bus.zones[k], pic.mask)
      ensures Valid() && fresh(registers) && this.bus == bus && this.pic == pic && this.order == order
      ensures registers.Length == registerCount
      ensures Abs().mem == FlatOf(bus.Blocks()) && Abs().pending == pic.Pending()
      ensures IsReset()
    {
      this.bus, this.pic, this.order := bus, pic, order;
      registers := new Word[registerCount];
      new;
      Reset();
    }

    method Reset()
      requires Valid() && registers.Length >= 32
      modifies this, registers
      ensures Valid() && idt == old(idt) && ir == old(ir)
      ensures IsReset()
      ensures forall k :: 32 <= k < registers.Length ==> registers[k] == old(registers[k])
    {
      hide Wired, Mem, Pending;
      ClearRegisters();
      pc, sp, bp, cs := STACK_SIZE, STACK_SIZE, STACK_SIZE, STACK_SIZE;
      enabled, zero, negative := false, false, false;
      running, panic := false, ErrOk;
      Apart();
    }

    method ClearRegisters()
      requires registers.Length >= 32
      modifies registers
      ensures forall k :: 0 <= k < 32 ==> registers[k] == 0
      ensures forall k :: 32 <= k < registers.Length ==> registers[k] == old(registers[k])
    {
      var r := 0;
      while r < 32
        invariant 0 <= r <= 32
        invariant forall k :: 0 <= k < r ==> registers[k] == 0
        invariant forall k :: 32 <= k < registers.Length ==> registers[k] == old(registers[k])
      {
        registers[r] := 0;
        r := r + 1;
      }
    }

    /** Changes to the CPU's own fields and registers leave bus and controller alone. */
    twostate lemma Apart()
      requires old(Wired()) && registers !in ArraysOf(bus.zones) && registers != pic.active
      requires unchanged(bus) && unchanged(pic.mask) && unchanged(pic.active)
      requires forall k :: 0 <= k < |bus.zones| ==> unchanged(bus.zones[k].memory) && unchanged(bus.zones[k].memory.raw)
      ensures Wired() && Mem() == old(Mem()) && Pending() == old(Pending())
    {
      assert bus.Blocks() == old(bus.Blocks());
    }

    // -------------------------------------------------------------- registers

    method RegisterGet(r: Byte) returns (e: CpuError, w: Word)
      requires Valid()
      ensures e == if RegGet(Abs(), r).Some? then ErrOk else ErrRegister
      ensures e == ErrOk ==> RegGet(Abs(), r) == Some(w)
    {
      w := 0;
      e := ErrOk;
      if r == REG_SP {
        w := sp;
      } else if r == REG_PC {
        w := pc;
      } else if r == REG_CS {
        w := cs;
      } else if r == REG_IDT {
        w := idt;
      } else if r == REG_IR {
        w := ir;
      } else if r == REG_BP {
        w := bp;
      } else if r >= registers.Length {
        e := ErrRegister;
      } else {
        w := registers[r];
      }
    }

    method FlagsUpdate(value: SWord)
      requires Valid()
      modifies this`zero, this`negative
      ensures Valid() && Abs() == SetFlags(old(Abs()), Wrap(value))
    {
      hide Wired, Mem, Pending;
      zero := value == 0;
      negative := value < 0;
      Apart();
    }

    static lemma PutKeepsPanic(m: State, r: Byte, value: Word)
      requires ValidReg(m, r)
      ensures PutReg(m, r, value).panic == m.panic
    {
    }

    /** Stores into a register that exists. */
    method RegisterPut(r: Byte, value: Word)
      requires Valid() && ValidReg(Abs(), r)
      modifies this, registers
      ensures Valid() && Abs() == PutReg(old(Abs()), r, value)
    {
      hide Wired, Mem, Pending;
      if r == REG_SP {
        sp := value;
      } else if r == REG_PC {
        pc := value;
      } else if r == REG_CS {
        cs := value;
      } else if r == REG_IDT {
        idt := value;
      } else if r == REG_IR {
        ir := value;
      } else if r == REG_BP {
        bp := value;
      } else {
        registers[r] := value;
      }
      Apart();
    }

    method RegisterSet(r: Byte, value: Word) returns (e: CpuError)
      requires Valid()
      modifies this, registers
      ensures Valid()
      ensures Abs().(panic := e) == RegSet(old(Abs()), r, value) && panic == old(panic)
    {
      hide Wired, Mem, Pending, PutReg;
      if r < REG_IDT && r >= registers.Length {
        return ErrRegister;
      }
      PutKeepsPanic(Abs(), r, value);
      RegisterPut(r, value);
      FlagsUpdate(Signed(value));
      return ErrOk;
    }

    // -------------------------------------------------------------- small changes

    method Fail(e: CpuError)
      requires Valid()
      modifies this`panic
      ensures Valid() && Abs() == old(Abs()).(panic := e)
    {
      hide Wired, Mem, Pending;
      panic := e;
      Apart();
    }

    method Jump(address: Word)
      requires Valid()
      modifies this`pc
      ensures Valid() && Abs() == old(Abs()).(pc := address)
    {
      hide Wired, Mem, Pending;
      pc := address;
      Apart();
    }

    method SetSegments(code: Word, interrupts: Word)
      requires Valid()
      modifies this`cs, this`idt
      ensures Valid() && Abs() == old(Abs()).(cs := code, idt := interrupts)
    {
      hide Wired, Mem, Pending;
      cs, idt := code, interrupts;
      Apart();
    }

    method MoveSp(delta: int)
      requires Valid()
      modifies this`sp
      ensures Valid() && Abs() == old(Abs()).(sp := Wrap(old(sp) + delta))
    {
      hide Wired, Mem, Pending;
      sp := Wrap(sp + delta);
      Apart();
    }

    method Enable(on: bool)
      requires Valid()
      modifies this`enabled
      ensures Valid() && Abs() == old(Abs()).(enabled := on)
    {
      hide Wired, Mem, Pending;
      enabled := on;
      Apart();
    }

    method SetRunning(on: bool)
      requires Valid()
      modifies this`running
      ensures Valid() && Abs() == old(Abs()).(running := on)
    {
      hide Wired, Mem, Pending;
      running := on;
      Apart();
    }

    /** `panic = cpu_register_set(...)`. */
    method SetRegister(r: Byte, value: Word)
      requires Valid()
      modifies this, registers
      ensures Valid() && Abs() == RegSet(old(Abs()), r, value)
    {
      hide Wired, Mem, Pending, RegSet;
      var e := RegisterSet(r, value);
      Fail(e);
    }

    /** `panic = cpu_register_get(...)`. */
    method GetRegister(r: Byte) returns (value: Word)
      requires Valid()
      modifies this`panic
      ensures Valid() && Abs() == ReadReg(old(Abs()), r)
      ensures panic == ErrOk ==> old(RegGet(Abs(), r)) == Some(value)
    {
      hide Wired, Mem, Pending, RegGet;
      var e;
      e, value := RegisterGet(r);
      Apart();
      Fail(e);
    }

    // -------------------------------------------------------------- memory

    /** A bus read: it succeeds exactly at the addresses the memory maps. */
    method ReadWord(address: Word) returns (ok: bool, word: Word)
      requires Valid()
      ensures Lookup(Abs().mem, address) == if ok then Some(word) else None
    {
      hide Tidy, FlatOf, Sound;
      TidyIsSound(bus.Blocks());
      ok, word := bus.Load(address);
    }

    method WriteBus(address: Word, word: Word) returns (ok: bool)
      requires Valid()
      modifies ArraysOf(bus.zones)
      ensures Valid() && ok == old(Writable(Abs().mem, address))
      ensures Abs() == if ok then old(Abs().(mem := Put(Abs().mem, address, word))) else old(Abs())
    {
      hide Tidy, FlatOf, Sound, SameZones;
      ghost var bs := bus.Blocks();
      TidyIsSound(bs);
      ok := bus.Store(address, word);
      SameZonesTidy(bs, bus.Blocks());
    }

    /** A bus write, with the panic its failure leads to. */
    method StoreWord(address: Word, word: Word)
      requires Valid()
      modifies this`panic, ArraysOf(bus.zones)
      ensures Valid() && Abs() == WriteWord(old(Abs()), address, word)
    {
      hide Wired, Mem, Pending;
      var ok := WriteBus(address, word);
      if !ok {
        Fail(ErrWrite);
      }
    }

    // -------------------------------------------------------------- interrupts

    method Trigger(i: Byte)
      requires Valid()
      modifies pic.active
      ensures Valid() && Abs() == old(Abs()).(pending := SetBit(old(Abs()).pending, i))
    {
      hide Tidy, FlatOf, SetBit;
      pic.Trigger(i);
      assert bus.Blocks() == old(bus.Blocks());
    }

    method ResetInterrupt(i: Byte)
      requires Valid()
      modifies pic.active
      ensures Valid() && Abs() == old(Abs()).(pending := ClearBit(old(Abs()).pending, i))
    {
      hide Tidy, FlatOf, ClearBit;
      pic.Reset(i);
      assert bus.Blocks() == old(bus.Blocks());
    }

    lemma WiredParts()
      requires Wired()
      ensures pic.Valid() && Pending() == pic.Pending()
    {
    }

    lemma MasksAreShown() returns (k: nat)
      requires Valid()
      ensures ShowsMasks(bus.Blocks(), k) && bus.Blocks()[k].words == pic.MaskBank() && bus.zones[k].memory == pic.mask
      ensures Masks(Abs().mem) == pic.MaskBank()
    {
      hide Tidy, FlatOf, Masks;
      k :| 0 <= k < |bus.zones| && MaskZone(bus.zones[k], pic.mask);
      MasksShown(bus.Blocks(), k);
    }

    method SetMask(i: Byte, masked: bool)
      requires Valid()
      modifies ArraysOf(bus.zones)
      ensures Valid() && Abs() == ExecMask(old(Abs()), i, masked)
      ensures forall j: Byte ::
        Has(Masks(Abs().mem), j) == if j == i then masked else Has(Masks(old(Abs().mem)), j)
    {
      hide Tidy, FlatOf, Masks, Bitwise, Has;
      ghost var k := MasksAreShown();
      assert pic.mask.raw in ArraysOf(bus.zones);
      ghost var bs := bus.Blocks();
      ghost var v := Bitwise(if masked then Or else AndNot, pic.MaskBank()[i / 32], BitOf(i));
      MaskStored(bs, k, i / 32, v);
      pic.SetMask(i, masked);
      assert bus.Blocks() == bs[k := bs[k].(words := bs[k].words[i / 32 := v])];
      ghost var l := MasksAreShown();
    }

    method InterruptActive() returns (r: bool)
      requires Valid()
      ensures Valid() && Abs() == old(Abs())
      ensures r == old(Active(Abs().pending, Masks(Abs().mem)))
    {
      hide Wired, Mem, Masks, Active;
      ghost var k := MasksAreShown();
      WiredParts();
      r := pic.IsActive();
      Apart();
    }

    method InterruptGet() returns (r: Byte)
      requires Valid()
      ensures Valid() && Abs() == old(Abs())
      ensures r == old(First(Abs().pending, Masks(Abs().mem)))
    {
      hide Wired, Mem, Masks, FirstFrom;
      ghost var k := MasksAreShown();
      WiredParts();
      r := pic.Get();
      Apart();
    }

    // -------------------------------------------------------------- building blocks of operations

    /** Fetches the word at pc; pc advances even when the read fails. */
    method FetchWord() returns (word: Word)
      requires Valid()
      modifies this`pc, this`panic
      ensures Valid() && Abs() == Fetch(old(Abs())) && word == Fetched(old(Abs()))
    {
      hide Wired, Mem, Pending;
      word := 0;
      if panic == ErrOk {
        var ok, w := ReadWord(pc);
        Apart();
        if ok {
          word := w;
        } else {
          Fail(ErrRead);
        }
      }
      Jump(Wrap(pc + 4));
    }

    method Push(value: Word)
      requires Valid()
      modifies this`sp, this`panic, ArraysOf(bus.zones)
      ensures Valid() && Abs() == PushValue(old(Abs()), value)
    {
      hide Wired, Mem, Pending, WriteWord;
      MoveSp(-4);
      StoreWord(sp, value);
    }

    method PushRegister(r: Byte)
      requires Valid()
      modifies this`sp, this`panic, ArraysOf(bus.zones)
      ensures Valid() && Abs() == PushReg(old(Abs()), r)
    {
      hide Wired, Mem, Pending, RegGet, PushValue;
      var value := GetRegister(r);
      if panic == ErrOk {
        Push(value);
      }
    }

    method PopRegister(r: Byte) returns (ok: bool)
      requires Valid()
      modifies this, registers
      ensures Valid() && ok == old(Readable(Abs().mem, sp))
      ensures Abs() == if ok then PopReg(old(Abs()), r) else old(Abs()).(panic := ErrRead)
    {
      hide Wired, Mem, Pending, RegSet;
      var value;
      ok, value := ReadWord(sp);
      Apart();
      if ok {
        MoveSp(4);
        SetRegister(r, value);
      } else {
        Fail(ErrRead);
      }
    }

    /** Saves pc and jumps, unless the push fails. */
    method CallAddress(address: Word)
      requires Valid()
      modifies this`sp, this`pc, this`panic, ArraysOf(bus.zones)
      ensures Valid() && (old(panic) == ErrOk ==> Abs() == CallTo(old(Abs()), address))
    {
      hide Wired, Mem, Pending, PushValue;
      Push(pc);
      if panic == ErrOk {
        Jump(address);
      }
    }

    method LoadRegister(r: Byte, address: Word)
      requires Valid()
      modifies this, registers
      ensures Valid() && Abs() == LoadFrom(old(Abs()), r, address)
    {
      hide Wired, Mem, Pending, RegSet;
      var ok, value := ReadWord(address);
      Apart();
      if ok {
        SetRegister(r, value);
      } else {
        Fail(ErrRead);
      }
    }

    /** Register access does not look at an earlier outcome. */
    static lemma OutcomeForgotten(m: State, r: Byte)
      ensures RegGet(m.(panic := ErrOk), r) == RegGet(m, r)
      ensures forall v: Word :: RegSet(m.(panic := ErrOk), r, v) == RegSet(m, r, v)
    {
      forall v: Word ensures RegSet(m.(panic := ErrOk), r, v) == RegSet(m, r, v) {
        if ValidReg(m, r) {
          OutcomeKept(m, r, v);
        }
      }
    }

    static lemma OutcomeKept(m: State, r: Byte, v: Word)
      requires ValidReg(m, r)
      ensures PutReg(m.(panic := ErrOk), r, v) == PutReg(m, r, v).(panic := ErrOk)
    {
    }

    // -------------------------------------------------------------- operations on registers

    method OpMov(src: Src, a: Byte, b: Byte)
      requires Valid()
      modifies this, registers
      ensures Valid() && Abs() == ExecMov(old(Abs()), src, a, b)
    {
      hide Wired, Mem, Pending, RegSet, RegGet;
      OutcomeForgotten(Abs(), a);
      var value;
      if src == Imm {
        value := FetchWord();
      } else {
        value := GetRegister(b);
      }
      if panic == ErrOk {
        SetRegister(a, value);
      }
    }

    method OpAlu(f: AluFn, src: Src, a: Byte, b: Byte)
      requires Valid()
      modifies this, registers
      ensures Valid() && Abs() == ExecAlu(old(Abs()), f, src, a, b)
      ensures src == Reg && a < registers.Length <= 250 && b < registers.Length ==>
                && registers[..] == old(registers[..])[a := registers[a]]
                && Computes(f, old(registers[a]), old(registers[b]), registers[a])
    {
      hide ExecAlu, Wired, Mem, Pending, Computes;
      if src == Imm {
        OpAluImm(f, a, b);
      } else {
        if a < registers.Length <= 250 && b < registers.Length {
          AluRegisters(Abs(), f, a, b);
        }
        OpAluReg(f, a, b);
      }
    }

    method OpAluImm(f: AluFn, a: Byte, b: Byte)
      requires Valid()
      modifies this, registers
      ensures Valid() && Abs() == ExecAlu(old(Abs()), f, Imm, a, b)
    {
      hide Wired, Mem, Pending, RegSet, RegGet, Compute;
      var value := FetchWord();
      if panic != ErrOk {
        return;
      }
      var x := GetRegister(a);
      if panic != ErrOk {
        return;
      }
      SetRegister(a, Compute(f, x, value));
    }

    method OpAluReg(f: AluFn, a: Byte, b: Byte)
      requires Valid()
      modifies this, registers
      ensures Valid() && Abs() == ExecAlu(old(Abs()), f, Reg, a, b)
    {
      hide Wired, Mem, Pending, RegSet, RegGet, Compute;
      OutcomeForgotten(Abs(), a);
      OutcomeForgotten(Abs(), b);
      var x := GetRegister(a);
      if panic != ErrOk {
        return;
      }
      var y := GetRegister(b);
      if panic != ErrOk {
        return;
      }
      SetRegister(a, Compute(f, x, y));
    }

    method OpStep(delta: int, a: Byte)
      requires Valid()
      modifies this, registers
      ensures Valid() && Abs() == ExecStep(old(Abs()), delta, a)
    {
      hide Wired, Mem, Pending, RegSet, RegGet, Wrap;
      OutcomeForgotten(Abs(), a);
      var x := GetRegister(a);
      if panic == ErrOk {
        SetRegister(a, Wrap(Signed(x) + delta));
      }
    }

    method OpCmp(src: Src, a: Byte, b: Byte)
      requires Valid()
      modifies this
      ensures Valid() && Abs() == ExecCmp(old(Abs()), src, a, b)
    {
      hide Wired, Mem, Pending, RegGet, Fetch, Fetched, SetFlags;
      OutcomeForgotten(Abs(), b);
      var x := GetRegister(a);
      if panic != ErrOk {
        return;
      }
      var y;
      if src == Imm {
        y := FetchWord();
      } else {
        y := GetRegister(b);
      }
      if panic == ErrOk {
        FlagsUpdate(Signed(Wrap(Signed(x) - Signed(y))));
      }
    }

    method OpLoad(op: Op, a: Byte, b: Byte)
      requires Valid() && (op.LoadRR? || op.LoadRW? || op.LoadRRW?)
      modifies this, registers
      ensures Valid() && Abs() == ExecRegister(old(Abs()), op, a, b)
    {
      hide Wired, Mem, Pending, RegGet, LoadFrom;
      var address := 0;
      if !op.LoadRW? {
        address := GetRegister(b);
        if panic != ErrOk {
          return;
        }
      }
      if !op.LoadRR? {
        var offset := FetchWord();
        if panic != ErrOk {
          return;
        }
        address := Wrap(address as int + offset as int);
      }
      LoadRegister(a, address);
    }

    // -------------------------------------------------------------- operations on the stack

    static lemma PushFirst(m: State, a: Byte, rs: seq<Byte>)
      ensures PushRegs(m, [a] + rs) == PushRegs(PushReg(m, a), rs)
    {
      hide PushReg;
      assert ([a] + rs)[1..] == rs;
    }

    static lemma Pushes(m: State, a: Byte, b: Byte, c: Byte)
      ensures PushRegs(m, [a]) == PushReg(m, a)
      ensures PushRegs(m, [a, b]) == PushReg(PushReg(m, a), b)
      ensures PushRegs(m, [a, b, c]) == PushReg(PushReg(PushReg(m, a), b), c)
    {
      hide PushReg;
      PushFirst(m, a, [b, c]);
      PushFirst(m, a, [b]);
      PushFirst(PushReg(m, a), b, [c]);
      assert [a] + [b, c] == [a, b, c] && [a] + [b] == [a, b] && [b] + [c] == [b, c];
    }

    static lemma Pops(m: State, a: Byte, rs: seq<Byte>)
      ensures PopRegs(m, [a] + rs) == if Readable(m.mem, m.sp) then PopRegs(PopReg(m, a), rs) else m.(panic := ErrRead)
    {
      hide PopReg;
      assert ([a] + rs)[1..] == rs;
    }

    /** Pushes one to three registers; every push overwrites the outcome of the one before. */
    method OpPush(op: Op, a: Byte, b: Byte, c: Byte)
      requires Valid() && (op.PushR? || op.PushRR? || op.PushRRR?)
      modifies this, ArraysOf(bus.zones)
      ensures Valid() && Abs() == ExecStack(old(Abs()), op, a, b, c)
    {
      hide Wired, Mem, Pending, PushReg, PushRegs;
      Pushes(Abs(), a, b, c);
      PushRegister(a);
      if op.PushRR? || op.PushRRR? {
        PushRegister(b);
      }
      if op.PushRRR? {
        PushRegister(c);
      }
    }

    method OpPusha()
      requires Valid()
      modifies this, ArraysOf(bus.zones)
      ensures Valid() && Abs() == ExecStack(old(Abs()), Pusha, 0, 0, 0)
    {
      hide Wired, Mem, Pending, PushReg;
      var r := 0;
      while r < registers.Length
        invariant 0 <= r <= registers.Length && Valid() && bus.zones == old(bus.zones)
        invariant PushRegs(Abs(), Ascending(r, registers.Length))
                == PushRegs(old(Abs()), Ascending(0, registers.Length))
      {
        PushRegister(r);
        r := r + 1;
      }
    }

    /** Pops one to three registers and gives up at the first unreadable word. */
    method OpPop(op: Op, a: Byte, b: Byte, c: Byte)
      requires Valid() && (op.PopR? || op.PopRR? || op.PopRRR?)
      modifies this, registers
      ensures Valid() && Abs() == ExecStack(old(Abs()), op, a, b, c)
    {
      hide Wired, Mem, Pending, PopReg;
      ghost var rest := if op.PopR? then [] else if op.PopRR? then [b] else [b, c];
      assert ExecStack(Abs(), op, a, b, c) == PopRegs(Abs(), [a] + rest);
      Pops(Abs(), a, rest);
      var ok := PopRegister(a);
      if ok && !op.PopR? {
        Pops(Abs(), b, rest[1..]);
        assert rest == [b] + rest[1..];
        ok := PopRegister(b);
        if ok && op.PopRRR? {
          Pops(Abs(), c, []);
          ok := PopRegister(c);
        }
      }
    }

    method OpPopa()
      requires Valid()
      modifies this, registers
      ensures Valid() && Abs() == ExecStack(old(Abs()), Popa, 0, 0, 0)
    {
      hide Wired, Mem, Pending, PopReg;
      var r := registers.Length;
      while r > 0
        invariant 0 <= r <= registers.Length && Valid() && bus.zones == old(bus.zones)
        invariant PopRegs(Abs(), Descending(r)) == PopRegs(old(Abs()), Descending(registers.Length))
      {
        var ok := PopRegister(r - 1);
        if !ok {
          return;
        }
        r := r - 1;
      }
    }

    // -------------------------------------------------------------- control transfer

    /** An untaken jump moves past its address without reading it. */
    method OpJump(cond: Cond, kind: AddressKind)
      requires Valid() && panic == ErrOk
      modifies this
      ensures Valid() && Abs() == ExecJump(old(Abs()), cond, kind)
      ensures (cond == IfZero && !old(zero)) || (cond == IfNotZero && old(zero)) ==>
                panic == ErrOk && pc == (old(pc) as int + 4) % 0x1_0000_0000
      ensures cond == Always || (cond == IfZero && old(zero)) || (cond == IfNotZero && !old(zero)) ==>
                forall address: Word :: Follows(old(Abs()), address) ==> pc == Goal(old(Abs()), kind, address)
    {
      hide Wired, Mem, Pending;
      if cond == Always || (zero && cond == IfZero) || (!zero && cond == IfNotZero) {
        var address := FetchWord();
        if panic == ErrOk {
          Jump(if kind == Segment then Wrap(cs as int + address as int) else address);
        }
      } else {
        Jump(Wrap(pc + 4));
      }
    }

    method OpCall(kind: AddressKind)
      requires Valid() && panic == ErrOk
      modifies this, ArraysOf(bus.zones)
      ensures Valid() && Abs() == ExecCall(old(Abs()), kind)
    {
      hide Wired, Mem, Pending, CallTo;
      var address := FetchWord();
      if panic == ErrOk {
        CallAddress(if kind == Segment then Wrap(cs as int + address as int) else address);
      }
    }

    method OpCallR(a: Byte)
      requires Valid() && panic == ErrOk
      modifies this, ArraysOf(bus.zones)
      ensures Valid() && Abs() == ExecCallR(old(Abs()), a)
    {
      hide Wired, Mem, Pending, CallTo, RegGet;
      var address := GetRegister(a);
      if panic == ErrOk {
        CallAddress(address);
      }
    }

    method OpRet(interrupt: bool)
      requires Valid()
      modifies this
      ensures Valid() && Abs() == if interrupt then ExecIret(old(Abs())) else ExecRet(old(Abs()))
    {
      hide Wired, Mem, Pending;
      var ok, address := ReadWord(sp);
      Apart();
      if !ok {
        Fail(ErrRead);
        return;
      }
      Jump(address);
      MoveSp(4);
      if interrupt {
        Enable(true);
      }
    }

    // -------------------------------------------------------------- operations on memory

    method OpStor(src: Src, a: Byte, b: Byte)
      requires Valid()
      modifies this, ArraysOf(bus.zones)
      ensures Valid() && Abs() == ExecStor(old(Abs()), src, a, b)
    {
      hide Wired, Mem, Pending, RegGet, WriteWord;
      OutcomeForgotten(Abs(), b);
      var address, value;
      if src == Imm {
        address := FetchWord();
        if panic != ErrOk {
          return;
        }
        value := GetRegister(a);
      } else {
        address := GetRegister(a);
        if panic != ErrOk {
          return;
        }
        value := GetRegister(b);
      }
      if panic == ErrOk {
        StoreWord(address, value);
      }
    }

    method OpPushW()
      requires Valid()
      modifies this, ArraysOf(bus.zones)
      ensures Valid() && Abs() == ExecPushW(old(Abs()))
    {
      hide Wired, Mem, Pending, PushValue;
      var value := FetchWord();
      if panic == ErrOk {
        Push(value);
      }
    }

    // -------------------------------------------------------------- the loop

    /** The operation a code byte selects, on an instruction word in host order. */
    method Dispatch(op: Op, word: Word, ghost w: Word)
      requires Valid() && panic == ErrOk && HostBytes(order, word) == ToBe(w)
      modifies this, registers, pic.active, ArraysOf(bus.zones)
      ensures Valid() && Abs() == Exec(old(Abs()), op, w)
    {
      hide Wired, Mem, Pending, HostBytes, ToBe, ExecControl, ExecStack, ExecRegister, ExecMemory, ExecOther;
      var a, b, c := HostBytes(order, word)[1], HostBytes(order, word)[2], HostBytes(order, word)[3];
      if IsControl(op) {
        DispatchControl(op, a);
      } else if IsStack(op) {
        DispatchStack(op, a, b, c);
      } else if WritesRegister(op) {
        DispatchRegister(op, a, b);
      } else if WritesMemory(op) {
        DispatchMemory(op, a, b);
      } else {
        DispatchOther(op, a, b);
      }
    }

    method DispatchControl(op: Op, a: Byte)
      requires Valid() && panic == ErrOk && IsControl(op)
      modifies this, ArraysOf(bus.zones)
      ensures Valid() && Abs() == ExecControl(old(Abs()), op, a)
    {
      hide Wired, Mem, Pending, ExecJump, ExecCall, ExecCallR, ExecRet, ExecIret;
      match op
      case Jump(cond, kind) => OpJump(cond, kind);
      case Call(kind) => OpCall(kind);
      case CallR => OpCallR(a);
      case Ret => OpRet(false);
      case Iret => OpRet(true);
    }

    method DispatchStack(op: Op, a: Byte, b: Byte, c: Byte)
      requires Valid() && IsStack(op)
      modifies this, registers, ArraysOf(bus.zones)
      ensures Valid() && Abs() == ExecStack(old(Abs()), op, a, b, c)
    {
      hide Wired, Mem, Pending, PushRegs, PopRegs;
      if op.Pusha? {
        OpPusha();
      } else if op.Popa? {
        OpPopa();
      } else if op.PushR? || op.PushRR? || op.PushRRR? {
        OpPush(op, a, b, c);
      } else {
        OpPop(op, a, b, c);
      }
    }

    method DispatchRegister(op: Op, a: Byte, b: Byte)
      requires Valid() && WritesRegister(op)
      modifies this, registers
      ensures Valid() && Abs() == ExecRegister(old(Abs()), op, a, b)
    {
      hide Wired, Mem, Pending, ExecMov, ExecAlu, ExecStep, ExecLoadRR, ExecLoadRW, ExecLoadRRW;
      match op {
        case Mov(src) => OpMov(src, a, b);
        case Alu(f, src) => OpAlu(f, src, a, b);
        case Inc => OpStep(1, a);
        case Dec => OpStep(-1, a);
        case LoadRR => OpLoad(op, a, b);
        case LoadRRW => OpLoad(op, a, b);
        case LoadRW => OpLoad(op, a, b);
      }
    }

    method DispatchMemory(op: Op, a: Byte, b: Byte)
      requires Valid() && WritesMemory(op)
      modifies this, ArraysOf(bus.zones)
      ensures Valid() && Abs() == ExecMemory(old(Abs()), op, a, b)
    {
      hide Wired, Mem, Pending, ExecPushW, ExecStor, ExecMask;
      match op
      case PushW => OpPushW();
      case Stor(src) => OpStor(src, a, b);
      case Mi => SetMask(a, true);
      case Umi => SetMask(a, false);
    }

    method DispatchOther(op: Op, a: Byte, b: Byte)
      requires Valid()
      modifies this, pic.active
      ensures Valid() && Abs() == ExecOther(old(Abs()), op, a, b)
    {
      hide Wired, Mem, Pending, ExecCmp, SetBit;
      match op {
        case Halt => SetRunning(false);
        case Panic =>
          if panic == ErrOk {
            Fail(ErrPanic);
          }
        case Cmp(src) => OpCmp(src, a, b);
        case Int => Trigger(a);
        case Ind => Enable(false);
        case Ine => Enable(true);
        case _ =>
      }
    }

    /** Takes the lowest deliverable interrupt and enters the dispatcher. */
    method EnterInterrupt()
      requires Valid() && panic == ErrOk && Interrupted(Abs())
      modifies this, pic.active, ArraysOf(bus.zones)
      ensures Valid() && Abs() == TakeInterrupt(old(Abs()))
    {
      hide Wired, Mem, Pending, First, Masks, ClearBit, PushValue;
      Enable(false);
      var i := InterruptGet();
      ir := i;
      Apart();
      ResetInterrupt(i);
      Push(pc);
      if panic == ErrOk {
        Jump(ROM_ADDRESS + 8);
      }
    }

    /** One turn of the loop: take an interrupt if there is one, fetch, decode, execute. */
    method StepOnce()
      requires Valid() && running && panic == ErrOk
      modifies this, registers, pic.active, ArraysOf(bus.zones)
      ensures Valid() && Abs() == Step(old(Abs()))
    {
      hide Wired, Mem, Pending, Active, Masks, Fetch, Fetched, Exec, Decode, TakeInterrupt, HostBytes, ToBe, Swap;
      if enabled {
        var active := InterruptActive();
        if active {
          EnterInterrupt();
        }
      }
      FetchDecodeExecute();
    }

    method FetchDecodeExecute()
      requires Valid()
      modifies this, registers, pic.active, ArraysOf(bus.zones)
      ensures Valid() && Abs() == Cycle(old(Abs()))
    {
      hide Wired, Mem, Pending, Fetch, Fetched, Exec, Decode, HostBytes, ToBe, Swap;
      var w := FetchWord();
      var word := Swap(order, w);
      FetchedBytes(order, w);
      if panic == ErrOk {
        match Decode(HostBytes(order, word)[0])
        case None => Fail(ErrOpcode);
        case Some(op) => Dispatch(op, word, w);
      }
    }

    /** What the devices do before a turn: their threads trigger interrupts. */
    method TriggerAll(arrivals: seq<Byte>)
      requires Valid()
      modifies pic.active
      ensures Valid() && Abs() == Arrive(old(Abs()), arrivals)
    {
      hide Wired, Mem, Pending, SetBit;
      ghost var first := Abs();
      for k := 0 to |arrivals|
        invariant Valid() && Abs() == first.(pending := Abs().pending)
        invariant SetAll(first.pending, arrivals) == SetAll(Abs().pending, arrivals[k..])
      {
        assert arrivals[k..][1..] == arrivals[k + 1..];
        Trigger(arrivals[k]);
      }
    }

    /** The CPU loop, with what the devices trigger before each turn, cut off at the end of that
        schedule if it has not stopped by then. */
    method Loop(schedule: Schedule)
      requires Valid()
      modifies this, registers, pic.active, ArraysOf(bus.zones)
      ensures Valid()
      ensures var last := OpenRun(old(Abs()).(running := true, panic := ErrOk), schedule);
              Abs() == if Live(last) then last else last.(running := false)
    {
      hide Wired, Mem, Pending, Step, Arrive;
      SetRunning(true);
      Fail(ErrOk);
      ghost var first := Abs();
      var n := 0;
      while running && panic == ErrOk && n < |schedule|
        invariant n <= |schedule| && Valid() && bus.zones == old(bus.zones)
        invariant OpenRun(first, schedule) == OpenRun(Abs(), schedule[n..])
      {
        assert schedule[n..][1..] == schedule[n + 1..];
        ArriveKeeps(Abs(), schedule[n]);
        TriggerAll(schedule[n]);
        StepOnce();
        n := n + 1;
      }
      if !(running && panic == ErrOk) {
        SetRunning(false);
      }
    }

    static lemma ArriveKeeps(m: State, arrivals: seq<Byte>)
      ensures Arrive(m, arrivals).running == m.running && Arrive(m, arrivals).panic == m.panic
    {
    }
  }
}
