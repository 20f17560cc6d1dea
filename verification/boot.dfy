/** Starting the machine as the command line does: images into memory, registers set, loop run. */
module Booting {
  import opened Words
  import opened Isa
  import opened Arch
  import opened FlatMemory
  import opened Machine
  import opened Zones
  import opened Memories
  import opened Buses
  import opened BusRuns
  import opened Cpus
  import opened Layout
  import SaveRestore
  import opened Vms
  import opened Loader

  // ---------------------------------------------------------------- what the map means

  /** In a machine's map the RAM can be written from address 0 on, and the top of the address
      space is read-only. */
  lemma MapAccess(bs: seq<Block>, ram: Word, video: bool)
    requires LaidOut(bs, MachineMap(ram, video)) && 0 < ram <= KEYBOARD_IN_ADDRESS && ram % 4 == 0
    ensures Tidy(bs)
    ensures forall a: Word :: a < ram && a % 4 == 0 ==> Writable(FlatOf(bs), a)
    ensures forall a: Word :: ROM_ADDRESS <= a ==> a in FlatOf(bs).readOnly
  {
    hide Tidy, FlatOf, Ascends, Devices;
    RomStep(ram, video);
    AscendsIsTidy(bs, MachineMap(ram, video));
    var n := |bs| - 1;
    assert ExtentOf(bs[0]) == MachineMap(ram, video)[0] == Extent(0, ram, true);
    assert ExtentOf(bs[n]) == MachineMap(ram, video)[n] == ROM_EXTENT;
    forall a: Word | a < ram && a % 4 == 0 ensures Writable(FlatOf(bs), a) {
      ShowsZone(bs, 0, a);
    }
    forall a: Word | ROM_ADDRESS <= a ensures a in FlatOf(bs).readOnly {
      ShowsZone(bs, n, a);
    }
  }

  /** Between the end of the RAM and the first device there is nothing. */
  lemma MapGap(bs: seq<Block>, ram: Word, video: bool, a: Word)
    requires LaidOut(bs, MachineMap(ram, video)) && 0 < ram <= a < KEYBOARD_IN_ADDRESS && ram % 4 == 0
    ensures a !in FlatOf(bs).cells
  {
    hide Tidy, FlatOf, Ascends, Devices;
    RomStep(ram, video);
    AscendsIsTidy(bs, MachineMap(ram, video));
    FirstAddress(video);
    var es := MachineMap(ram, video);
    forall k | 0 <= k < |bs| ensures !Holds(bs[k], a) {
      assert ExtentOf(bs[k]) == es[k];
      assert 0 < k < |bs| - 1 ==> es[k] == Devices(video)[k - 1];
    }
    ShowsNothing(bs, a);
  }

  /** On every machine: a PUSHA from 31 words above the end of the RAM saves r31 alone, in the
      last word of the RAM, and still reports no failure. */
  lemma PushaForgetsFailure(bs: seq<Block>, ram: Word, video: bool, m: State)
    requires LaidOut(bs, MachineMap(ram, video)) && 0 < ram && ram + 124 <= KEYBOARD_IN_ADDRESS && ram % 4 == 0
    requires m.mem == FlatOf(bs) && |m.regs| == 32 && m.sp == ram + 124
    ensures ExecStack(m, Pusha, 0, 0, 0).panic == ErrOk
    ensures forall k :: 0 <= k < 31 ==> SaveRestore.Slot(m.sp, k) !in m.mem.cells
  {
    hide ExecStack, FlatOf, Devices, Tidy;
    MapAccess(bs, ram, video);
    SaveRestore.PushaOutcome(m);
    forall k | 0 <= k < 31 ensures SaveRestore.Slot(m.sp, k) !in m.mem.cells {
      MapGap(bs, ram, video, SaveRestore.Slot(m.sp, k));
    }
  }

  // ---------------------------------------------------------------- the ROM's mode

  /** Changing the mode of zone k changes which bytes refuse writes, and no word. */
  lemma ModeIsAccess(bs: seq<Block>, k: nat, writable: bool)
    requires AllWellSized(bs) && k < |bs|
    ensures var cs := bs[k := bs[k].(writable := writable)];
      && AllWellSized(cs) && (Tidy(bs) ==> Tidy(cs))
      && FlatOf(cs).cells == FlatOf(bs).cells
      && (forall a: Word ::
            a in FlatOf(cs).readOnly <==> if Find(bs, a) == k then !writable else a in FlatOf(bs).readOnly)
  {
    hide Find, FindFrom, Tidy, GetAccess;
    var cs := bs[k := bs[k].(writable := writable)];
    forall a: Word
      ensures Find(cs, a) == Find(bs, a) && ReadOutcome(cs, a) == ReadOutcome(bs, a)
      ensures ReadOutcome(bs, a) == BusOk ==> ReadValue(cs, a) == ReadValue(bs, a)
    {
      ModeFind(bs, k, writable, a);
      FindBound(bs, a);
    }
    if Tidy(bs) {
      SameZonesTidy(bs, cs);
    }
    assert FlatOf(cs).cells == FlatOf(bs).cells;
    forall a: Word
      ensures a in FlatOf(cs).readOnly <==> if Find(bs, a) == k then !writable else a in FlatOf(bs).readOnly
    {
      FindBound(bs, a);
    }
  }

  lemma ModeFind(bs: seq<Block>, k: nat, writable: bool, a: Word)
    requires k < |bs|
    ensures Find(bs[k := bs[k].(writable := writable)], a) == Find(bs, a)
  {
    var cs := bs[k := bs[k].(writable := writable)];
    assert forall j :: 0 <= j < |bs| ==> (InZone(cs[j], a) <==> InZone(bs[j], a));
  }

  // ---------------------------------------------------------------- registers

  /** m with pc, cs, idt and all general registers as the command line sets them. */
  predicate Prepared(m: State, t: State, pc: Word, values: seq<Word>) {
    && t.pc == pc && t.cs == pc && t.idt == IDT_ADDRESS && t.regs == values
    && t.sp == m.sp && t.bp == m.bp && t.ir == m.ir && t.enabled == m.enabled
    && t.mem == m.mem && t.pending == m.pending && t.panic == m.panic && t.running == m.running
    && (if values == [] then t.zero == m.zero && t.negative == m.negative else t == SetFlags(t, values[|values| - 1]))
  }

  lemma SetGeneral(m: State, r: Byte, v: Word)
    requires r < |m.regs| && r < 250
    ensures RegSet(m, r, v) == SetFlags(m.(regs := m.regs[r := v]), v).(panic := ErrOk)
  {
  }

  /** m after the first i general registers are set. */
  predicate Setting(m: State, t: State, pc: Word, values: seq<Word>, i: nat)
    requires i <= |values|
  {
    && |t.regs| == |values| && (forall j :: 0 <= j < i ==> t.regs[j] == values[j])
    && t == m.(pc := pc, cs := pc, idt := IDT_ADDRESS, regs := t.regs, zero := t.zero, negative := t.negative)
    && (if i == 0 then t.zero == m.zero && t.negative == m.negative else t == SetFlags(t, values[i - 1]))
  }

  lemma SetsOne(m: State, t: State, pc: Word, values: seq<Word>, i: nat)
    requires i < |values| <= 250 && Setting(m, t, pc, values, i)
    ensures Setting(m, RegSet(t, i, values[i]).(panic := t.panic), pc, values, i + 1)
  {
    hide RegSet, Signed;
    SetGeneral(t, i, values[i]);
  }

  lemma SetsAll(m: State, t: State, pc: Word, values: seq<Word>)
    requires Setting(m, t, pc, values, |values|)
    ensures Prepared(m, t, pc, values)
  {
    hide SetFlags;
  }

  /** Sets pc, cs and idt, and then every general register in turn. */
  method SetRegisters(cpu: Cpu, pc: Word, values: seq<Word>)
    requires cpu.Valid() && |values| == cpu.registers.Length <= 250
    modifies cpu, cpu.registers
    ensures cpu.Valid() && Prepared(old(cpu.Abs()), cpu.Abs(), pc, values)
  {
    hide RegSet, Prepared, SetFlags;
    ghost var m := cpu.Abs();
    cpu.Jump(pc);
    cpu.SetSegments(pc, IDT_ADDRESS);
    var i := 0;
    while i < |values|
      invariant i <= |values| && cpu.Valid() && Setting(m, cpu.Abs(), pc, values, i)
    {
      SetsOne(m, cpu.Abs(), pc, values, i);
      var e := cpu.RegisterSet(i, values[i]);
      i := i + 1;
    }
    SetsAll(m, cpu.Abs(), pc, values);
  }

  // ---------------------------------------------------------------- images

  function MapWith(ram: Word, video: bool, romWritable: bool): seq<Extent> {
    RamMap(ram, video) + [Extent(ROM_ADDRESS, ROM_SIZE, romWritable)]
  }

  /** The memory with its top open for writing, and closed again. */
  function Unlocked(f: Flat): Flat {
    f.(readOnly := set a | a in f.readOnly && a < ROM_ADDRESS)
  }

  predicate InRom(a: Word) {
    ROM_ADDRESS <= a
  }

  ghost function Locked(f: Flat): Flat {
    f.(readOnly := f.readOnly + (set a: Word | 0 <= a < 0x1_0000_0000 && InRom(a)))
  }

  /** Loads an image; registers, interrupts and the map stay. */
  method LoadImage(cpu: Cpu, bytes: seq<Byte>, from: Word, ghost es: seq<Extent>) returns (ok: bool)
    requires cpu.Valid() && LaidOut(cpu.bus.Blocks(), es)
    modifies ArraysOf(cpu.bus.zones)
    ensures cpu.Valid() && LaidOut(cpu.bus.Blocks(), es)
    ensures ok == LoadWords(old(cpu.Abs()).mem, bytes, from, 0).ok
    ensures cpu.Abs() == old(cpu.Abs()).(mem := LoadWords(old(cpu.Abs()).mem, bytes, from, 0).f)
  {
    hide Tidy, FlatOf, LoadWords, Sound;
    ghost var bs := cpu.bus.Blocks();
    TidyIsSound(bs);
    ok := LoadFile(cpu.bus, cpu.order, bytes, from);
    SameZonesTidy(bs, cpu.bus.Blocks());
    AtKept(bs, cpu.bus.Blocks(), es);
  }

  /** The last zone of the map is the one that holds the top of the address space. */
  lemma LastZone(bs: seq<Block>, ram: Word, video: bool, w: bool)
    requires LaidOut(bs, MapWith(ram, video, w)) && 0 < ram <= KEYBOARD_IN_ADDRESS && ram % 4 == 0
    ensures |bs| > 0 && Tidy(bs) && forall a: Word :: Find(bs, a) == |bs| - 1 <==> ROM_ADDRESS <= a
  {
    hide Tidy, Ascends, RamMap, Find, FindFrom, GoesAt;
    RamAscends(ram, video);
    var es := RamMap(ram, video);
    RamMapSize(ram, video);
    AscendsMore(es, Extent(ROM_ADDRESS, ROM_SIZE, w));
    AscendsIsTidy(bs, MapWith(ram, video, w));
    var n := |bs| - 1;
    assert ExtentOf(bs[n]) == Extent(ROM_ADDRESS, ROM_SIZE, w);
    forall a: Word ensures Find(bs, a) == n <==> ROM_ADDRESS <= a {
      if ROM_ADDRESS <= a {
        FindIs(bs, a, n);
      } else if Find(bs, a) == n {
        FindHolds(bs, a);
      }
    }
  }

  lemma RamMapSize(ram: Word, video: bool)
    ensures |RamMap(ram, video)| == |Devices(video)| + 1
  {
  }

  lemma RomModeFlat(bs: seq<Block>, ram: Word, video: bool, w: bool)
    requires LaidOut(bs, MapWith(ram, video, !w)) && 0 < ram <= KEYBOARD_IN_ADDRESS && ram % 4 == 0
    ensures |bs| > 0
    ensures var cs := bs[|bs| - 1 := bs[|bs| - 1].(writable := w)];
      && LaidOut(cs, MapWith(ram, video, w)) && Tidy(bs) && Tidy(cs)
      && FlatOf(cs) == if w then Unlocked(FlatOf(bs)) else Locked(FlatOf(bs))
  {
    hide Tidy, FlatOf, Find, RamMap;
    LastZone(bs, ram, video, !w);
    var n := |bs| - 1;
    var cs := bs[n := bs[n].(writable := w)];
    ModeIsAccess(bs, n, w);
    forall k | 0 <= k < |cs| ensures ExtentOf(cs[k]) == MapWith(ram, video, w)[k] && WellSized(cs[k]) {
      assert ExtentOf(bs[k]) == MapWith(ram, video, !w)[k];
    }
    assert FlatOf(cs).readOnly == (if w then Unlocked(FlatOf(bs)) else Locked(FlatOf(bs))).readOnly;
  }

  // ---------------------------------------------------------------- the command line

  /** Memory after both loads: the image behind the stack, the ROM image at the top. */
  ghost function BootMemory(f: Flat, image: seq<Byte>, rom: Option<seq<Byte>>): Option<Flat> {
    var l := LoadWords(f, image, STACK_SIZE, 0);
    if !l.ok then None
    else if rom.None? then Some(l.f)
    else RomMemory(l.f, rom.value)
  }

  ghost function RomMemory(f: Flat, rom: seq<Byte>): Option<Flat> {
    var r := LoadWords(Unlocked(f), rom, ROM_ADDRESS, 0);
    if r.ok then Some(Locked(r.f)) else None
  }

  method SetRomMode(vm: Vm, ghost ram: Word, ghost video: bool, mode: Mode)
    requires vm.cpu.Valid() && vm.cpu.bus == vm.bus && LaidOut(vm.bus.Blocks(), MapWith(ram, video, mode != ReadWrite))
    requires 0 < ram <= KEYBOARD_IN_ADDRESS && ram % 4 == 0
    requires |vm.bus.zones| > 0 && vm.bus.zones[|vm.bus.zones| - 1].memory == vm.rom && vm.rom != vm.cpu.pic.mask
    modifies vm.rom`mode
    ensures vm.cpu.Valid() && LaidOut(vm.bus.Blocks(), MapWith(ram, video, mode == ReadWrite))
    ensures vm.cpu.Abs() == old(vm.cpu.Abs()).(mem := if mode == ReadWrite then Unlocked(old(vm.cpu.Abs()).mem)
            else Locked(old(vm.cpu.Abs()).mem))
  {
    hide Tidy, FlatOf, MapWith, Unlocked, Locked;
    ghost var bs := vm.bus.Blocks();
    ghost var n := |bs| - 1;
    RomModeFlat(bs, ram, video, mode == ReadWrite);
    OwnMemories(vm.bus.zones);
    vm.rom.ModeSet(mode);
    assert vm.bus.Blocks() == bs[n := bs[n].(writable := mode == ReadWrite)];
  }

  lemma OwnMemories(zs: seq<Zone>)
    requires Apart(zs)
    ensures forall i, j :: 0 <= i < j < |zs| ==> zs[i].memory != zs[j].memory
  {
  }

  lemma VmParts(vm: Vm, ramSize: Word, video: bool)
    requires ValidVm(vm, ramSize, video)
    ensures LaidOut(vm.bus.Blocks(), MapWith(RoundUp(ramSize), video, false)) && vm.rom != vm.cpu.pic.mask
    ensures |vm.bus.zones| > 0 && vm.bus.zones[|vm.bus.zones| - 1].memory == vm.rom
    ensures vm.cpu.Valid() && vm.cpu.bus == vm.bus
  {
    hide RoundUp, RamMap, Ascends;
    OwnMemories(vm.bus.zones);
    var k :| 0 <= k < |vm.bus.zones| && MaskZone(vm.bus.zones[k], vm.pic.mask);
    var n := |vm.bus.zones| - 1;
    assert ExtentOf(vm.bus.Blocks()[n]) == MachineMap(RoundUp(ramSize), video)[n] == ROM_EXTENT;
    assert k != n;
  }

  /** The ROM is open for writing while its image is loaded. */
  method LoadRom(vm: Vm, ghost ram: Word, ghost video: bool, rom: seq<Byte>) returns (ok: bool)
    requires vm.cpu.Valid() && vm.cpu.bus == vm.bus && LaidOut(vm.bus.Blocks(), MapWith(ram, video, false))
    requires 0 < ram <= KEYBOARD_IN_ADDRESS && ram % 4 == 0
    requires |vm.bus.zones| > 0 && vm.bus.zones[|vm.bus.zones| - 1].memory == vm.rom && vm.rom != vm.cpu.pic.mask
    modifies vm.rom`mode, ArraysOf(vm.bus.zones)
    ensures vm.cpu.Valid() && ok == RomMemory(old(vm.cpu.Abs()).mem, rom).Some?
    ensures ok ==> vm.cpu.Abs() == old(vm.cpu.Abs()).(mem := RomMemory(old(vm.cpu.Abs()).mem, rom).value)
  {
    hide MapWith, LoadWords, Unlocked, Locked, LaidOut;
    SetRomMode(vm, ram, video, ReadWrite);
    ok := LoadImage(vm.cpu, rom, ROM_ADDRESS, MapWith(ram, video, true));
    if ok {
      SetRomMode(vm, ram, video, ReadOnly);
    }
  }

  method LoadImages(vm: Vm, ghost ram: Word, ghost video: bool, image: seq<Byte>, rom: Option<seq<Byte>>)
    returns (ok: bool)
    requires vm.cpu.Valid() && vm.cpu.bus == vm.bus && LaidOut(vm.bus.Blocks(), MapWith(ram, video, false))
    requires 0 < ram <= KEYBOARD_IN_ADDRESS && ram % 4 == 0
    requires |vm.bus.zones| > 0 && vm.bus.zones[|vm.bus.zones| - 1].memory == vm.rom && vm.rom != vm.cpu.pic.mask
    modifies vm.rom`mode, ArraysOf(vm.bus.zones)
    ensures vm.cpu.Valid() && ok == BootMemory(old(vm.cpu.Abs()).mem, image, rom).Some?
    ensures ok ==> vm.cpu.Abs() == old(vm.cpu.Abs()).(mem := BootMemory(old(vm.cpu.Abs()).mem, image, rom).value)
  {
    hide MapWith, LoadWords, RomMemory, LaidOut, Tidy, FlatOf;
    ok := LoadImage(vm.cpu, image, STACK_SIZE, MapWith(ram, video, false));
    if ok && rom.Some? {
      ok := LoadRom(vm, ram, video, rom.value);
    }
  }

  /** Loads the images and sets the registers, as the command line asks. The process ends when
      an image does not fit. */
  method Boot(vm: Vm, ghost ramSize: Word, ghost video: bool, image: seq<Byte>, rom: Option<seq<Byte>>, pc: Word,
              values: seq<Word>)
    returns (ok: bool)
    requires ValidVm(vm, ramSize, video) && 0 < ramSize <= 0xFFFF_FFFC && RoundUp(ramSize) <= KEYBOARD_IN_ADDRESS
    requires |values| == vm.cpu.registers.Length <= 250
    modifies vm.cpu, vm.cpu.registers, vm.rom`mode, ArraysOf(vm.bus.zones)
    ensures vm.cpu.Valid() && ok == BootMemory(old(vm.cpu.Abs()).mem, image, rom).Some?
    ensures ok ==>
              Prepared(old(vm.cpu.Abs()).(mem := BootMemory(old(vm.cpu.Abs()).mem, image, rom).value), vm.cpu.Abs(),
                  pc, values)
  {
    hide RoundUp, MapWith, BootMemory, Prepared, ValidVm;
    VmParts(vm, ramSize, video);
    RoundedRam(ramSize);
    ok := LoadImages(vm, RoundUp(ramSize), video, image, rom);
    if ok {
      SetRegisters(vm.cpu, pc, values);
    }
  }
}
