/** Building the machine: memories, controller, devices and CPU on one bus. */
module Vms {
  import opened Words
  import opened Arch
  import opened FlatMemory
  import opened Interrupts
  import opened Zones
  import opened BusRuns
  import opened Memories
  import opened Buses
  import opened Pics
  import opened Cpus
  import opened Layout

  const KEYBOARD_WRITTEN: Condition := 0
  const META_WRITTEN: Condition := 1

  lemma InsertedSets(zs: seq<Zone>, z: Zone, p: nat)
    requires p <= |zs|
    ensures ArraysOf(zs[..p] + [z] + zs[p..]) == ArraysOf(zs) + {z.memory.raw}
  {
    var ws := zs[..p] + [z] + zs[p..];
    assert ws[p] == z;
    forall k | 0 <= k < |zs| ensures zs[k].memory.raw in ArraysOf(ws) {
      assert zs[k] == ws[if k < p then k else k + 1];
    }
  }

  /** Attaches a memory where the map has room for it. */
  method AttachAt(bus: Bus, memory: Memory, from: Word, name: string, ghost es: seq<Extent>, ghost p: nat)
    requires bus.Valid() && |bus.zones| < 255 && memory.Valid() && memory.raw !in ArraysOf(bus.zones)
    requires LaidOut(bus.Blocks(), es) && Ascends(es) && GoesAt(es, from, p)
    modifies bus`zones
    ensures bus.Valid() && p <= |es| && |old(bus.zones)| == |es|
    ensures bus.zones == old(bus.zones)[..p] + [Zone(memory, from, name, [])] + old(bus.zones)[p..]
    ensures LaidOut(bus.Blocks(), es[..p] + [Extent(from, memory.size, memory.mode == ReadWrite)] + es[p..])
  {
    hide Ascends, GoesAt, SpotFrom, Refused;
    ghost var bs := bus.Blocks();
    ghost var b := BlockOf(Zone(memory, from, name, []));
    SpotIs(bs, es, from, p);
    Placement(bs, es, b, p);
    assert forall k :: 0 <= k < |bus.zones| ==> bus.zones[k].memory.raw in ArraysOf(bus.zones);
    var e := bus.MemoryAttach(memory, from, name);
  }

  /** The map es grows to fs when extent e goes in front of its extent p. */
  predicate Grows(es: seq<Extent>, e: Extent, p: nat, fs: seq<Extent>) {
    Ascends(es) && GoesAt(es, e.from, p) && fs == es[..p] + [e] + es[p..]
  }

  /** The device memories are whole words, so rounding keeps their sizes. */
  lemma WholeWords()
    ensures RoundUp(4) == 4 && RoundUp(VIDEO_BUFFER_SIZE) == VIDEO_BUFFER_SIZE && RoundUp(ROM_SIZE) == ROM_SIZE
  {
  }

  const PIC_MAP: seq<Extent> := [IDT, IMASK]
  const KEYBOARD_MAP: seq<Extent> := [KEYBOARD_IN, KEYBOARD_OUT, IDT, IMASK]

  lemma VideoSteps()
    ensures Grows(KEYBOARD_MAP, VIDEO_META, 4, Devices(false))
  {
  }

  const HALF_VIDEO: seq<Extent> := [KEYBOARD_IN, KEYBOARD_OUT, IDT, IMASK, VIDEO_META, VIDEO_BUFFER_0]

  lemma BufferStep0()
    ensures Grows(Devices(false), VIDEO_BUFFER_0, 5, HALF_VIDEO) && Ascends(HALF_VIDEO)
  {
  }

  lemma BufferStep1()
    ensures Grows(HALF_VIDEO, VIDEO_BUFFER_1, 6, Devices(true))
  {
  }

  lemma NothingAt(bus: Bus)
    requires bus.Valid() && bus.zones == []
    ensures LaidOut(bus.Blocks(), [])
  {
  }

  /** New contents or notifications do not move zones. */
  lemma AtKept(bs: seq<Block>, cs: seq<Block>, es: seq<Extent>)
    requires LaidOut(bs, es) && SameZones(bs, cs) && forall k :: 0 <= k < |bs| ==> bs[k].writable == cs[k].writable
    ensures LaidOut(cs, es)
  {
    forall k | 0 <= k < |cs| ensures ExtentOf(cs[k]) == es[k] && WellSized(cs[k]) {
      assert ExtentOf(bs[k]) == es[k];
    }
  }

  lemma StartsAt(bs: seq<Block>, es: seq<Extent>, k: nat)
    requires LaidOut(bs, es) && Ascends(es) && k < |es|
    ensures Find(bs, es[k].from) == k && Tidy(bs)
  {
    hide FindFrom, Tidy;
    AscendsIsTidy(bs, es);
    assert ExtentOf(bs[k]) == es[k];
    FindIs(bs, es[k].from, k);
  }

  /** Everything the CPU object needs from bus and controller. */
  ghost predicate Built(bus: Bus, pic: Pic, es: seq<Extent>)
    reads bus, MemoriesOf(bus.zones), ArraysOf(bus.zones), pic.mask
  {
    && bus.Valid() && LaidOut(bus.Blocks(), es) && Ascends(es)
    && pic.Valid() && pic.active !in ArraysOf(bus.zones)
    && exists k :: 0 <= k < |bus.zones| && MaskZone(bus.zones[k], pic.mask)
  }

  /** Attaching a memory of its own to a built bus leaves controller and masks as they are. */
  method AttachBlock(bus: Bus, pic: Pic, memory: Memory, from: Word, name: string,
                     ghost es: seq<Extent>, ghost p: nat, ghost fs: seq<Extent>)
    requires Built(bus, pic, es) && |bus.zones| < 255 && memory.Valid() && memory.raw !in ArraysOf(bus.zones)
    requires Grows(es, Extent(from, memory.size, memory.mode == ReadWrite), p, fs) && Ascends(fs)
    requires memory.raw != pic.active
    modifies bus`zones
    ensures Built(bus, pic, fs) && p <= |old(bus.zones)|
    ensures bus.zones == old(bus.zones)[..p] + [Zone(memory, from, name, [])] + old(bus.zones)[p..]
    ensures ArraysOf(bus.zones) == old(ArraysOf(bus.zones)) + {memory.raw}
  {
    hide LaidOut, Ascends, GoesAt;
    ghost var k :| 0 <= k < |bus.zones| && MaskZone(bus.zones[k], pic.mask);
    AttachAt(bus, memory, from, name, es, p);
    InsertedSets(old(bus.zones), Zone(memory, from, name, []), p);
    assert MaskZone(bus.zones[if k < p then k else k + 1], pic.mask);
  }

  /** Creates a memory and attaches it. */
  method AttachNew(bus: Bus, pic: Pic, bytes: Word, mode: Mode, from: Word, name: string,
                   ghost es: seq<Extent>, ghost p: nat, ghost fs: seq<Extent>)
    returns (memory: Memory)
    requires Built(bus, pic, es) && |bus.zones| < 255 && bytes <= 0xFFFF_FFFC
    requires Grows(es, Extent(from, RoundUp(bytes), mode == ReadWrite), p, fs) && Ascends(fs)
    modifies bus`zones
    ensures Built(bus, pic, fs) && fresh(memory) && fresh(memory.raw)
    ensures memory.Valid() && memory.size == RoundUp(bytes) && memory.mode == mode
    ensures p <= |old(bus.zones)|
            && bus.zones == old(bus.zones)[..p] + [Zone(memory, from, name, [])] + old(bus.zones)[p..]
    ensures ArraysOf(bus.zones) == old(ArraysOf(bus.zones)) + {memory.raw}
  {
    hide Ascends, GoesAt, LaidOut, RoundUp;
    ghost var bs := bus.Blocks();
    memory := new Memory.Create(bytes, mode);
    assert bus.Blocks() == bs;
    AttachBlock(bus, pic, memory, from, name, es, p, fs);
  }

  // ---------------------------------------------------------------- devices

  lemma FirstMaps()
    ensures Grows([], IDT, 0, [IDT]) && Grows([IDT], IMASK, 1, PIC_MAP) && Ascends(PIC_MAP)
  {
  }

  /** A controller as it is created: nothing pending, the devices' interrupts masked. */
  ghost predicate Unused(pic: Pic)
    reads pic.mask, pic.mask.raw, pic.active
  {
    && pic.Valid()
    && (forall i: Byte :: !Has(pic.Pending(), i))
    && (forall i: Byte :: Has(pic.MaskBank(), i) <==> i == INT_VSYNC || i == INT_TIMER || i == INT_KEYBOARD)
  }

  /** The interrupt controller: its descriptor table and its masks go on the bus. */
  method CreatePic(bus: Bus) returns (pic: Pic)
    requires bus.Valid() && bus.zones == []
    modifies bus`zones
    ensures Built(bus, pic, PIC_MAP) && |bus.zones| == 2
    ensures fresh(pic.active) && fresh(ArraysOf(bus.zones)) && Unused(pic)
  {
    hide Ascends, GoesAt, LaidOut;
    FirstMaps();
    NothingAt(bus);
    var idt := new Memory.Create(1024, ReadWrite);
    var mask := new Memory.Create(32, ReadWrite);
    AttachAt(bus, idt, IDT_ADDRESS, "IDT", [], 0);
    AttachAt(bus, mask, IMASK_ADDRESS, "IMask", [IDT], 1);
    pic := NewPic(bus, mask, PIC_MAP);
    assert MaskZone(bus.zones[1], pic.mask);
  }

  /** Creates the controller on its mask memory; the map stays. */
  method NewPic(bus: Bus, mask: Memory, ghost es: seq<Extent>) returns (pic: Pic)
    requires bus.Valid() && LaidOut(bus.Blocks(), es)
    requires mask.Valid() && mask.size == 32 && mask.mode == ReadWrite && forall k :: 0 <= k < 8 ==> mask.raw[k] == 0
    modifies mask.raw
    ensures bus.Valid() && LaidOut(bus.Blocks(), es)
    ensures fresh(pic.active) && pic.mask == mask && Unused(pic)
  {
    hide Has;
    ghost var bs := bus.Blocks();
    pic := new Pic.Create(mask);
    AtKept(bs, bus.Blocks(), es);
  }

  /** Registers a condition at the start of a zone; the map stays. */
  method Register(bus: Bus, pic: Pic, cond: Condition, address: Word, ghost es: seq<Extent>, ghost k: nat)
    requires Built(bus, pic, es) && k < |es| && es[k].from == address
    modifies bus`zones
    ensures Built(bus, pic, es) && |bus.zones| == |old(bus.zones)|
    ensures ArraysOf(bus.zones) == old(ArraysOf(bus.zones))
    ensures SignalsAt(bus.Blocks(), address) == old(SignalsAt(bus.Blocks(), address)) + [cond]
    ensures forall j :: 0 <= j < |bus.zones| ==> bus.zones[j].memory == old(bus.zones)[j].memory
  {
    hide Find, FindFrom, Ascends, SignalsAt, Tidy;
    ghost var bs := bus.Blocks();
    ghost var j :| 0 <= j < |bus.zones| && MaskZone(bus.zones[j], pic.mask);
    StartsAt(bs, es, k);
    var aborted := bus.NotificationRegister(cond, address);
    AtKept(bs, bus.Blocks(), es);
    RegisterSignals(bs, address, cond, address);
    SameMemories(old(bus.zones), bus.zones);
    assert MaskZone(bus.zones[j], pic.mask);
  }

  lemma SameMemories(zs: seq<Zone>, ws: seq<Zone>)
    requires |zs| == |ws| && forall k :: 0 <= k < |zs| ==> zs[k].(notes := []) == ws[k].(notes := [])
    ensures ArraysOf(ws) == ArraysOf(zs)
    ensures forall k :: 0 <= k < |zs| ==> ws[k].memory == zs[k].memory && ws[k].from == zs[k].from
  {
    forall k | 0 <= k < |zs| ensures ws[k].memory == zs[k].memory && ws[k].from == zs[k].from {
      assert zs[k].(notes := []).memory == ws[k].(notes := []).memory;
    }
  }

  lemma KeyboardOutMap()
    ensures Grows(PIC_MAP, KEYBOARD_OUT, 0, [KEYBOARD_OUT, IDT, IMASK]) && Ascends([KEYBOARD_OUT, IDT, IMASK])
  {
  }

  lemma KeyboardInMap()
    ensures Grows([KEYBOARD_OUT, IDT, IMASK], KEYBOARD_IN, 0, KEYBOARD_MAP) && Ascends(KEYBOARD_MAP)
  {
  }

  /** The keyboard: two words, and a condition for writes to one of them. */
  method CreateKeyboard(bus: Bus, pic: Pic) returns (ghost added: set<array<Word>>)
    requires Built(bus, pic, PIC_MAP) && |bus.zones| == 2
    modifies bus`zones
    ensures Built(bus, pic, KEYBOARD_MAP) && |bus.zones| == 4
    ensures fresh(added) && ArraysOf(bus.zones) == old(ArraysOf(bus.zones)) + added
    ensures KEYBOARD_WRITTEN in SignalsAt(bus.Blocks(), KEYBOARD_IN_ADDRESS)
  {
    hide Built, Grows, Ascends, SignalsAt, RoundUp, ArraysOf, MemoriesOf;
    KeyboardOutMap();
    KeyboardInMap();
    WholeWords();
    var keyboardOut := AttachNew(bus, pic, 4, ReadWrite, KEYBOARD_OUT_ADDRESS, "KBOut", PIC_MAP, 0,
        [KEYBOARD_OUT, IDT, IMASK]);
    var keyboardIn := AttachNew(bus, pic, 4, ReadWrite, KEYBOARD_IN_ADDRESS, "KBIn", [KEYBOARD_OUT, IDT, IMASK], 0,
        KEYBOARD_MAP);
    Register(bus, pic, KEYBOARD_WRITTEN, KEYBOARD_IN_ADDRESS, KEYBOARD_MAP, 0);
    added := {keyboardOut.raw, keyboardIn.raw};
  }

  /** The flags word of the screen has just the enabled bit. */
  ghost predicate ScreenEnabled(bus: Bus)
    reads bus, MemoriesOf(bus.zones), ArraysOf(bus.zones)
  {
    |bus.zones| > 4 && bus.zones[4].memory.raw[..] == [VIDEO_BIT_ENABLED]
  }

  /** The screen: its flags word, two buffers when it is switched on, and a condition for
      writes to the flags. */
  method CreateVideo(bus: Bus, pic: Pic, video: bool) returns (ghost added: set<array<Word>>)
    requires Built(bus, pic, KEYBOARD_MAP) && |bus.zones| == 4
    modifies bus`zones
    ensures Built(bus, pic, Devices(video)) && |bus.zones| <= 7
    ensures fresh(added) && ArraysOf(bus.zones) == old(ArraysOf(bus.zones)) + added
    ensures META_WRITTEN in SignalsAt(bus.Blocks(), VIDEO_META_ADDRESS) && ScreenEnabled(bus)
  {
    hide Built, Ascends, SignalsAt, ArraysOf, MemoriesOf, Devices;
    DevicesAscend(video);
    var meta := CreateMeta(bus, pic);
    added := {meta.raw};
    if video {
      ghost var buffers := AttachBuffers(bus, pic);
      added := added + buffers;
    }
    FlagsZone(video);
    Register(bus, pic, META_WRITTEN, VIDEO_META_ADDRESS, Devices(video), 4);
  }

  lemma FlagsZone(video: bool)
    ensures |Devices(video)| > 4 && Devices(video)[4] == VIDEO_META
  {
  }

  method CreateMeta(bus: Bus, pic: Pic) returns (meta: Memory)
    requires Built(bus, pic, KEYBOARD_MAP) && |bus.zones| == 4
    modifies bus`zones
    ensures Built(bus, pic, Devices(false)) && |bus.zones| == 5
    ensures fresh(meta.raw) && ArraysOf(bus.zones) == old(ArraysOf(bus.zones)) + {meta.raw}
    ensures bus.zones[4].memory == meta && meta.raw[..] == [VIDEO_BIT_ENABLED]
  {
    hide Built, Grows, Ascends, RoundUp, ArraysOf, MemoriesOf;
    VideoSteps();
    WholeWords();
    DevicesAscend(false);
    meta := AttachNew(bus, pic, 4, ReadWrite, VIDEO_META_ADDRESS, "VMeta", KEYBOARD_MAP, 4, Devices(false));
    EnableScreen(bus, pic, meta, Devices(false));
  }

  /** The screen starts enabled. */
  method EnableScreen(bus: Bus, pic: Pic, meta: Memory, ghost es: seq<Extent>)
    requires Built(bus, pic, es) && meta.Valid() && meta.size == 4 && meta.mode == ReadWrite && meta.raw != pic.active
    modifies meta.raw
    ensures Built(bus, pic, es) && meta.raw[..] == [VIDEO_BIT_ENABLED]
  {
    hide Ascends;
    ghost var bs := bus.Blocks();
    var e := meta.WordSet(0, VIDEO_BIT_ENABLED);
    AtKept(bs, bus.Blocks(), es);
  }

  method AttachBuffers(bus: Bus, pic: Pic) returns (ghost added: set<array<Word>>)
    requires Built(bus, pic, Devices(false)) && |bus.zones| == 5
    modifies bus`zones
    ensures Built(bus, pic, Devices(true)) && |bus.zones| == 7 && bus.zones[..5] == old(bus.zones)
    ensures fresh(added) && ArraysOf(bus.zones) == old(ArraysOf(bus.zones)) + added
  {
    hide Built, Grows, Ascends, RoundUp;
    WholeWords();
    BufferStep0();
    BufferStep1();
    DevicesAscend(true);
    var buffer0 := AttachNew(bus, pic, VIDEO_BUFFER_SIZE, ReadWrite, VIDEO_BUFFER_0_ADDRESS, "VBuf0", Devices(false),
        5, HALF_VIDEO);
    var buffer1 := AttachNew(bus, pic, VIDEO_BUFFER_SIZE, ReadWrite, VIDEO_BUFFER_1_ADDRESS, "VBuf1", HALF_VIDEO, 6,
        Devices(true));
    added := {buffer0.raw, buffer1.raw};
  }

  /** The bus with all devices, before RAM and ROM. */
  method CreateDevices(video: bool) returns (bus: Bus, pic: Pic)
    ensures Built(bus, pic, Devices(video)) && |bus.zones| <= 7 && fresh(bus)
    ensures fresh(pic.active) && fresh(ArraysOf(bus.zones)) && Unused(pic) && ScreenEnabled(bus)
  {
    hide Built, SignalsAt, ArraysOf, MemoriesOf, Devices;
    bus := new Bus.Create();
    pic := CreatePic(bus);
    EightWords(bus, pic, PIC_MAP);
    ghost var keyboard := CreateKeyboard(bus, pic);
    ghost var screen := CreateVideo(bus, pic, video);
  }

  lemma EightWords(bus: Bus, pic: Pic, es: seq<Extent>)
    requires Built(bus, pic, es)
    ensures pic.active.Length == 8
  {
  }

  // ---------------------------------------------------------------- the machine

  function RamMap(ram: Word, video: bool): seq<Extent> {
    [Extent(0, ram, true)] + Devices(video)
  }

  function MachineMap(ram: Word, video: bool): seq<Extent> {
    RamMap(ram, video) + [ROM_EXTENT]
  }

  lemma RamStep(ram: Word, video: bool)
    requires 0 < ram <= KEYBOARD_IN_ADDRESS && ram % 4 == 0
    ensures Grows(Devices(video), Extent(0, ram, true), 0, RamMap(ram, video))
  {
    hide Devices, Ascends;
    DevicesAscend(video);
    FirstAddress(video);
    assert Devices(video)[..0] == [] && Devices(video)[0..] == Devices(video);
  }

  lemma RamAscends(ram: Word, video: bool)
    requires 0 < ram <= KEYBOARD_IN_ADDRESS && ram % 4 == 0
    ensures Ascends(RamMap(ram, video))
    ensures GoesAt(RamMap(ram, video), ROM_ADDRESS, |Devices(video)| + 1)
  {
    hide Devices;
    DevicesAscend(video);
    FirstAddress(video);
    var es := RamMap(ram, video);
    forall k | 0 <= k < |es| ensures es[k].size >= 4 && ExtentEnd(es[k]) <= ROM_ADDRESS {
      assert k > 0 ==> es[k] == Devices(video)[k - 1];
    }
  }

  lemma {:induction false} AscendsMore(es: seq<Extent>, e: Extent)
    requires Ascends(es) && GoesAt(es, e.from, |es|) && e.size >= 4 && ExtentEnd(e) <= WORD_LIMIT
    ensures Ascends(es + [e])
  {
  }

  lemma RomStep(ram: Word, video: bool)
    requires 0 < ram <= KEYBOARD_IN_ADDRESS && ram % 4 == 0
    ensures Grows(RamMap(ram, video), ROM_EXTENT, |Devices(video)| + 1, MachineMap(ram, video))
    ensures Ascends(MachineMap(ram, video))
  {
    hide Devices, Ascends, GoesAt;
    RamAscends(ram, video);
    var es := RamMap(ram, video);
    AscendsMore(es, ROM_EXTENT);
    assert es[..|es|] == es && es[|es|..] == [];
  }

  lemma ZonesAre(bus: Bus, pic: Pic, es: seq<Extent>)
    requires Built(bus, pic, es)
    ensures |bus.zones| == |es|
  {
  }

  lemma CpuIsValid(cpu: Cpu, es: seq<Extent>)
    requires Built(cpu.bus, cpu.pic, es) && cpu.registers.Length <= 255 && cpu.registers != cpu.pic.active
    requires cpu.registers !in ArraysOf(cpu.bus.zones)
    ensures cpu.Valid() && LaidOut(cpu.bus.Blocks(), es)
  {
    hide Ascends, Tidy;
    AscendsIsTidy(cpu.bus.Blocks(), es);
  }

  lemma RoundedRam(bytes: Word)
    requires 0 < bytes <= 0xFFFF_FFFC
    ensures RoundUp(bytes) > 0 && RoundUp(bytes) % 4 == 0
  {
  }

  method AttachRamRom(bus: Bus, pic: Pic, ramSize: Word, video: bool) returns (ram: Memory, rom: Memory)
    requires Built(bus, pic, Devices(video)) && |bus.zones| <= 7
    requires 0 < ramSize <= 0xFFFF_FFFC && RoundUp(ramSize) <= KEYBOARD_IN_ADDRESS && Unused(pic)
    modifies bus`zones
    ensures Unused(pic)
    ensures Built(bus, pic, MachineMap(RoundUp(ramSize), video)) && fresh(ram.raw) && fresh(rom.raw) && fresh(rom)
    ensures |bus.zones| > 0 && bus.zones[|bus.zones| - 1].memory == rom
    ensures ArraysOf(bus.zones) == old(ArraysOf(bus.zones)) + {ram.raw} + {rom.raw}
  {
    hide Built, Ascends, Devices, Grows, RoundUp, RamMap, MachineMap;
    var size := RoundUp(ramSize);
    RoundedRam(ramSize);
    WholeWords();
    RamStep(size, video);
    RamAscends(size, video);
    RomStep(size, video);
    ZonesAre(bus, pic, Devices(video));
    ram := AttachNew(bus, pic, ramSize, ReadWrite, 0, "RAM", Devices(video), 0, RamMap(size, video));
    rom := AttachNew(bus, pic, ROM_SIZE, ReadOnly, ROM_ADDRESS, "ROM", RamMap(size, video),
                     |Devices(video)| + 1, MachineMap(size, video));
  }

  method NewCpu(bus: Bus, pic: Pic, registerCount: Byte, order: ByteOrder, ghost es: seq<Extent>) returns (cpu: Cpu)
    requires Built(bus, pic, es) && 32 <= registerCount
    ensures Built(bus, pic, es) && cpu.bus == bus && cpu.pic == pic && cpu.order == order
    ensures fresh(cpu) && fresh(cpu.registers) && cpu.registers.Length == registerCount
    ensures cpu.IsReset()
  {
    hide Ascends;
    AscendsIsTidy(bus.Blocks(), es);
    cpu := new Cpu.Create(bus, pic, registerCount, order);
  }

  /** The parts of a machine; the record itself does not change once it is built. */
  datatype Vm = Vm(bus: Bus, pic: Pic, ram: Memory, rom: Memory, cpu: Cpu)

  /** The parts belong together and lie where the map of a machine with that much RAM says. */
  ghost predicate ValidVm(vm: Vm, ramSize: Word, video: bool)
    reads vm.bus, MemoriesOf(vm.bus.zones), ArraysOf(vm.bus.zones), vm.pic.mask,
          vm.cpu, vm.cpu.bus, vm.cpu.pic.mask, MemoriesOf(vm.cpu.bus.zones), ArraysOf(vm.cpu.bus.zones)
  {
    && Built(vm.bus, vm.pic, MachineMap(RoundUp(ramSize), video))
    && vm.cpu.Valid() && vm.cpu.bus == vm.bus && vm.cpu.pic == vm.pic
    && |vm.bus.zones| > 0 && vm.bus.zones[|vm.bus.zones| - 1].memory == vm.rom
  }

  /** The devices first, then the CPU, then RAM at address 0 and ROM at the top. */
  method CreateVm(ramSize: Word, registerCount: Byte, video: bool, order: ByteOrder) returns (vm: Vm)
    requires 0 < ramSize <= 0xFFFF_FFFC && RoundUp(ramSize) <= KEYBOARD_IN_ADDRESS && 32 <= registerCount
    ensures ValidVm(vm, ramSize, video)
    ensures fresh(vm.cpu) && fresh(vm.cpu.registers) && fresh(vm.pic.active) && fresh(vm.rom)
            && fresh(ArraysOf(vm.bus.zones))
    ensures vm.cpu.order == order && vm.cpu.registers.Length == registerCount && vm.cpu.IsReset() && Unused(vm.pic)
  {
    hide Built, Unused, Devices, RoundUp, MachineMap, ArraysOf, MemoriesOf, LaidOut, Tidy, MaskZone, Cpu.Valid,
         Cpu.Wired;
    var bus, pic, cpu := CreateCpu(video, registerCount, order);
    var ram, rom := AttachRamRom(bus, pic, ramSize, video);
    CpuIsValid(cpu, MachineMap(RoundUp(ramSize), video));
    vm := Vm(bus, pic, ram, rom, cpu);
  }

  method CreateCpu(video: bool, registerCount: Byte, order: ByteOrder) returns (bus: Bus, pic: Pic, cpu: Cpu)
    requires 32 <= registerCount
    ensures Built(bus, pic, Devices(video)) && |bus.zones| <= 7 && cpu.bus == bus && cpu.pic == pic
            && cpu.order == order
    ensures fresh(bus) && fresh(cpu) && fresh(cpu.registers) && fresh(pic.active) && fresh(ArraysOf(bus.zones))
    ensures cpu.registers != pic.active && cpu.registers !in ArraysOf(bus.zones)
    ensures cpu.registers.Length == registerCount && cpu.IsReset() && Unused(pic)
  {
    hide Built, Devices;
    bus, pic := CreateDevices(video);
    cpu := NewCpu(bus, pic, registerCount, order, Devices(video));
  }
}
