/** From source text to result: assemble, build the machine, load, run. */
module EndToEnd {
  import opened Words
  import opened Isa
  import opened Arch
  import opened FlatMemory
  import opened Machine
  import opened OpenRuns
  import opened Assembler
  import opened Grammar
  import opened Parsers
  import opened Printing
  import opened Assembling
  import opened Symbolic
  import opened Execution
  import opened Zones
  import opened Buses
  import opened Memories
  import opened Cpus
  import opened Layout
  import opened Vms
  import opened Loader
  import opened Booting
  import opened Footprint
  import Rom
  import Fibonacci

  const DEFAULT_RAM_SIZE: Word := STACK_SIZE + 1024

  // ---------------------------------------------------------------- loading

  /** A loaded image shows in memory. */
  lemma LoadShows(f: Flat, bytes: seq<Byte>, from: Word)
    requires from + |bytes| <= WORD_LIMIT && LoadWords(f, bytes, from, 0).ok
    ensures Shows(LoadWords(f, bytes, from, 0).f, bytes, from) && SameShape(f, LoadWords(f, bytes, from, 0).f)
  {
    LoadStores(f, bytes, from, 0);
  }

  /** An image that assembled at an address and was loaded there is the program. */
  lemma LoadedProgram(p: Program, f: Flat)
    requires Valid(p) && LoadWords(f, ImageOf(p), p.origin, 0).ok
    ensures Loaded(p, LoadWords(f, ImageOf(p), p.origin, 0).f) && SameShape(f, LoadWords(f, ImageOf(p), p.origin, 0).f)
  {
    hide LoadWords, Loaded, Shows, Resolvable, MapsPrefix, NodeFits;
    ImageLength(p.nodes, |p.nodes|, p.labels);
    LoadShows(f, ImageOf(p), p.origin);
    ImageIsLoaded(p, LoadWords(f, ImageOf(p), p.origin, 0).f);
  }

  // ---------------------------------------------------------------- the ROM

  /** How many empty and comment lines the ROM's source has in front of each line after the first. */
  const ROM_GAPS: seq<nat> := [0, 2, 0, 0, 0, 0, 1, 0, 0, 0, 0, 0, 1]

  /** The lines of the ROM's source; the first one takes its base from a variable. */
  function RomFile(): seq<Token> {
    EmptyLines(8) + ([Directive("base"), Variable(ROM_START), Eol] + PrintAll(Rom.ROM[1..], ROM_GAPS))
  }

  lemma RomPrintable()
    ensures AllPrintable(Rom.ROM[1..])
  {
    hide Printable;
    forall k | 1 <= k < |Rom.ROM| && Rom.ROM[k].Ins? ensures Printable(Rom.ROM[k].i) {
      RomLinePrintable(k);
    }
    forall k | 0 <= k < |Rom.ROM[1..]| && Rom.ROM[1..][k].Ins? ensures Printable(Rom.ROM[1..][k].i) {
      assert Rom.ROM[1..][k] == Rom.ROM[k + 1];
    }
  }

  lemma RomLinePrintable(k: nat)
    requires k < |Rom.ROM| && Rom.ROM[k].Ins?
    ensures Printable(Rom.ROM[k].i)
  {
    hide Args;
    Rom.Declared();
  }

  /** Behind the header the ROM's file is the text of the dispatcher. */
  lemma RomFileParses(symbols: Symbols)
    requires ROM_START in symbols && symbols[ROM_START] == ROM_ADDRESS
    ensures ParseAll(RomFile(), symbols) == Some(Parsed(Rom.ROM, symbols))
  {
    hide Printable, NextStep, PrintAll, EmptyLines;
    RomPrintable();
    ParseUndoesPrint(Rom.ROM[1..], ROM_GAPS, symbols);
    BaseVariable(ROM_START, PrintAll(Rom.ROM[1..], ROM_GAPS), symbols, 8);
    assert [Base(ROM_ADDRESS)] + Rom.ROM[1..] == Rom.ROM;
  }

  lemma RomAssembles()
    ensures ParseFiles([HeaderFile(), RomFile()], map[]).Some?
    ensures ParseFiles([HeaderFile(), RomFile()], map[]).value.nodes == Rom.ROM
    ensures Valid(Rom.DISPATCHER) && Assembles([HeaderFile(), RomFile()], ImageOf(Rom.DISPATCHER))
  {
    hide ParseAll, MapsPrefix, Resolvable, Encodable, Image, Define, RomFile, HeaderFile;
    HeaderDefines();
    RomFileParses(Define(HEADER, map[]));
    TwoFiles(HeaderFile(), RomFile(), Parsed([], Define(HEADER, map[])), Parsed(Rom.ROM, Define(HEADER, map[])));
    Rom.RomValid();
    Rom.RomLabels();
  }

  lemma TwoFiles(first: seq<Token>, second: seq<Token>, parsed: Parsed, more: Parsed)
    requires ParseAll(first, map[]) == Some(parsed) && ParseAll(second, parsed.symbols) == Some(more)
    ensures ParseFiles([first, second], map[]) == Some(Parsed(parsed.nodes + more.nodes, more.symbols))
  {
    hide ParseAll;
    assert [first, second][1..] == [second];
    assert ParseFiles([], more.symbols) == Some(Parsed([], more.symbols));
    assert more.nodes + [] == more.nodes;
    assert ParseFiles([second], parsed.symbols) == Some(more);
  }

  /** The header and the source of the ROM are assembled to the image of the dispatcher. */
  method AssembleRom() returns (image: seq<Byte>)
    ensures Valid(Rom.DISPATCHER) && image == ImageOf(Rom.DISPATCHER)
  {
    hide Image, MapsPrefix, Resolvable, Encodable, Assembles, HeaderFile, RomFile, ParseFiles;
    RomAssembles();
    Rom.RomLabels();
    var assembled := Assemble([HeaderFile(), RomFile()]);
    OneImage([HeaderFile(), RomFile()], assembled.value, Rom.LABELS);
    image := assembled.value;
  }

  /** A machine booted with the assembled ROM has its interrupt dispatcher installed. */
  lemma BootedRom(f: Flat, image: seq<Byte>)
    requires Valid(Rom.DISPATCHER)
    requires BootMemory(f, image, Some(ImageOf(Rom.DISPATCHER))).Some?
    ensures Rom.RomInstalled(BootMemory(f, image, Some(ImageOf(Rom.DISPATCHER))).value)
  {
    hide LoadWords, ImageOf, Resolvable, MapsPrefix, AllWellShaped, NodeFits, Loaded, Encodable;
    var p := Rom.DISPATCHER;
    var l := LoadWords(f, image, STACK_SIZE, 0).f;
    LoadedProgram(p, Unlocked(l));
    var g := LoadWords(Unlocked(l), ImageOf(p), ROM_ADDRESS, 0).f;
    SameCells(p, g, Locked(g));
    forall a: Word | ROM_ADDRESS <= a ensures a in Locked(g).readOnly {
      assert InRom(a);
    }
  }

  // ---------------------------------------------------------------- the machine with the ROM

  /** The interrupt masks are mapped and writable on every machine. */
  lemma MasksOnMap(bs: seq<Block>, ram: Word, video: bool)
    requires LaidOut(bs, MachineMap(ram, video)) && 0 < ram <= KEYBOARD_IN_ADDRESS && ram % 4 == 0
    ensures MaskMapped(FlatOf(bs))
  {
    hide FlatOf, Tidy, Ascends;
    RomStep(ram, video);
    AscendsIsTidy(bs, MachineMap(ram, video));
    assert MachineMap(ram, video)[4] == Devices(video)[3] == IMASK;
    assert ExtentOf(bs[4]) == IMASK;
    forall k | 0 <= k < 8 ensures Writable(FlatOf(bs), IMASK_ADDRESS + 4 * k) {
      ShowsZone(bs, 4, IMASK_ADDRESS + 4 * k);
    }
  }

  /** Every word of the ROM is mapped. */
  lemma RomMapped(bs: seq<Block>, ram: Word, video: bool, a: Word)
    requires LaidOut(bs, MachineMap(ram, video)) && 0 < ram <= KEYBOARD_IN_ADDRESS && ram % 4 == 0
    requires ROM_ADDRESS <= a && a % 4 == 0
    ensures Readable(FlatOf(bs), a)
  {
    hide FlatOf, Tidy, Ascends, Devices;
    RomStep(ram, video);
    AscendsIsTidy(bs, MachineMap(ram, video));
    var n := |bs| - 1;
    assert ExtentOf(bs[n]) == MachineMap(ram, video)[n] == ROM_EXTENT;
    ShowsZone(bs, n, a);
  }

  lemma MasksKept(f: Flat, g: Flat)
    requires MaskMapped(f) && f.cells.Keys == g.cells.Keys
    requires forall a: Word :: a < ROM_ADDRESS && a in g.readOnly ==> a in f.readOnly
    ensures MaskMapped(g)
  {
    forall k | 0 <= k < 8 ensures Writable(g, IMASK_ADDRESS + 4 * k) {
      assert Writable(f, IMASK_ADDRESS + 4 * k);
    }
  }

  /** Booting every machine with an image that fits its RAM and the ROM succeeds, and leaves what
      interrupts need: the dispatcher in the ROM, and the masks. */
  lemma RomBoots(bs: seq<Block>, ram: Word, video: bool, image: seq<Byte>)
    requires LaidOut(bs, MachineMap(ram, video)) && STACK_SIZE + |image| <= ram <= KEYBOARD_IN_ADDRESS && ram % 4 == 0
    ensures Valid(Rom.DISPATCHER)
    ensures var booted := BootMemory(FlatOf(bs), image, Some(ImageOf(Rom.DISPATCHER)));
      booted.Some? && Rom.RomInstalled(booted.value) && MaskMapped(booted.value)
  {
    hide FlatOf, LoadWords, LaidOut, MachineMap, ImageOf, Resolvable, MapsPrefix, AllWellShaped, NodeFits, Encodable,
         MaskMapped, Rom.RomInstalled, Sorted, Disjoint, AllFit;
    MapAccess(bs, ram, video);
    Rom.RomValid();
    var f := FlatOf(bs);
    var l := LoadWords(f, image, STACK_SIZE, 0);
    ImageFits(bs, ram, video, image);
    RomImageSize();
    var rom := ImageOf(Rom.DISPATCHER);
    var r := LoadWords(Unlocked(l.f), rom, ROM_ADDRESS, 0);
    forall j | 0 <= j < |rom| / 4 ensures Writable(Unlocked(l.f), Wrap(ROM_ADDRESS + 4 * j)) {
      RomMapped(bs, ram, video, ROM_ADDRESS + 4 * j);
    }
    LoadSucceeds(Unlocked(l.f), rom, ROM_ADDRESS, 0);
    LoadShows(Unlocked(l.f), rom, ROM_ADDRESS);
    BootedRom(f, image);
    MasksOnMap(bs, ram, video);
    MasksKept(f, Locked(r.f));
  }

  /** An image that fits the RAM behind the stack is loaded. */
  lemma ImageFits(bs: seq<Block>, ram: Word, video: bool, image: seq<Byte>)
    requires LaidOut(bs, MachineMap(ram, video)) && STACK_SIZE + |image| <= ram <= KEYBOARD_IN_ADDRESS && ram % 4 == 0
    ensures var l := LoadWords(FlatOf(bs), image, STACK_SIZE, 0); l.ok && SameShape(FlatOf(bs), l.f)
  {
    hide LoadWords, FlatOf, LaidOut, MachineMap, Sorted, Disjoint, AllFit;
    MapAccess(bs, ram, video);
    forall j | 0 <= j < |image| / 4 ensures Writable(FlatOf(bs), Wrap(STACK_SIZE + 4 * j)) {
      assert STACK_SIZE + 4 * j < ram && (STACK_SIZE + 4 * j) % 4 == 0;
    }
    LoadSucceeds(FlatOf(bs), image, STACK_SIZE, 0);
    LoadShows(FlatOf(bs), image, STACK_SIZE);
  }

  lemma RomImageSize()
    ensures Valid(Rom.DISPATCHER) && |ImageOf(Rom.DISPATCHER)| <= 112
  {
    hide Offset, Image, NodeFits, MapsPrefix, Resolvable;
    Rom.RomValid();
    ImageLength(Rom.ROM, |Rom.ROM|, Rom.LABELS);
    OffsetBound(Rom.ROM, |Rom.ROM|);
  }

  lemma SameCells(p: Program, f: Flat, g: Flat)
    requires Valid(p) && Loaded(p, f) && g.cells == f.cells
    ensures Loaded(p, g)
  {
    hide Valid, ImmediateOf, FirstWord, AddressOf;
    forall k | 0 <= k < |p.nodes| ensures NodeLoaded(p, g, k) {
      assert NodeLoaded(p, f, k);
    }
  }

  // ---------------------------------------------------------------- the Fibonacci program

  lemma FibonacciImage(p: Program)
    requires Fibonacci.IsFib(p)
    ensures Valid(p) && |ImageOf(p)| <= 200
  {
    hide Offset, Image;
    ImageLength(p.nodes, 25, p.labels);
    OffsetBound(p.nodes, 25);
  }

  /** A machine with RAM for the program, booted with its image, is ready to run it. */
  lemma BootedFibonacci(p: Program, bs: seq<Block>, ram: Word, video: bool, m: State, t: State, values: seq<Word>)
    requires Fibonacci.IsFib(p) && p.origin == STACK_SIZE
    requires LaidOut(bs, MachineMap(ram, video)) && STACK_SIZE + 200 <= ram <= KEYBOARD_IN_ADDRESS && ram % 4 == 0
    requires m.mem == FlatOf(bs) && m.sp == STACK_SIZE && !m.enabled
    requires BootMemory(m.mem, ImageOf(p), None).Some? && 32 <= |values| <= 250
    requires Prepared(m.(mem := BootMemory(m.mem, ImageOf(p), None).value), t, STACK_SIZE, values)
    ensures Fibonacci.Started(p, t.(running := true, panic := ErrOk))
  {
    hide Fibonacci.IsFib, LoadWords, Loaded, FlatOf, LaidOut, MachineMap, Valid, ImageOf;
    MapAccess(bs, ram, video);
    FibonacciImage(p);
    LoadedProgram(p, m.mem);
    forall a: Word | 0 <= a < STACK_SIZE && a % 4 == 0 ensures Writable(t.mem, a) {
      assert Writable(m.mem, a);
    }
  }

  /** The image fits: loading it succeeds. */
  lemma FibonacciFits(p: Program, bs: seq<Block>, ram: Word, video: bool)
    requires Fibonacci.IsFib(p) && LaidOut(bs, MachineMap(ram, video))
            && STACK_SIZE + 200 <= ram <= KEYBOARD_IN_ADDRESS && ram % 4 == 0
    ensures Tidy(bs) && BootMemory(FlatOf(bs), ImageOf(p), None).Some?
  {
    hide Fibonacci.IsFib, LoadWords, FlatOf, LaidOut, MachineMap, Resolvable, MapsPrefix, AllWellShaped, NodeFits,
         Encodable, ImageOf, Sorted, Disjoint, AllFit;
    MapAccess(bs, ram, video);
    FibonacciImage(p);
    ImageFits(bs, ram, video, ImageOf(p));
  }

  /** How many empty and comment lines the source has in front of each line with a node. */
  const FIB_GAPS: seq<nat> := [4, 1, 0, 1, 0, 4, 1, 0, 0, 1, 1, 0, 0, 1, 0, 2, 0, 0, 2, 0, 0, 0, 0, 2, 0]

  lemma FibonacciPrintable()
    ensures AllPrintable(Fibonacci.FIB)
  {
    hide Printable;
    forall k | 0 <= k < |Fibonacci.FIB| && Fibonacci.FIB[k].Ins? ensures Printable(Fibonacci.FIB[k].i) {
      LinePrintable(k);
    }
  }

  lemma LinePrintable(k: nat)
    requires k < |Fibonacci.FIB| && Fibonacci.FIB[k].Ins?
    ensures Printable(Fibonacci.FIB[k].i)
  {
    hide Args;
    Fibonacci.Declared();
  }

  function FibonacciFile(): seq<Token> {
    PrintAll(Fibonacci.FIB, FIB_GAPS)
  }

  /** The header and the file of the program assemble, to the program's image. */
  lemma FibonacciAssembles(labels: Labels)
    requires MapsPrefix(Fibonacci.FIB, |Fibonacci.FIB|, labels)
    ensures ParseFiles([HeaderFile(), FibonacciFile()], map[]).Some?
    ensures ParseFiles([HeaderFile(), FibonacciFile()], map[]).value.nodes == Fibonacci.FIB
    ensures Encodable(Fibonacci.FIB, labels)
    ensures Assembles([HeaderFile(), FibonacciFile()], Image(Fibonacci.FIB, |Fibonacci.FIB|, labels))
  {
    hide Fibonacci.IsFib, MapsPrefix, Resolvable, PrintAll, ParseAll, Encodable, Image, Define, HeaderFile;
    var symbols := Define(HEADER, map[]);
    HeaderDefines();
    FibonacciPrintable();
    ParseUndoesPrint(Fibonacci.FIB, FIB_GAPS, symbols);
    TwoFiles(HeaderFile(), FibonacciFile(), Parsed([], symbols), Parsed(Fibonacci.FIB, symbols));
    Fibonacci.FibResolvable();
    var p := FibonacciAt(labels);
  }

  /** The lines of the source are parsed, resolved and emitted. */
  method AssembleFibonacci() returns (image: seq<Byte>, ghost p: Program)
    ensures Fibonacci.IsFib(p) && p.origin == STACK_SIZE && image == ImageOf(p)
  {
    hide Image, Fibonacci.IsFib, MapsPrefix, Resolvable, Encodable, Assembles, HeaderFile, FibonacciFile, ParseFiles;
    var assembled := Assemble([HeaderFile(), FibonacciFile()]);
    ghost var labels := FibonacciLabels();
    FibonacciAssembles(labels);
    p := FibonacciAt(labels);
    OneImage([HeaderFile(), FibonacciFile()], assembled.value, labels);
    image := assembled.value;
  }

  lemma FibonacciLabels() returns (labels: Labels)
    ensures MapsPrefix(Fibonacci.FIB, |Fibonacci.FIB|, labels)
  {
    hide Offset;
    Fibonacci.FibResolvable();
    labels := LabelsOf(Fibonacci.FIB, |Fibonacci.FIB|);
  }

  lemma FibonacciAt(labels: Labels) returns (p: Program)
    requires MapsPrefix(Fibonacci.FIB, |Fibonacci.FIB|, labels)
    ensures p == Program(Fibonacci.FIB, labels, STACK_SIZE) && Fibonacci.IsFib(p)
    ensures Encodable(Fibonacci.FIB, labels)
  {
    hide Valid, MapsPrefix;
    p := Program(Fibonacci.FIB, labels, STACK_SIZE);
    ValidEncodes(p);
  }

  lemma ValidEncodes(p: Program)
    ensures Fibonacci.IsFib(p) ==> Encodable(p.nodes, p.labels)
  {
    hide Resolvable, MapsPrefix, NodeFits, AllWellShaped;
  }

  /** Assembles the program, builds a machine with the default RAM, loads the image behind the
      stack and puts n into r0. */
  method BootFibonacci(n: Word, order: ByteOrder) returns (cpu: Cpu, ghost p: Program)
    ensures cpu.Valid() && Fibonacci.IsFib(p) && cpu.registers.Length == 32
    ensures fresh(cpu) && fresh(cpu.registers) && fresh(cpu.pic.active) && fresh(ArraysOf(cpu.bus.zones))
    ensures var first := cpu.Abs().(running := true, panic := ErrOk);
      && Fibonacci.Started(p, first) && first.pc == p.origin && first.sp == STACK_SIZE && first.regs[0] == n
  {
    hide ImageOf, ValidVm, BootMemory, Fibonacci.IsFib, Fibonacci.Started, LaidOut;
    var image;
    image, p := AssembleFibonacci();
    DefaultRam();
    var vm := CreateVm(DEFAULT_RAM_SIZE, 32, false, order);
    cpu := vm.cpu;
    MachineParts(vm);
    ghost var bs := vm.bus.Blocks();
    ghost var m := cpu.Abs();
    FibonacciFits(p, bs, DEFAULT_RAM_SIZE, false);
    var values := [n] + seq(31, _ => 0);
    var ok := Boot(vm, DEFAULT_RAM_SIZE, false, image, None, STACK_SIZE, values);
    BootedFibonacci(p, bs, DEFAULT_RAM_SIZE, false, m, cpu.Abs(), values);
  }

  /** The whole way, on either host and whatever the devices trigger: from the source lines to the
      result. With enough turns the machine stops, and when it has stopped r3 holds Fibonacci
      of n, or, for n above 512, it has panicked on a write. */
  method RunFibonacci(n: Word, order: ByteOrder, schedule: Schedule)
    returns (stopped: bool, result: Word, panic: CpuError)
    ensures |schedule| >= Fibonacci.ProgramTurns(n, STACK_SIZE) ==> stopped
    ensures stopped ==> if n <= 512 then panic == ErrOk && result == Wrap(Fibonacci.Fib(n)) else panic == ErrWrite
  {
    hide OpenRun, Fibonacci.IsFib, Fibonacci.Started, Fibonacci.Fib, Fibonacci.ProgramTurns;
    var cpu, p := BootFibonacci(n, order);
    ghost var first := cpu.Abs().(running := true, panic := ErrOk);
    cpu.Loop(schedule);
    stopped, result, panic := !cpu.running, cpu.registers[3], cpu.panic;
    if stopped {
      Fibonacci.FibonacciEnds(p, first, schedule);
    } else if |schedule| >= Fibonacci.ProgramTurns(n, STACK_SIZE) {
      Fibonacci.FibonacciProgram(p, first, schedule);
    }
  }

  lemma DefaultRam()
    ensures RoundUp(DEFAULT_RAM_SIZE) == DEFAULT_RAM_SIZE
  {
  }

  lemma MachineParts(vm: Vm)
    requires ValidVm(vm, DEFAULT_RAM_SIZE, false)
    ensures vm.cpu.Valid() && vm.cpu.bus == vm.bus && vm.cpu.pic == vm.pic
            && LaidOut(vm.bus.Blocks(), MachineMap(DEFAULT_RAM_SIZE, false))
    ensures vm.cpu.Abs().mem == FlatOf(vm.bus.Blocks())
  {
    hide MachineMap, Ascends;
    DefaultRam();
  }
}
