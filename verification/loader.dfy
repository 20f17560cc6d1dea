/** From image file to memory: what loading writes, and that a loaded image is the program. */
module Loader {
  import opened Words
  import opened Isa
  import opened FlatMemory
  import opened Machine
  import opened Assembler
  import opened Symbolic
  import opened Simulation
  import opened Zones
  import opened BusRuns
  import opened Buses

  /** The words of an image file; bytes after the last whole word are dropped. */
  function WordAt(bytes: seq<Byte>, k: nat): Word
    requires 4 * k + 4 <= |bytes|
  {
    FromBe(bytes[4 * k..4 * k + 4])
  }

  datatype LoadResult = LoadResult(ok: bool, f: Flat)

  /** Stores word k, k+1, ... of the file at consecutive addresses, up to the first refusal. */
  function LoadWords(f: Flat, bytes: seq<Byte>, from: Word, k: nat): LoadResult
    requires 4 * k <= |bytes|
    decreases |bytes| - 4 * k
  {
    var a := Wrap(from + 4 * k);
    if 4 * k + 4 > |bytes| then LoadResult(true, f)
    else if !Writable(f, a) then LoadResult(false, f)
    else LoadWords(Put(f, a, WordAt(bytes, k)), bytes, from, k + 1)
  }

  /** Loading succeeds exactly when every word has a writable address. */
  lemma {:induction false} LoadSucceeds(f: Flat, bytes: seq<Byte>, from: Word, k: nat)
    requires 4 * k <= |bytes|
    ensures LoadWords(f, bytes, from, k).ok <==> forall j :: k <= j < |bytes| / 4 ==> Writable(f, Wrap(from + 4 * j))
    decreases |bytes| - 4 * k
  {
    var a := Wrap(from + 4 * k);
    if 4 * k + 4 <= |bytes| && Writable(f, a) {
      var g := Put(f, a, WordAt(bytes, k));
      LoadSucceeds(g, bytes, from, k + 1);
      assert forall x: Word :: Writable(g, x) <==> Writable(f, x);
    }
  }

  /** After loading, every word of the file is at its address and nothing else has changed. */
  lemma {:induction false} LoadStores(f: Flat, bytes: seq<Byte>, from: Word, k: nat)
    requires 4 * k <= |bytes| && from + |bytes| <= WORD_LIMIT && LoadWords(f, bytes, from, k).ok
    ensures var g := LoadWords(f, bytes, from, k).f;
      && SameShape(f, g)
      && (forall j :: k <= j < |bytes| / 4 ==>
          Readable(g, Wrap(from + 4 * j)) && g.cells[Wrap(from + 4 * j)] == WordAt(bytes, j))
      && (forall a :: a in f.cells && !(from + 4 * k <= a < from + |bytes|) ==> g.cells[a] == f.cells[a])
    decreases |bytes| - 4 * k
  {
    var a := Wrap(from + 4 * k);
    if 4 * k + 4 <= |bytes| {
      var h := Put(f, a, WordAt(bytes, k));
      assert a == from + 4 * k;
      assert h.cells.Keys == f.cells.Keys;
      LoadStores(h, bytes, from, k + 1);
      var g := LoadWords(f, bytes, from, k).f;
      assert g.cells[a] == h.cells[a];
    }
  }

  /** Memory shows the words of the file from the given address on. */
  predicate Shows(f: Flat, bytes: seq<Byte>, from: Word) {
    from + |bytes| <= WORD_LIMIT
    && forall j :: 0 <= j < |bytes| / 4 ==>
        Readable(f, Wrap(from + 4 * j)) && f.cells[Wrap(from + 4 * j)] == WordAt(bytes, j)
  }

  // ---------------------------------------------------------------- a shown image is the program

  function ImageOf(p: Program): seq<Byte>
    requires Encodable(p.nodes, p.labels)
  {
    Image(p.nodes, |p.nodes|, p.labels)
  }

  lemma {:induction false} OffsetAligned(nodes: seq<Node>, k: nat)
    requires k <= |nodes|
    ensures Offset(nodes, k) % 4 == 0
  {
    hide Length, HasImmediate;
    if k > 0 {
      OffsetAligned(nodes, k - 1);
      LengthOf(nodes[k - 1]);
    }
  }

  /** The words a node contributes are in memory at its address. */
  lemma NodeShown(p: Program, f: Flat, k: nat, j: nat)
    requires Valid(p) && Shows(f, ImageOf(p), p.origin) && k < |p.nodes|
    requires 4 * j + 4 <= |EncodeNode(p.nodes, k, p.labels).value|
    ensures var a := Wrap(AddressOf(p, k) + 4 * j);
            Readable(f, a) && f.cells[a] == FromBe(EncodeNode(p.nodes, k, p.labels).value[4 * j..4 * j + 4])
  {
    hide EncodeNode, NodeLength, Resolvable, MapsPrefix, NodeFits;
    var image := ImageOf(p);
    var e := EncodeNode(p.nodes, k, p.labels).value;
    ImageSlice(p.nodes, k, |p.nodes|, p.labels);
    OffsetAligned(p.nodes, k);
    OffsetAligned(p.nodes, |p.nodes|);
    var o := Offset(p.nodes, k);
    var i := o / 4 + j;
    assert 4 * i == o + 4 * j;
    assert image[4 * i..4 * i + 4] == image[o..o + |e|][4 * j..4 * j + 4];
    assert WordAt(image, i) == FromBe(e[4 * j..4 * j + 4]);
    assert Wrap(AddressOf(p, k) + 4 * j) == Wrap(p.origin + 4 * i);
  }

  lemma OperandsOf(i: Instruction)
    requires OperandBytes(i).Ok?
    ensures OperandBytes(i).value == [Operand(i, 0), Operand(i, 1), Operand(i, 2)]
  {
    hide RegisterId;
    if !i.IB? {
      RegisterBytesAre(RegistersOf(i));
    }
  }

  lemma {:induction false} RegisterBytesAre(rs: seq<string>)
    requires |rs| <= 3 && RegisterBytes(rs).Ok?
    ensures forall k :: 0 <= k < 3 ==>
              RegisterBytes(rs).value[k] == if k < |rs| && RegisterId(rs[k]).Some? then RegisterId(rs[k]).value else 0
  {
    hide RegisterId;
    if rs != [] {
      RegisterBytesAre(rs[1..]);
    }
  }

  /** The bytes of an instruction: operation code, operands, immediate. */
  lemma EncodedParts(p: Program, k: nat)
    requires Valid(p) && k < |p.nodes| && p.nodes[k].Ins?
    ensures var i := p.nodes[k].i;
      && EncodeNode(p.nodes, k, p.labels) == Ok([Code(i.op), Operand(i, 0), Operand(i, 1), Operand(i, 2)]
                                              + (if ImmediateOf(p, k).Some? then ToBe(ImmediateOf(p, k).value) else []))
  {
    hide Resolvable, MapsPrefix, AllWellShaped, NodeFits, OperandBytes, Immediate, Operand, Code, ToBe, BaseAt;
    assert EncodeNode(p.nodes, k, p.labels).Ok?;
    var i := p.nodes[k].i;
    OperandsOf(i);
    assert [Code(i.op)] + OperandBytes(i).value == [Code(i.op), Operand(i, 0), Operand(i, 1), Operand(i, 2)];
  }

  /** An image in memory at its origin is the loaded program. */
  lemma ImageIsLoaded(p: Program, f: Flat)
    requires Valid(p) && Shows(f, ImageOf(p), p.origin)
    ensures Loaded(p, f)
  {
    hide Shows, AddressOf, ImmediateOf, ImageOf;
    forall k | 0 <= k < |p.nodes| ensures NodeLoaded(p, f, k) {
      if p.nodes[k].Ins? {
        InstructionShown(p, f, k);
      }
    }
  }

  lemma InstructionShown(p: Program, f: Flat, k: nat)
    requires Valid(p) && Shows(f, ImageOf(p), p.origin) && k < |p.nodes| && p.nodes[k].Ins?
    ensures NodeLoaded(p, f, k)
  {
    hide Shows, ImmediateOf, ImageOf, EncodeNode, Operand, Code, ToBe, FromBe, Resolvable, MapsPrefix, AllWellShaped,
         NodeFits, Offset;
    var i := p.nodes[k].i;
    EncodedParts(p, k);
    var head := [Code(i.op), Operand(i, 0), Operand(i, 1), Operand(i, 2)];
    var tail := if ImmediateOf(p, k).Some? then ToBe(ImmediateOf(p, k).value) else [];
    assert EncodeNode(p.nodes, k, p.labels).value == head + tail;
    NodeShown(p, f, k, 0);
    assert (head + tail)[0..4] == head;
    if ImmediateOf(p, k).Some? {
      NodeShown(p, f, k, 1);
      assert (head + tail)[4..8] == tail;
      BeInverseWord(ImmediateOf(p, k).value);
    }
  }

  // ---------------------------------------------------------------- reading the image back

  /** What fetching and decoding at an address gives, on a host of the given byte order: the
      operation, the three operand bytes, and the next word when the operation takes one. */
  datatype Fetch = Fetch(op: Op, a: Byte, b: Byte, c: Byte, immediate: Option<Word>)

  function ReadAt(f: Flat, order: ByteOrder, at: Word): Option<Fetch> {
    if !Readable(f, at) then None
    else
      var bytes := HostBytes(order, Swap(order, f.cells[at]));
      match Decode(bytes[0])
      case None => None
      case Some(op) =>
        if !HasImmediate(op) then Some(Fetch(op, bytes[1], bytes[2], bytes[3], None))
        else if !Readable(f, Wrap(at + 4)) then None
        else Some(Fetch(op, bytes[1], bytes[2], bytes[3], Some(f.cells[Wrap(at + 4)])))
  }

  /** Reads n instructions one after the other. */
  function ReadBack(f: Flat, order: ByteOrder, at: Word, n: nat): Option<seq<Fetch>>
    decreases n
  {
    if n == 0 then Some([])
    else
      var i := ReadAt(f, order, at);
      if i.None? then None
      else
        var rest := ReadBack(f, order, Wrap(at + (if HasImmediate(i.value.op) then 8 else 4)), n - 1);
        if rest.None? then None else Some([i.value] + rest.value)
  }

  /** The instructions of the text from node k on, with the numbers their operands stand for. */
  function Listing(p: Program, k: nat): seq<Fetch>
    requires k <= |p.nodes|
    decreases |p.nodes| - k
  {
    if k == |p.nodes| then []
    else if p.nodes[k].Ins? then
      var i := p.nodes[k].i;
      [Fetch(i.op, Operand(i, 0), Operand(i, 1), Operand(i, 2), ImmediateOf(p, k))] + Listing(p, k + 1)
    else Listing(p, k + 1)
  }

  /** Encode, load, fetch: an instruction is read back as it was written, on either host. */
  lemma InstructionReadsBack(p: Program, f: Flat, order: ByteOrder, k: nat)
    requires Valid(p) && Loaded(p, f) && k < |p.nodes| && p.nodes[k].Ins?
    ensures var i := p.nodes[k].i;
      ReadAt(f, order, AddressOf(p, k))
          == Some(Fetch(i.op, Operand(i, 0), Operand(i, 1), Operand(i, 2), ImmediateOf(p, k)))
  {
    hide AddressOf, ImmediateOf, Code, Decode, Operand, ToBe, FromBe, HostBytes, Swap, HasImmediate, Valid, FirstWord;
    var i := p.nodes[k].i;
    assert NodeLoaded(p, f, k);
    FetchedBytes(order, FirstWord(i));
    FirstBytes(i);
    DecodeInvertsCode(i.op);
    ShapeOf(p, k);
  }

  lemma NextAddress(p: Program, k: nat)
    requires Valid(p) && k < |p.nodes|
    ensures p.nodes[k].Ins? ==>
            AddressOf(p, k + 1) == Wrap(AddressOf(p, k) + (if HasImmediate(p.nodes[k].i.op) then 8 else 4))
    ensures !p.nodes[k].Ins? && !p.nodes[k].Data? ==> AddressOf(p, k + 1) == AddressOf(p, k)
  {
    hide Resolvable, MapsPrefix, Encodable, AllWellShaped, NodeFits, NodeLength, HasImmediate;
    LengthOf(p.nodes[k]);
    OffsetMonotone(p.nodes, k + 1, |p.nodes|);
  }

  /** A loaded text without data words is read back whole, in order: every operation, register
      number and immediate. */
  lemma {:induction false} TextReadsBack(p: Program, f: Flat, order: ByteOrder, k: nat)
    requires Valid(p) && Loaded(p, f) && k <= |p.nodes|
    requires forall j :: k <= j < |p.nodes| ==> !p.nodes[j].Data?
    ensures ReadBack(f, order, AddressOf(p, k), |Listing(p, k)|) == Some(Listing(p, k))
    decreases |p.nodes| - k
  {
    hide AddressOf, Offset, Resolvable, MapsPrefix, Encodable, AllWellShaped, NodeFits, Loaded, ReadAt, Operand,
         ImmediateOf, HasImmediate;
    if k < |p.nodes| {
      TextReadsBack(p, f, order, k + 1);
      NextAddress(p, k);
      if p.nodes[k].Ins? {
        InstructionReadsBack(p, f, order, k);
      }
    }
  }

  // ---------------------------------------------------------------- loading onto a bus

  /** Loads an image file: each word is read in host order, swapped, and written through the
      bus; the first refused address ends the load. */
  method LoadFile(bus: Bus, order: ByteOrder, bytes: seq<Byte>, from: Word) returns (ok: bool)
    requires bus.Valid() && Sound(bus.Blocks())
    modifies ArraysOf(bus.zones)
    ensures bus.Valid() && Sound(bus.Blocks()) && SameZones(old(bus.Blocks()), bus.Blocks())
    ensures LoadResult(ok, FlatOf(bus.Blocks())) == LoadWords(old(FlatOf(bus.Blocks())), bytes, from, 0)
  {
    hide Sound, FlatOf, WordAt, HostWord, Swap;
    ghost var f0, bs := FlatOf(bus.Blocks()), bus.Blocks();
    var total := 0;
    while 4 * total + 4 <= |bytes|
      invariant 4 * total <= |bytes|
      invariant bus.Valid() && Sound(bus.Blocks()) && bus.zones == old(bus.zones) && SameZones(bs, bus.Blocks())
      invariant LoadWords(f0, bytes, from, 0) == LoadWords(FlatOf(bus.Blocks()), bytes, from, total)
    {
      var word := HostWord(order, bytes[4 * total..4 * total + 4]);
      var written := bus.Store(Wrap(from + 4 * total), Swap(order, word));
      FileWord(order, bytes, total);
      if !written {
        return false;
      }
      total := total + 1;
    }
    return true;
  }

  lemma FileWord(order: ByteOrder, bytes: seq<Byte>, k: nat)
    requires 4 * k + 4 <= |bytes|
    ensures Swap(order, HostWord(order, bytes[4 * k..4 * k + 4])) == WordAt(bytes, k)
  {
    LoadedWord(order, bytes[4 * k..4 * k + 4]);
  }
}
