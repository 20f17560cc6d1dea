/** The machine's memory map: where the attach sequence puts every zone, and for which RAM
    sizes the zones are disjoint. */
module Layout {
  import opened Words
  import opened Arch
  import opened Zones

  datatype Extent = Extent(from: Word, size: Word, writable: bool)

  function ExtentOf(b: Block): Extent {
    Extent(b.from, b.size, b.writable)
  }

  /** The blocks lie where the extents say, and have as many words. */
  predicate LaidOut(bs: seq<Block>, es: seq<Extent>) {
    |bs| == |es| && forall k :: 0 <= k < |bs| ==> ExtentOf(bs[k]) == es[k] && WellSized(bs[k])
  }

  const IDT := Extent(IDT_ADDRESS, 256 * 4, true)
  const IMASK := Extent(IMASK_ADDRESS, 8 * 4, true)
  const KEYBOARD_OUT := Extent(KEYBOARD_OUT_ADDRESS, 4, true)
  const KEYBOARD_IN := Extent(KEYBOARD_IN_ADDRESS, 4, true)
  const VIDEO_META := Extent(VIDEO_META_ADDRESS, 4, true)
  const VIDEO_BUFFER_0 := Extent(VIDEO_BUFFER_0_ADDRESS, VIDEO_BUFFER_SIZE, true)
  const VIDEO_BUFFER_1 := Extent(VIDEO_BUFFER_1_ADDRESS, VIDEO_BUFFER_SIZE, true)
  const ROM_EXTENT := Extent(ROM_ADDRESS, ROM_SIZE, false)

  /** The devices in the order of their addresses. */
  function Devices(video: bool): seq<Extent> {
    [KEYBOARD_IN, KEYBOARD_OUT, IDT, IMASK, VIDEO_META] + (if video then [VIDEO_BUFFER_0, VIDEO_BUFFER_1] else [])
  }

  function ExtentEnd(e: Extent): int {
    e.from + e.size
  }

  /** Non-empty extents one after the other, the last one ending at 4 GB or before. */
  predicate Ascends(es: seq<Extent>) {
    && (forall k :: 0 <= k < |es| ==> es[k].size >= 4 && ExtentEnd(es[k]) <= WORD_LIMIT)
    && (forall i, j :: 0 <= i < j < |es| ==> ExtentEnd(es[i]) <= es[j].from)
  }

  lemma AscendsIsTidy(bs: seq<Block>, es: seq<Extent>)
    requires LaidOut(bs, es)
    ensures Ascends(es) ==> Tidy(bs)
  {
    if Ascends(es) {
      forall k | 0 <= k < |bs| ensures WellSized(bs[k]) && Fits(bs[k]) {
        assert ExtentOf(bs[k]) == es[k];
      }
      forall i, j | 0 <= i < j < |bs| ensures bs[i].from < bs[j].from && !Overlap(bs[i], bs[j]) {
        assert ExtentOf(bs[i]) == es[i] && ExtentOf(bs[j]) == es[j] && ExtentEnd(es[i]) <= es[j].from;
      }
    }
  }

  /** The next zone goes in front of extent p. */
  predicate GoesAt(es: seq<Extent>, from: Word, p: nat) {
    && p <= |es|
    && (forall k :: 0 <= k < p ==> ExtentEnd(es[k]) <= from)
    && (forall k :: p <= k < |es| ==> from < es[k].from)
  }

  lemma BlockSide(bs: seq<Block>, es: seq<Extent>, from: Word, p: nat, k: nat)
    requires LaidOut(bs, es) && Ascends(es) && GoesAt(es, from, p) && k < |bs|
    ensures if k < p then MaxAddress(bs[k].size, bs[k].from) < from
            else from < bs[k].from <= MaxAddress(bs[k].size, bs[k].from)
  {
    assert ExtentOf(bs[k]) == es[k];
    assert k < p ==> ExtentEnd(es[k]) <= from;
  }

  /** The search for the place of a new zone stops at extent p. */
  lemma SpotIs(bs: seq<Block>, es: seq<Extent>, from: Word, p: nat)
    requires LaidOut(bs, es) && Ascends(es) && GoesAt(es, from, p)
    ensures p <= |bs| && SpotFrom(bs, from, 0) == p && !Refused(bs, from)
  {
    hide MaxAddress, Ascends;
    var r := SpotFrom(bs, from, 0);
    if r < |bs| {
      BlockSide(bs, es, from, p, r);
    }
    if p < |bs| {
      BlockSide(bs, es, from, p, p);
    }
    if k :| 0 <= k < |bs| && InZone(bs[k], from) {
      BlockSide(bs, es, from, p, k);
    }
  }

  lemma Placement(bs: seq<Block>, es: seq<Extent>, b: Block, p: nat)
    requires LaidOut(bs, es) && Ascends(es) && GoesAt(es, b.from, p) && WellSized(b)
    ensures !Refused(bs, b.from) && Attached(bs, b) == bs[..p] + [b] + bs[p..]
    ensures LaidOut(Attached(bs, b), es[..p] + [ExtentOf(b)] + es[p..])
  {
    hide SpotFrom, Refused, Ascends;
    SpotIs(bs, es, b.from, p);
  }

  // ---------------------------------------------------------------- the devices

  lemma DevicesAscend(video: bool)
    ensures Ascends(Devices(video))
  {
  }

  /** The RAM and the ROM come last: what the bus holds after both attempts. */
  function WithRam(ds: seq<Block>, ram: Block): seq<Block> {
    if Refused(ds, ram.from) then ds else Attached(ds, ram)
  }

  lemma FirstAddress(video: bool)
    ensures forall k :: 0 <= k < |Devices(video)| ==>
            KEYBOARD_IN_ADDRESS <= Devices(video)[k].from && ExtentEnd(Devices(video)[k]) <= ROM_ADDRESS
    ensures Devices(video)[0] == KEYBOARD_IN
  {
  }

  lemma AllAhead(video: bool)
    ensures GoesAt(Devices(video), 0, 0)
  {
    hide Devices;
    FirstAddress(video);
  }

  /** RAM at address 0 is accepted and goes first. */
  lemma RamFirst(ds: seq<Block>, video: bool, ram: Block)
    requires LaidOut(ds, Devices(video)) && ram.from == 0 && WellSized(ram)
    ensures WithRam(ds, ram) == [ram] + ds
  {
    hide Devices, Ascends, Attached, Refused, ExtentEnd;
    assert GoesAt(Devices(video), ram.from, 0) by {
      AllAhead(video);
    }
    DevicesAscend(video);
    FirstAddress(video);
    Placement(ds, Devices(video), ram, 0);
    assert ds[..0] == [] && ds[0..] == ds;
  }

  /** The machine's map is complete and disjoint exactly for RAM sizes from one word up to the
      first device: an empty RAM claims every address, and one that reaches the devices hides
      them or keeps the ROM from being attached. */
  lemma MapIsDisjoint(ds: seq<Block>, video: bool, ram: Block, rom: Block)
    requires LaidOut(ds, Devices(video)) && ram.from == 0 && WellSized(ram) && WellSized(rom)
            && ExtentOf(rom) == ROM_EXTENT
    ensures var bs := WithRam(WithRam(ds, ram), rom);
      && (Tidy(bs) && |bs| == |ds| + 2 <==> 0 < ram.size <= KEYBOARD_IN_ADDRESS)
      && (0 < ram.size <= KEYBOARD_IN_ADDRESS ==> bs == [ram] + ds + [rom])
  {
    hide Tidy, Attached, Devices, Refused;
    RamFirst(ds, video, ram);
    if 0 < ram.size <= KEYBOARD_IN_ADDRESS {
      EnoughRam(ds, video, ram, rom);
    } else {
      TooMuchRam(ds, video, ram, rom);
    }
  }

  /** With an empty RAM no word can be accessed any more: reads abort or leave the memory, and so
      do writes, the RAM being writable. */
  lemma EmptyRamAborts(ds: seq<Block>, video: bool, ram: Block, a: Word)
    requires LaidOut(ds, Devices(video)) && ram.from == 0 && WellSized(ram) && ram.size == 0 && a % 4 == 0
    ensures ReadOutcome(WithRam(ds, ram), a) in {Aborted, Undefined}
    ensures ram.writable ==> WriteOutcome(WithRam(ds, ram), a) in {Aborted, Undefined}
  {
    hide Devices, Attached, Refused, Translate, GetAccess;
    RamFirst(ds, video, ram);
    assert InZone(ram, a) && Find([ram] + ds, a) == 0;
    SwallowedAccess(ram, a);
  }

  lemma EnoughRam(ds: seq<Block>, video: bool, ram: Block, rom: Block)
    requires LaidOut(ds, Devices(video)) && ram.from == 0 && WellSized(ram) && WellSized(rom)
            && ExtentOf(rom) == ROM_EXTENT
    requires 0 < ram.size <= KEYBOARD_IN_ADDRESS
    ensures WithRam([ram] + ds, rom) == [ram] + ds + [rom] && Tidy([ram] + ds + [rom])
  {
    hide Tidy, Attached, Devices;
    FirstAddress(video);
    DevicesAscend(video);
    var as0 := [ram] + ds;
    var es := [ExtentOf(ram)] + Devices(video);
    assert Ascends(es);
    Placement(as0, es, rom, |as0|);
    assert as0[..|as0|] == as0 && as0[|as0|..] == [];
    assert Ascends(es + [ROM_EXTENT]);
    AscendsIsTidy(as0 + [rom], es + [ROM_EXTENT]);
  }

  lemma TooMuchRam(ds: seq<Block>, video: bool, ram: Block, rom: Block)
    requires LaidOut(ds, Devices(video)) && ram.from == 0 && WellSized(ram)
    requires ram.size == 0 || ram.size > KEYBOARD_IN_ADDRESS
    ensures !(Tidy(WithRam([ram] + ds, rom)) && |WithRam([ram] + ds, rom)| == |ds| + 2)
  {
    hide SpotFrom;
    var as0 := [ram] + ds;
    FirstAddress(video);
    assert ExtentOf(ds[0]) == KEYBOARD_IN;
    if ram.size == 0 {
      assert InZone(as0[0], rom.from);
    } else if !Refused(as0, rom.from) {
      Insertion(as0, rom);
      var p, bs := SpotFrom(as0, rom.from, 0), Attached(as0, rom);
      var i, j := if p == 0 then 1 else 0, if p <= 1 then 2 else 1;
      assert bs[i] == ram && bs[j] == ds[0];
      assert Overlap(bs[i], bs[j]);
    }
  }
}
