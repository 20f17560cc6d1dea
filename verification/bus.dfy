/** The bus object: an ordered list of zones, rebuilt on every attachment. */
module Buses {
  import opened Words
  import opened FlatMemory
  import opened Zones
  import opened BusRuns
  import opened Memories

  datatype Zone = Zone(memory: Memory, from: Word, name: string, notes: seq<Note>)

  ghost function BlockOf(z: Zone): Block
    reads z.memory, z.memory.raw
  {
    Block(z.from, z.memory.size, z.memory.mode == ReadWrite, z.memory.raw[..], z.notes)
  }

  ghost function MemoriesOf(zs: seq<Zone>): set<Memory> {
    set k | 0 <= k < |zs| :: zs[k].memory
  }

  ghost function ArraysOf(zs: seq<Zone>): set<array<Word>> {
    set k | 0 <= k < |zs| :: zs[k].memory.raw
  }

  ghost function BlocksOf(zs: seq<Zone>): (bs: seq<Block>)
    reads MemoriesOf(zs), ArraysOf(zs)
    ensures |bs| == |zs| && forall k :: 0 <= k < |zs| ==> bs[k] == BlockOf(zs[k])
  {
    seq(|zs|, k requires 0 <= k < |zs| reads MemoriesOf(zs), ArraysOf(zs) =>
      assert zs[k].memory in MemoriesOf(zs) && zs[k].memory.raw in ArraysOf(zs);
      BlockOf(zs[k]))
  }

  /** Every zone has a memory, and words, of its own. */
  ghost predicate Apart(zs: seq<Zone>) {
    && (forall k :: 0 <= k < |zs| ==> zs[k].memory.Valid())
    && (forall i, j :: 0 <= i < j < |zs| ==> zs[i].memory.raw != zs[j].memory.raw)
  }

  lemma ApartInserted(zs: seq<Zone>, p: nat, z: Zone)
    requires p <= |zs| && Apart(zs) && z.memory.Valid()
    requires forall k :: 0 <= k < |zs| ==> zs[k].memory.raw != z.memory.raw
    ensures Apart(zs[..p] + [z] + zs[p..])
  {
  }

  lemma InsertedBlocks(zs: seq<Zone>, p: nat, z: Zone)
    requires p <= |zs|
    ensures BlocksOf(zs[..p] + [z] + zs[p..]) == BlocksOf(zs)[..p] + [BlockOf(z)] + BlocksOf(zs)[p..]
  {
  }

  /** One step of the search for the place of a new zone. */
  lemma SpotStep(bs: seq<Block>, from: Word, k: nat)
    requires k <= |bs|
    ensures SpotFrom(bs, from, k)
         == if k == |bs| || from < MaxAddress(bs[k].size, bs[k].from) then k else SpotFrom(bs, from, k + 1)
  {
  }

  /** The list with z in front of the first zone that ends beyond its start; bs says where the
      zones of zs are. */
  ghost function Placed(zs: seq<Zone>, bs: seq<Block>, z: Zone): seq<Zone>
    requires |bs| == |zs|
  {
    var p := SpotFrom(bs, z.from, 0);
    zs[..p] + [z] + zs[p..]
  }

  lemma PlacedIsAttached(zs: seq<Zone>, bs: seq<Block>, z: Zone)
    requires bs == BlocksOf(zs)
    ensures BlocksOf(Placed(zs, bs, z)) == Attached(bs, BlockOf(z))
  {
    hide SpotFrom;
    InsertedBlocks(zs, SpotFrom(bs, z.from, 0), z);
  }

  lemma PlacedApart(zs: seq<Zone>, bs: seq<Block>, z: Zone)
    requires |bs| == |zs| && Apart(zs) && z.memory.Valid()
    requires forall k :: 0 <= k < |zs| ==> zs[k].memory.raw != z.memory.raw
    ensures Apart(Placed(zs, bs, z)) && |Placed(zs, bs, z)| == |zs| + 1
  {
    hide SpotFrom;
    ApartInserted(zs, SpotFrom(bs, z.from, 0), z);
  }

  class Bus {
    var zones: seq<Zone>

    /** At most 255 zones, each with a memory of its own. */
    ghost predicate Valid()
      reads this
    {
      |zones| <= 255 && Apart(zones)
    }

    ghost function Blocks(): (bs: seq<Block>)
      requires Valid()
      reads this, MemoriesOf(zones), ArraysOf(zones)
      ensures AllWellSized(bs)
    {
      BlocksOf(zones)
    }

    constructor Create()
      ensures Valid() && zones == []
    {
      zones := [];
    }

    method FindZone(address: Word) returns (i: nat)
      requires Valid()
      ensures i == Find(Blocks(), address)
    {
      ghost var bs := Blocks();
      i := 0;
      while i < |zones|
        invariant i <= |zones|
        invariant Find(bs, address) == FindFrom(bs, address, i)
      {
        if zones[i].from <= address && MaxAddress(zones[i].memory.size, zones[i].from) >= address {
          return;
        }
        i := i + 1;
      }
    }

    method WordRead(address: Word) returns (e: BusOutcome, word: Word)
      requires Valid() && ReadOutcome(Blocks(), address) != Undefined
      ensures e == ReadOutcome(Blocks(), address)
      ensures e == BusOk ==> word == ReadValue(Blocks(), address)
    {
      hide FindFrom, GetAccess;
      OkIndex(Blocks(), address);
      word := 0;
      var i := FindZone(address);
      if i == |zones| {
        return InvalidAddress, word;
      }
      var access;
      access, word := zones[i].memory.WordGet(Wrap(address - zones[i].from));
      e := Answer(access);
    }

    /** A read as its callers see it: the word of the flat memory, if there is one. */
    method Load(address: Word) returns (ok: bool, word: Word)
      requires Valid() && Sound(Blocks())
      ensures Lookup(FlatOf(Blocks()), address) == if ok then Some(word) else None
    {
      hide FlatOf, ReadOutcome, FindFrom, ReadValue;
      ghost var bs := Blocks();
      AnswersAsFlat(bs, address);
      FlatCell(bs, address);
      var e;
      e, word := WordRead(address);
      ok := e == BusOk;
      assert Blocks() == bs;
    }

    /** Writes a word and, when that succeeds, signals the conditions registered for the address. */
    method WordWrite(address: Word, word: Word) returns (e: BusOutcome, signals: seq<Condition>)
      requires Valid() && WriteOutcome(Blocks(), address) != Undefined
      modifies ArraysOf(zones)
      ensures Valid()
      ensures e == WriteOutcome(old(Blocks()), address)
      ensures Blocks() == Written(old(Blocks()), address, word)
      ensures signals == if e == BusOk then SignalsAt(old(Blocks()), address) else []
    {
      hide FindFrom, SetAccess, Signals;
      signals := [];
      var i := FindZone(address);
      if i == |zones| {
        return InvalidAddress, signals;
      }
      var offset := Wrap(address - zones[i].from);
      ghost var bs := Blocks();
      var access := zones[i].memory.WordSet(offset, word);
      assert Blocks() == Written(bs, address, word);
      if access == Done {
        signals := SignalAll(zones[i].notes, address);
      }
      e := Answer(access);
    }

    /** A write as its callers see it: one update of the flat memory, or none. */
    method Store(address: Word, word: Word) returns (ok: bool)
      requires Valid() && Sound(Blocks())
      modifies ArraysOf(zones)
      ensures Valid() && Sound(Blocks()) && SameZones(old(Blocks()), Blocks())
      ensures ok == old(Writable(FlatOf(Blocks()), address))
      ensures FlatOf(Blocks()) == old(if ok then Put(FlatOf(Blocks()), address, word) else FlatOf(Blocks()))
    {
      hide WriteOutcome, Written, FlatOf, FindFrom;
      ghost var bs := Blocks();
      AnswersAsFlat(bs, address);
      WriteIsPut(bs, address, word);
      WrittenZones(bs, address, word);
      var e, signals := WordWrite(address, word);
      ok := e == BusOk;
    }

    /** Signals the listed conditions that are registered for the address, in order. */
    static method SignalAll(notes: seq<Note>, address: Word) returns (signals: seq<Condition>)
      ensures signals == Signals(notes, address)
    {
      signals := [];
      var n := 0;
      while n < |notes|
        invariant n <= |notes|
        invariant signals + Signals(notes[n..], address) == Signals(notes, address)
      {
        if notes[n].address == address {
          signals := signals + [notes[n].cond];
        }
        n := n + 1;
      }
    }

    static method IsRefused(zones: seq<Zone>, from: Word, ghost bs: seq<Block>) returns (refused: bool)
      requires bs == BlocksOf(zones)
      ensures refused == Refused(bs, from)
    {
      refused := false;
      var i := 0;
      while i < |zones|
        invariant i <= |zones|
        invariant forall k :: 0 <= k < i ==> !InZone(bs[k], from)
      {
        if zones[i].from <= from && MaxAddress(zones[i].memory.size, zones[i].from) >= from {
          assert InZone(bs[i], from);
          return true;
        }
        i := i + 1;
      }
    }

    /** Refuses a zone that starts inside another one, and otherwise rebuilds the list around it. */
    method MemoryAttach(memory: Memory, from: Word, name: string) returns (e: BusOutcome)
      requires Valid() && |zones| < 255 && memory.Valid()
      requires forall k :: 0 <= k < |zones| ==> zones[k].memory.raw != memory.raw
      modifies this`zones
      ensures Valid()
      ensures e == if Refused(old(Blocks()), from) then ZoneOutOfOrder else BusOk
      ensures zones == if e == BusOk then Placed(old(zones), old(Blocks()), Zone(memory, from, name, []))
              else old(zones)
      ensures Blocks() == if e == BusOk then Attached(old(Blocks()), old(BlockOf(Zone(memory, from, name, []))))
              else old(Blocks())
    {
      hide SpotFrom, Apart, Refused;
      var zone := Zone(memory, from, name, []);
      ghost var bs := Blocks();
      PlacedIsAttached(zones, bs, zone);
      PlacedApart(zones, bs, zone);
      var refused := IsRefused(zones, from, bs);
      if refused {
        return ZoneOutOfOrder;
      }
      zones := Rebuilt(zones, zone, bs);
      return BusOk;
    }

    static method Rebuilt(zones: seq<Zone>, zone: Zone, ghost bs: seq<Block>) returns (newZones: seq<Zone>)
      requires bs == BlocksOf(zones)
      ensures newZones == Placed(zones, bs, zone)
    {
      hide SpotFrom;
      newZones := [];
      var i := 0;
      while i < |zones|
        invariant i <= |zones| && newZones == zones[..i]
        invariant SpotFrom(bs, zone.from, 0) == SpotFrom(bs, zone.from, i)
      {
        SpotStep(bs, zone.from, i);
        if zone.from < MaxAddress(zones[i].memory.size, zones[i].from) {
          break;
        }
        newZones := newZones + [zones[i]];
        i := i + 1;
      }
      SpotStep(bs, zone.from, i);
      ghost var p := i;
      newZones := newZones + [zone];
      i := i + 1;
      while i < |zones| + 1
        invariant p < i <= |zones| + 1
        invariant newZones == zones[..p] + [zone] + zones[p..i - 1]
      {
        newZones := newZones + [zones[i - 1]];
        i := i + 1;
      }
      assert zones[p..|zones|] == zones[p..];
    }

    /** Adds a condition at the end of the list of the zone the address is in; without one the
        process aborts. */
    method NotificationRegister(cond: Condition, address: Word) returns (aborted: bool)
      requires Valid()
      modifies this`zones
      ensures aborted == (Find(old(Blocks()), address) == |old(zones)|)
      ensures Valid() && Blocks() == if aborted then old(Blocks()) else Registered(old(Blocks()), address, cond)
      ensures |zones| == |old(zones)| && forall k :: 0 <= k < |zones| ==>
              zones[k].(notes := []) == old(zones)[k].(notes := [])
    {
      ghost var bs := Blocks();
      var i := FindZone(address);
      if i == |zones| {
        return true;
      }
      aborted := false;
      zones := zones[i := zones[i].(notes := zones[i].notes + [Note(address, cond)])];
      assert Blocks() == Registered(bs, address, cond);
    }
  }
}
