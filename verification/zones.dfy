/** The bus as a list of zones: lookup, address translation, attachment, notification lists,
    and the flat memory it amounts to. */
module Zones {
  import opened Words
  import opened FlatMemory

  /** A condition variable, by number. */
  type Condition = nat

  datatype Note = Note(address: Word, cond: Condition)

  /** A zone and the memory behind it: where it starts, its size in bytes, its words. */
  datatype Block = Block(from: Word, size: Word, writable: bool, words: seq<Word>, notes: seq<Note>)

  predicate WellSized(b: Block) {
    b.size % 4 == 0 && |b.words| == b.size / 4
  }

  predicate AllWellSized(bs: seq<Block>) {
    forall k :: 0 <= k < |bs| ==> WellSized(bs[k])
  }

  // ---------------------------------------------------------------- lookup

  /** The last address of a zone, in wrapping arithmetic. */
  function MaxAddress(size: Word, from: Word): Word {
    Wrap(size + from - 1)
  }

  predicate InZone(b: Block, a: Word) {
    b.from <= a && MaxAddress(b.size, b.from) >= a
  }

  function Translate(b: Block, a: Word): Word {
    Wrap(a - b.from)
  }

  function FindFrom(bs: seq<Block>, a: Word, k: nat): (r: nat)
    requires k <= |bs|
    ensures k <= r <= |bs|
    ensures r < |bs| ==> InZone(bs[r], a)
    ensures forall j :: k <= j < r ==> !InZone(bs[j], a)
    decreases |bs| - k
  {
    if k == |bs| || InZone(bs[k], a) then k else FindFrom(bs, a, k + 1)
  }

  /** The first zone an address is in, or the number of zones. */
  function Find(bs: seq<Block>, a: Word): nat {
    FindFrom(bs, a, 0)
  }

  // ---------------------------------------------------------------- access

  /** What a memory answers; Wild is an index past the end of its words. */
  datatype Access = Done | Misaligned | OutOfBound | NotWritable | Wild

  function GetAccess(size: Word, offset: Word): Access {
    if offset % 4 != 0 then Misaligned
    else if Wrap(offset + 4) > size then OutOfBound
    else if offset / 4 >= size / 4 then Wild
    else Done
  }

  function SetAccess(size: Word, writable: bool, offset: Word): Access {
    if !writable then NotWritable else GetAccess(size, offset)
  }

  /** What the bus answers. Aborted ends the process; Undefined is an access outside a memory. */
  datatype BusOutcome = BusOk | ZoneOutOfOrder | InvalidAddress | IllegalAccess | Aborted | Undefined

  function Answer(access: Access): BusOutcome {
    match access
    case Done => BusOk
    case Misaligned => InvalidAddress
    case NotWritable => IllegalAccess
    case OutOfBound => Aborted
    case Wild => Undefined
  }

  function ReadOutcome(bs: seq<Block>, a: Word): BusOutcome {
    var i := Find(bs, a);
    if i == |bs| then InvalidAddress else Answer(GetAccess(bs[i].size, Translate(bs[i], a)))
  }

  function WriteOutcome(bs: seq<Block>, a: Word): BusOutcome {
    var i := Find(bs, a);
    if i == |bs| then InvalidAddress else Answer(SetAccess(bs[i].size, bs[i].writable, Translate(bs[i], a)))
  }

  lemma OkIndex(bs: seq<Block>, a: Word)
    requires AllWellSized(bs)
    ensures ReadOutcome(bs, a) == BusOk ==>
              Find(bs, a) < |bs| && Translate(bs[Find(bs, a)], a) / 4 < |bs[Find(bs, a)].words|
    ensures WriteOutcome(bs, a) == BusOk ==> ReadOutcome(bs, a) == BusOk && bs[Find(bs, a)].writable
  {
  }

  /** The word a successful read delivers. */
  function ReadValue(bs: seq<Block>, a: Word): Word
    requires AllWellSized(bs) && ReadOutcome(bs, a) == BusOk
  {
    OkIndex(bs, a);
    var i := Find(bs, a);
    bs[i].words[Translate(bs[i], a) / 4]
  }

  /** The zones after a write, successful or not. */
  function Written(bs: seq<Block>, a: Word, v: Word): seq<Block>
    requires AllWellSized(bs)
  {
    if WriteOutcome(bs, a) != BusOk then bs
    else
      OkIndex(bs, a);
      var i := Find(bs, a);
      bs[i := bs[i].(words := bs[i].words[Translate(bs[i], a) / 4 := v])]
  }

  // ---------------------------------------------------------------- no abort

  /** The one zone that breaks lookup: an empty memory at address 0 claims every address. */
  predicate Swallows(b: Block) {
    b.size == 0 && b.from == 0
  }

  /** Membership and alignment together bound the offset, whether or not the zone starts on a
      word boundary or its end wraps around. */
  lemma OffsetInside(b: Block, a: Word)
    requires WellSized(b) && InZone(b, a) && !Swallows(b)
    ensures GetAccess(b.size, Translate(b, a)) == if (a - b.from) % 4 == 0 then Done else Misaligned
  {
    assert b.size > 0;
    assert a - b.from < b.size;
    assert Translate(b, a) == a - b.from;
  }

  lemma SwallowedAccess(b: Block, a: Word)
    requires Swallows(b) && a % 4 == 0
    ensures GetAccess(b.size, Translate(b, a)) in {OutOfBound, Wild}
  {
  }

  /** Reads end in one of the two documented ways for every address, exactly when lookup finds no
      empty memory at address 0 for a word address; writes end in one of their three, exactly when
      it finds no writable one. In a sorted list the presence of such a memory is enough. */
  lemma NeverAborts(bs: seq<Block>)
    requires AllWellSized(bs)
    ensures (forall a: Word :: ReadOutcome(bs, a) in {BusOk, InvalidAddress})
       <==> (forall a: Word :: a % 4 == 0 && Find(bs, a) < |bs| ==> !Swallows(bs[Find(bs, a)]))
    ensures (forall a: Word :: WriteOutcome(bs, a) in {BusOk, InvalidAddress, IllegalAccess})
       <==> (forall a: Word :: a % 4 == 0 && Find(bs, a) < |bs| ==>
               !(Swallows(bs[Find(bs, a)]) && bs[Find(bs, a)].writable))
    ensures Sorted(bs) ==>
              ((forall a: Word :: ReadOutcome(bs, a) in {BusOk, InvalidAddress})
               <==> (forall k :: 0 <= k < |bs| ==> !Swallows(bs[k])))
  {
    hide Translate, GetAccess, InZone, ReadOutcome, WriteOutcome;
    forall a: Word
      ensures ReadOutcome(bs, a) in {BusOk, InvalidAddress}
         <==> (a % 4 == 0 && Find(bs, a) < |bs| ==> !Swallows(bs[Find(bs, a)]))
      ensures WriteOutcome(bs, a) in {BusOk, InvalidAddress, IllegalAccess}
         <==> (a % 4 == 0 && Find(bs, a) < |bs| ==> !(Swallows(bs[Find(bs, a)]) && bs[Find(bs, a)].writable))
    {
      ReadEnds(bs, a);
      WriteEnds(bs, a);
    }
    if k :| 0 <= k < |bs| && Swallows(bs[k]) && Sorted(bs) {
      SwallowsFirst(bs, k);
      assert Find(bs, 0) == 0 && Swallows(bs[Find(bs, 0)]);
    }
  }

  lemma WriteEnds(bs: seq<Block>, a: Word)
    requires AllWellSized(bs)
    ensures WriteOutcome(bs, a) in {BusOk, InvalidAddress, IllegalAccess}
       <==> (a % 4 == 0 && Find(bs, a) < |bs| ==> !(Swallows(bs[Find(bs, a)]) && bs[Find(bs, a)].writable))
  {
    hide Translate, GetAccess, FindFrom;
    var i := Find(bs, a);
    if i < |bs| && !Swallows(bs[i]) {
      OffsetInside(bs[i], a);
    } else if i < |bs| && a % 4 == 0 {
      SwallowedAccess(bs[i], a);
    } else if i < |bs| {
      SwallowedMisaligned(bs[i], a);
    }
  }

  lemma SwallowedMisaligned(b: Block, a: Word)
    requires Swallows(b) && a % 4 != 0
    ensures GetAccess(b.size, Translate(b, a)) == Misaligned
  {
  }

  lemma ReadEnds(bs: seq<Block>, a: Word)
    requires AllWellSized(bs)
    ensures ReadOutcome(bs, a) in {BusOk, InvalidAddress}
       <==> (a % 4 == 0 && Find(bs, a) < |bs| ==> !Swallows(bs[Find(bs, a)]))
  {
    var i := Find(bs, a);
    if i < |bs| && !Swallows(bs[i]) {
      OffsetInside(bs[i], a);
    } else if i < |bs| && a % 4 == 0 {
      SwallowedAccess(bs[i], a);
    }
  }

  lemma SwallowsFirst(bs: seq<Block>, k: nat)
    requires Sorted(bs) && k < |bs| && Swallows(bs[k])
    ensures k == 0 && Find(bs, 0) == 0
  {
    assert forall j :: 0 < j < |bs| ==> bs[0].from < bs[j].from;
  }

  // ---------------------------------------------------------------- attachment

  /** Zones in strictly ascending order of their start. */
  predicate Sorted(bs: seq<Block>) {
    forall i, j :: 0 <= i < j < |bs| ==> bs[i].from < bs[j].from
  }

  /** The zone has room: not empty, and its end does not wrap past 4 GB. */
  predicate Fits(b: Block) {
    b.size >= 4 && b.from + b.size <= WORD_LIMIT
  }

  predicate AllFit(bs: seq<Block>) {
    forall k :: 0 <= k < |bs| ==> Fits(bs[k])
  }

  predicate Holds(b: Block, a: int) {
    b.from <= a < b.from + b.size
  }

  predicate Overlap(b: Block, c: Block) {
    b.from < c.from + c.size && c.from < b.from + b.size
  }

  predicate Disjoint(bs: seq<Block>) {
    forall i, j :: 0 <= i < j < |bs| ==> !Overlap(bs[i], bs[j])
  }

  function SpotFrom(bs: seq<Block>, from: Word, k: nat): (r: nat)
    requires k <= |bs|
    ensures k <= r <= |bs|
    ensures r < |bs| ==> from < MaxAddress(bs[r].size, bs[r].from)
    ensures forall j :: k <= j < r ==> from >= MaxAddress(bs[j].size, bs[j].from)
    decreases |bs| - k
  {
    if k == |bs| || from < MaxAddress(bs[k].size, bs[k].from) then k else SpotFrom(bs, from, k + 1)
  }

  predicate Refused(bs: seq<Block>, from: Word) {
    exists k :: 0 <= k < |bs| && InZone(bs[k], from)
  }

  /** The zones after attaching b: it goes before the first zone that ends beyond its start. */
  function Attached(bs: seq<Block>, b: Block): seq<Block> {
    var p := SpotFrom(bs, b.from, 0);
    bs[..p] + [b] + bs[p..]
  }

  lemma InZoneIsHolds(b: Block, a: Word)
    requires Fits(b)
    ensures InZone(b, a) <==> Holds(b, a)
  {
  }

  /** An accepted zone lands in order: everything before starts earlier, everything after later. */
  lemma AttachSplits(bs: seq<Block>, b: Block)
    requires AllFit(bs) && Sorted(bs) && !Refused(bs, b.from)
    ensures var p := SpotFrom(bs, b.from, 0);
            && (forall k :: 0 <= k < p ==> bs[k].from + bs[k].size <= b.from)
            && (forall k :: p <= k < |bs| ==> b.from < bs[k].from)
  {
    var p := SpotFrom(bs, b.from, 0);
    forall k | 0 <= k < p ensures bs[k].from + bs[k].size <= b.from {
      assert !InZone(bs[k], b.from);
    }
    if p < |bs| {
      assert !InZone(bs[p], b.from);
    }
  }

  lemma AttachSorted(bs: seq<Block>, b: Block)
    requires AllFit(bs) && Sorted(bs) && !Refused(bs, b.from)
    ensures Sorted(Attached(bs, b))
  {
    AttachSplits(bs, b);
  }

  /** The zone starts at or beyond the address, and yet its last address is not beyond it: the
      search for a place passes it by. */
  predicate Strays(z: Block, from: Word) {
    MaxAddress(z.size, z.from) <= from <= z.from
  }

  /** Only an empty zone or one whose end wraps strays. */
  lemma FittingZonesStay(z: Block, from: Word)
    requires Fits(z)
    ensures !Strays(z, from)
  {
  }

  /** Whatever the zones are, an accepted zone leaves the list sorted exactly when every zone that
      strays has one in front of it that ends beyond the new start. */
  lemma AttachSortedIff(bs: seq<Block>, b: Block)
    requires Sorted(bs) && !Refused(bs, b.from)
    ensures Sorted(Attached(bs, b))
       <==> forall k :: 0 <= k < |bs| && Strays(bs[k], b.from) ==>
              exists j :: 0 <= j < k && b.from < MaxAddress(bs[j].size, bs[j].from)
  {
    hide SpotFrom, Sorted, MaxAddress;
    var p := SpotFrom(bs, b.from, 0);
    InsertSorted(bs, p, b);
    if p > 0 {
      PassedZone(bs, b.from, p - 1);
    }
    forall k | 0 <= k < |bs| && Strays(bs[k], b.from)
      ensures k < p <==> !exists j :: 0 <= j < k && b.from < MaxAddress(bs[j].size, bs[j].from)
    {
      if k >= p {
        assert k != p && b.from < MaxAddress(bs[p].size, bs[p].from);
      }
    }
    if p > 0 && bs[p - 1].from >= b.from {
      assert Strays(bs[p - 1], b.from);
    }
    if k :| 0 <= k < p && Strays(bs[k], b.from) {
      StartsAscend(bs, k, p - 1);
    }
    if p < |bs| {
      assert !InZone(bs[p], b.from);
    }
  }

  lemma StartsAscend(bs: seq<Block>, i: nat, j: nat)
    requires Sorted(bs) && i <= j < |bs|
    ensures bs[i].from <= bs[j].from
  {
  }

  lemma PassedZone(bs: seq<Block>, from: Word, k: nat)
    requires k < SpotFrom(bs, from, 0)
    ensures k < |bs| && MaxAddress(bs[k].size, bs[k].from) <= from
  {
    hide SpotFrom;
  }

  lemma InsertSorted(bs: seq<Block>, p: nat, b: Block)
    requires Sorted(bs) && p <= |bs|
    ensures Sorted(bs[..p] + [b] + bs[p..])
       <==> (p > 0 ==> bs[p - 1].from < b.from) && (p < |bs| ==> b.from < bs[p].from)
  {
    var cs := bs[..p] + [b] + bs[p..];
    assert cs[p] == b && (p > 0 ==> cs[p - 1] == bs[p - 1]);
    assert p < |bs| ==> cs[p + 1] == bs[p];
    if (p > 0 ==> bs[p - 1].from < b.from) && (p < |bs| ==> b.from < bs[p].from) {
      forall i, j | 0 <= i < j < |cs| ensures cs[i].from < cs[j].from {
        assert i < p ==> bs[i].from <= bs[p - 1].from;
        assert j > p ==> bs[p].from <= bs[j - 1].from;
      }
    }
  }

  /** It does not stay sorted in front of an empty zone: that has its last address before its start. */
  lemma EmptyUnsorts()
    ensures var z, b := Block(100, 0, true, [], []), Block(99, 4, true, [0], []);
      !Refused([z], b.from) && Attached([z], b) == [z, b] && !Sorted(Attached([z], b))
  {
    var z, b := Block(100, 0, true, [], []), Block(99, 4, true, [0], []);
    assert SpotFrom([z], b.from, 0) == 1;
    var cs := Attached([z], b);
    assert cs == [z, b] && cs[1].from <= cs[0].from;
  }

  /** It does not stay sorted behind a zone whose end wraps: its last address is a low one, so a
      later zone that starts beyond that goes behind it. */
  lemma WrapUnsorts(z: Block, b: Block)
    requires z.from + z.size > WORD_LIMIT && MaxAddress(z.size, z.from) <= b.from < z.from
    ensures !Refused([z], b.from) && Attached([z], b) == [z, b] && !Sorted(Attached([z], b))
  {
    assert SpotFrom([z], b.from, 0) == 1;
    var cs := Attached([z], b);
    assert cs == [z, b] && cs[1].from <= cs[0].from;
  }

  /** The new list is the old one with b inserted: every old zone is kept once, in order. */
  lemma AttachKeeps(bs: seq<Block>, b: Block)
    ensures multiset(Attached(bs, b)) == multiset(bs) + multiset{b}
    ensures exists p :: 0 <= p <= |bs| && Attached(bs, b) == bs[..p] + [b] + bs[p..]
  {
    var p := SpotFrom(bs, b.from, 0);
    assert bs == bs[..p] + bs[p..];
  }

  lemma Insertion(bs: seq<Block>, b: Block)
    ensures var p, cs := SpotFrom(bs, b.from, 0), Attached(bs, b);
            && |cs| == |bs| + 1 && cs[p] == b
            && (forall k :: 0 <= k < p ==> cs[k] == bs[k]) && (forall k :: p < k < |cs| ==> cs[k] == bs[k - 1])
  {
    hide SpotFrom;
  }

  /** Only the start of the new zone is checked, so disjointness is kept exactly when the new
      zone does not run into an existing start. */
  lemma AttachDisjoint(bs: seq<Block>, b: Block)
    requires AllFit(bs) && Sorted(bs) && Disjoint(bs) && !Refused(bs, b.from) && Fits(b)
    ensures Disjoint(Attached(bs, b)) <==> forall k :: 0 <= k < |bs| ==> !Holds(b, bs[k].from)
  {
    hide SpotFrom, Attached, Refused, MaxAddress;
    AttachSplits(bs, b);
    Insertion(bs, b);
    var p, cs := SpotFrom(bs, b.from, 0), Attached(bs, b);
    if k :| 0 <= k < |bs| && Holds(b, bs[k].from) {
      assert cs[k + 1] == bs[k] && Overlap(cs[p], cs[k + 1]);
    } else {
      forall i, j | 0 <= i < j < |cs| ensures !Overlap(cs[i], cs[j]) {
        if j == p {
          assert cs[i] == bs[i];
        } else if i == p {
          assert cs[j] == bs[j - 1] && !Holds(b, bs[j - 1].from);
        } else {
          var i0, j0 := if i < p then i else i - 1, if j < p then j else j - 1;
          assert cs[i] == bs[i0] && cs[j] == bs[j0];
        }
      }
    }
  }

  // ---------------------------------------------------------------- notifications

  /** The conditions a successful write to a signals, in order. */
  function Signals(notes: seq<Note>, a: Word): seq<Condition> {
    if notes == [] then []
    else (if notes[0].address == a then [notes[0].cond] else []) + Signals(notes[1..], a)
  }

  function SignalsAt(bs: seq<Block>, a: Word): seq<Condition> {
    var i := Find(bs, a);
    if i == |bs| then [] else Signals(bs[i].notes, a)
  }

  /** Registration at the zone the address is in; there is none when it is in no zone. */
  function Registered(bs: seq<Block>, a: Word, c: Condition): seq<Block> {
    var i := Find(bs, a);
    if i == |bs| then bs else bs[i := bs[i].(notes := bs[i].notes + [Note(a, c)])]
  }

  lemma {:induction false} SignalsAppend(notes: seq<Note>, n: Note, a: Word)
    ensures Signals(notes + [n], a) == Signals(notes, a) + (if n.address == a then [n.cond] else [])
  {
    if notes != [] {
      assert (notes + [n])[1..] == notes[1..] + [n];
      SignalsAppend(notes[1..], n, a);
    }
  }

  // ---------------------------------------------------------------- the flat memory

  /** The zones as one memory: every word a read can deliver, and every byte that refuses writes. */
  ghost function FlatOf(bs: seq<Block>): Flat
    requires AllWellSized(bs)
  {
    Flat(map a: Word | 0 <= a < 0x1_0000_0000 && ReadOutcome(bs, a) == BusOk :: ReadValue(bs, a),
         set a: Word | 0 <= a < 0x1_0000_0000 && Find(bs, a) < |bs| && !bs[Find(bs, a)].writable)
  }

  /** No zone is an empty memory at address 0. */
  predicate Sound(bs: seq<Block>) {
    AllWellSized(bs) && forall k :: 0 <= k < |bs| ==> !Swallows(bs[k])
  }

  lemma FlatCell(bs: seq<Block>, a: Word)
    requires AllWellSized(bs)
    ensures ReadOutcome(bs, a) == BusOk ==> a in FlatOf(bs).cells && FlatOf(bs).cells[a] == ReadValue(bs, a)
  {
    hide ReadOutcome, ReadValue;
  }

  /** The bus answers as the flat memory would, for every address. */
  lemma AnswersAsFlat(bs: seq<Block>, a: Word)
    requires Sound(bs)
    ensures ReadOutcome(bs, a) == if Readable(FlatOf(bs), a) then BusOk else InvalidAddress
    ensures WriteOutcome(bs, a) == if a in FlatOf(bs).readOnly then IllegalAccess
                                   else if Readable(FlatOf(bs), a) then BusOk else InvalidAddress
  {
    if Find(bs, a) < |bs| {
      OffsetInside(bs[Find(bs, a)], a);
    }
  }

  lemma WrittenFind(bs: seq<Block>, a: Word, v: Word, x: Word)
    requires AllWellSized(bs)
    ensures var cs := Written(bs, a, v);
      && AllWellSized(cs) && |cs| == |bs| && Find(cs, x) == Find(bs, x)
      && (Find(bs, x) < |bs| ==> cs[Find(bs, x)].(words := []) == bs[Find(bs, x)].(words := []))
  {
    var cs := Written(bs, a, v);
    assert forall k :: 0 <= k < |bs| ==> cs[k].(words := []) == bs[k].(words := []) && |cs[k].words| == |bs[k].words|;
    assert forall k :: 0 <= k < |bs| ==> (InZone(cs[k], x) <==> InZone(bs[k], x));
  }

  lemma WrittenAt(bs: seq<Block>, a: Word, v: Word, x: Word)
    requires Sound(bs) && WriteOutcome(bs, a) == BusOk
    ensures var cs := Written(bs, a, v);
      && AllWellSized(cs) && Find(cs, x) == Find(bs, x) && ReadOutcome(cs, x) == ReadOutcome(bs, x)
      && (Find(bs, x) < |bs| ==> cs[Find(bs, x)].writable == bs[Find(bs, x)].writable)
      && (ReadOutcome(bs, x) == BusOk ==> ReadValue(cs, x) == if x == a then v else ReadValue(bs, x))
  {
    var cs := Written(bs, a, v);
    WrittenFind(bs, a, v, x);
    OkIndex(bs, a);
    OkIndex(bs, x);
    if ReadOutcome(bs, x) == BusOk && Find(bs, a) == Find(bs, x) {
      SameOffset(bs, a, x);
    }
  }

  /** Within one zone, different readable addresses are different words. */
  lemma SameOffset(bs: seq<Block>, a: Word, x: Word)
    requires Sound(bs) && ReadOutcome(bs, a) == BusOk && ReadOutcome(bs, x) == BusOk
    requires Find(bs, a) == Find(bs, x)
    ensures var b := bs[Find(bs, a)]; Translate(b, a) / 4 == Translate(b, x) / 4 ==> a == x
  {
  }

  /** A write changes the word it names and nothing else of the flat memory. */
  lemma WriteIsPut(bs: seq<Block>, a: Word, v: Word)
    requires Sound(bs)
    ensures Sound(Written(bs, a, v))
    ensures FlatOf(Written(bs, a, v)) == if Writable(FlatOf(bs), a) then Put(FlatOf(bs), a, v) else FlatOf(bs)
  {
    hide Find, ReadOutcome, WriteOutcome, ReadValue, Written, Swallows, WellSized;
    var cs := Written(bs, a, v);
    AnswersAsFlat(bs, a);
    WrittenSound(bs, a, v);
    if WriteOutcome(bs, a) == BusOk {
      forall x: Word
        ensures Find(cs, x) == Find(bs, x) && ReadOutcome(cs, x) == ReadOutcome(bs, x)
        ensures Find(bs, x) < |bs| ==> cs[Find(bs, x)].writable == bs[Find(bs, x)].writable
        ensures ReadOutcome(bs, x) == BusOk ==> ReadValue(cs, x) == if x == a then v else ReadValue(bs, x)
      {
        WrittenAt(bs, a, v, x);
      }
      assert FlatOf(cs).readOnly == FlatOf(bs).readOnly;
      assert FlatOf(cs).cells == Put(FlatOf(bs), a, v).cells;
    }
  }

  lemma WrittenSound(bs: seq<Block>, a: Word, v: Word)
    requires Sound(bs)
    ensures Sound(Written(bs, a, v)) && |Written(bs, a, v)| == |bs|
    ensures WriteOutcome(bs, a) != BusOk ==> Written(bs, a, v) == bs
  {
    OkIndex(bs, a);
  }

  // ---------------------------------------------------------------- disjoint zones

  /** The zones are as the machine wants them: in order, apart, within 4 GB. */
  predicate Tidy(bs: seq<Block>) {
    AllWellSized(bs) && AllFit(bs) && Sorted(bs) && Disjoint(bs)
  }

  lemma TidyIsSound(bs: seq<Block>)
    requires Tidy(bs)
    ensures Sound(bs)
  {
    assert forall k :: 0 <= k < |bs| ==> Fits(bs[k]);
  }

  /** In disjoint zones lookup finds the zone that holds the address, wherever it is. */
  lemma FindIs(bs: seq<Block>, a: Word, i: nat)
    requires Tidy(bs) && i < |bs| && Holds(bs[i], a)
    ensures Find(bs, a) == i
  {
    var j := Find(bs, a);
    InZoneIsHolds(bs[i], a);
    if j < |bs| {
      InZoneIsHolds(bs[j], a);
      assert j < i ==> !Overlap(bs[j], bs[i]);
    }
  }

  lemma FindNone(bs: seq<Block>, a: Word)
    requires Tidy(bs) && Find(bs, a) == |bs|
    ensures forall k :: 0 <= k < |bs| ==> !Holds(bs[k], a)
  {
    forall k | 0 <= k < |bs| ensures !Holds(bs[k], a) {
      InZoneIsHolds(bs[k], a);
    }
  }

  lemma FindHolds(bs: seq<Block>, a: Word)
    requires Tidy(bs) && Find(bs, a) < |bs|
    ensures Holds(bs[Find(bs, a)], a)
  {
    InZoneIsHolds(bs[Find(bs, a)], a);
  }

  /** What zone b contributes: its words at its addresses. */
  ghost function FlatOne(b: Block): Flat
    requires WellSized(b)
  {
    Flat(map a: Word | 0 <= a < 0x1_0000_0000 && Holds(b, a) && (a - b.from) % 4 == 0 :: b.words[(a - b.from) / 4],
         set a: Word | 0 <= a < 0x1_0000_0000 && Holds(b, a) && !b.writable)
  }

  /** Every zone shows through unchanged: the flat memory holds the words of zone i at the
      addresses of zone i. */
  lemma ShowsZone(bs: seq<Block>, i: nat, a: Word)
    requires Tidy(bs) && i < |bs| && Holds(bs[i], a)
    ensures a in FlatOf(bs).cells <==> a in FlatOne(bs[i]).cells
    ensures a in FlatOf(bs).cells ==> FlatOf(bs).cells[a] == FlatOne(bs[i]).cells[a]
    ensures a in FlatOf(bs).readOnly <==> a in FlatOne(bs[i]).readOnly
  {
    hide Tidy, Find, Answer, GetAccess, Translate;
    ZoneRead(bs, i, a);
  }

  lemma ZoneRead(bs: seq<Block>, i: nat, a: Word)
    requires Tidy(bs) && i < |bs| && Holds(bs[i], a)
    ensures Find(bs, a) == i && ReadOutcome(bs, a) == if (a - bs[i].from) % 4 == 0 then BusOk else InvalidAddress
    ensures (a - bs[i].from) % 4 == 0 ==> Translate(bs[i], a) == a - bs[i].from
    ensures ReadOutcome(bs, a) == BusOk ==> ReadValue(bs, a) == bs[i].words[(a - bs[i].from) / 4]
  {
    hide Find, GetAccess;
    FindIs(bs, a, i);
    OffsetInside(bs[i], a);
  }

  lemma ShowsNothing(bs: seq<Block>, a: Word)
    requires Tidy(bs) && forall k :: 0 <= k < |bs| ==> !Holds(bs[k], a)
    ensures a !in FlatOf(bs).cells && a !in FlatOf(bs).readOnly
  {
    if Find(bs, a) < |bs| {
      InZoneIsHolds(bs[Find(bs, a)], a);
    }
  }

  function Join(f: Flat, g: Flat): Flat {
    Flat(f.cells + g.cells, f.readOnly + g.readOnly)
  }

  /** b can be attached: it fits below 4 GB and meets no attached zone. */
  predicate Free(bs: seq<Block>, b: Block) {
    WellSized(b) && Fits(b) && !Refused(bs, b.from) && forall k :: 0 <= k < |bs| ==> !Holds(b, bs[k].from)
  }

  lemma AttachTidy(bs: seq<Block>, b: Block)
    requires Tidy(bs) && Free(bs, b)
    ensures Tidy(Attached(bs, b))
  {
    hide SpotFrom, Attached;
    AttachSorted(bs, b);
    AttachDisjoint(bs, b);
    Insertion(bs, b);
  }

  /** Where an address was found before, it is found again, one place further if behind b. */
  lemma AttachFind(bs: seq<Block>, b: Block, a: Word)
    requires Tidy(bs) && Free(bs, b)
    ensures var p, cs := SpotFrom(bs, b.from, 0), Attached(bs, b);
            if Holds(b, a) then Find(cs, a) == p && Find(bs, a) == |bs|
            else if Find(bs, a) == |bs| then Find(cs, a) == |cs|
            else Find(cs, a) == if Find(bs, a) < p then Find(bs, a) else Find(bs, a) + 1
  {
    hide SpotFrom, Attached, Find, Tidy, Free, Refused;
    AttachTidy(bs, b);
    Insertion(bs, b);
    var p, cs := SpotFrom(bs, b.from, 0), Attached(bs, b);
    if Holds(b, a) {
      FindIs(cs, a, p);
      NotBoth(bs, b, a);
    } else if Find(bs, a) == |bs| {
      FindNone(bs, a);
      NoneAfter(bs, b, a);
    } else {
      var i := Find(bs, a);
      FindBound(bs, a);
      FindHolds(bs, a);
      FindIs(cs, a, if i < p then i else i + 1);
    }
  }

  lemma FindBound(bs: seq<Block>, a: Word)
    ensures Find(bs, a) <= |bs|
  {
  }

  lemma NotBoth(bs: seq<Block>, b: Block, a: Word)
    requires Tidy(bs) && Free(bs, b) && Holds(b, a)
    ensures Find(bs, a) == |bs|
  {
    hide Attached, SpotFrom, Find;
    FindBound(bs, a);
    AttachSplits(bs, b);
    assert forall k :: 0 <= k < |bs| ==> !Holds(b, bs[k].from);
    if Find(bs, a) < |bs| {
      FindHolds(bs, a);
    }
  }

  lemma NoneAfter(bs: seq<Block>, b: Block, a: Word)
    requires Tidy(bs) && Free(bs, b) && !Holds(b, a) && forall k :: 0 <= k < |bs| ==> !Holds(bs[k], a)
    ensures Find(Attached(bs, b), a) == |bs| + 1
  {
    hide Attached, SpotFrom, Find;
    AttachTidy(bs, b);
    Insertion(bs, b);
    var cs := Attached(bs, b);
    FindBound(cs, a);
    if Find(cs, a) < |cs| {
      FindHolds(cs, a);
    }
  }

  /** Attaching a free zone adds its words to the flat memory and changes no other. */
  lemma AttachIsJoin(bs: seq<Block>, b: Block)
    requires Tidy(bs) && Free(bs, b)
    ensures Tidy(Attached(bs, b))
    ensures FlatOf(Attached(bs, b)) == Join(FlatOf(bs), FlatOne(b))
    ensures FlatOf(bs).cells.Keys !! FlatOne(b).cells.Keys
  {
    hide Attached, SpotFrom, Find, ReadOutcome, ReadValue, Refused, FlatOf, FlatOne, Holds;
    AttachTidy(bs, b);
    var f, g, h := FlatOf(bs), FlatOne(b), FlatOf(Attached(bs, b));
    forall a: Word
      ensures a in h.cells <==> a in f.cells || a in g.cells
      ensures a in f.cells ==> a !in g.cells && h.cells[a] == f.cells[a]
      ensures a in g.cells ==> h.cells[a] == g.cells[a]
      ensures a in h.readOnly <==> a in f.readOnly || a in g.readOnly
    {
      AttachShows(bs, b, a);
    }
    assert h.cells == (f.cells + g.cells);
    assert h.readOnly == f.readOnly + g.readOnly;
  }

  lemma AttachShows(bs: seq<Block>, b: Block, a: Word)
    requires Tidy(bs) && Free(bs, b)
    ensures AllWellSized(Attached(bs, b))
    ensures var f, g, h := FlatOf(bs), FlatOne(b), FlatOf(Attached(bs, b));
      && (a in h.cells <==> a in f.cells || a in g.cells)
      && (a in f.cells ==> a !in g.cells && h.cells[a] == f.cells[a])
      && (a in g.cells ==> h.cells[a] == g.cells[a])
      && (a in h.readOnly <==> a in f.readOnly || a in g.readOnly)
  {
    hide Attached, SpotFrom, Find, ReadOutcome, ReadValue, Refused, FlatOf;
    AttachTidy(bs, b);
    AttachFind(bs, b, a);
    Insertion(bs, b);
    FindBound(bs, a);
    var p, cs := SpotFrom(bs, b.from, 0), Attached(bs, b);
    var i := Find(bs, a);
    if Holds(b, a) {
      FindNone(bs, a);
      ShowsNothing(bs, a);
      ShowsZone(cs, p, a);
    } else if i == |bs| {
      FindNone(bs, a);
      ShowsNothing(bs, a);
      FindNone(cs, a);
      ShowsNothing(cs, a);
    } else {
      FindHolds(bs, a);
      ShowsZone(bs, i, a);
      ShowsZone(cs, if i < p then i else i + 1, a);
    }
  }
}
