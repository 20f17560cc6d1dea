/** The interrupt controller: eight pending words beside eight mask words that live in a memory
    the bus also maps. */
module Pics {
  import opened Words
  import opened Arch
  import opened Interrupts
  import opened Zones
  import opened Memories

  /** Where an interrupt is kept: a word and a bit in it. */
  datatype Location = Location(word: nat, bit: Word)

  /** The location a scan is at before interrupt i. */
  predicate IsLocation(loc: Location, i: nat) {
    loc.word == i / 32 && loc.bit == Pow2(i % 32)
  }

  /** Shifting the bit left, with the step to the next word when it falls off. */
  function NextLocation(loc: Location): Location {
    var bit := Wrap(2 * loc.bit);
    Location(if bit == 0 then loc.word + 1 else loc.word, if bit == 0 then 1 else bit)
  }

  /** The shifting bit keeps up with the counter, through the wrap at the end of every word. */
  lemma NextIsLocation(loc: Location, i: nat)
    requires IsLocation(loc, i)
    ensures IsLocation(NextLocation(loc), i + 1)
  {
    WordPow();
    if i % 32 == 31 {
      assert Pow2(32) == 2 * Pow2(31);
      assert (i + 1) / 32 == i / 32 + 1 && (i + 1) % 32 == 0;
    } else {
      PowMonotone(i % 32 + 1, 31);
      assert Pow2(32) == 2 * Pow2(31);
      assert (i + 1) / 32 == i / 32 && (i + 1) % 32 == i % 32 + 1;
    }
  }

  /** A word of pending interrupts with an unmasked one in it has a positive `pending & ~mask`. */
  lemma BitActive(pending: Word, mask: Word, k: nat)
    requires k < 32 && Bit(pending, k) && !Bit(mask, k)
    ensures Bitwise(AndNot, pending, mask) > 0
  {
    BitwiseBit(AndNot, pending, mask, k);
    BitPositive(Bitwise(AndNot, pending, mask), k);
  }

  lemma ActiveBit(pending: Word, mask: Word) returns (k: nat)
    requires Bitwise(AndNot, pending, mask) > 0
    ensures k < 32 && Bit(pending, k) && !Bit(mask, k)
  {
    WordPow();
    k := PositiveHasBit(Bitwise(AndNot, pending, mask), 32);
    BitwiseBit(AndNot, pending, mask, k);
  }

  /** The word-wise scan and the bit-wise scan agree on whether there is anything to deliver. */
  lemma ActiveByWords(pending: Bank, masks: Bank)
    ensures Active(pending, masks) <==> exists j :: 0 <= j < 8 && Bitwise(AndNot, pending[j], masks[j]) > 0
  {
    hide Bitwise;
    if Active(pending, masks) {
      var i: Byte :| Deliverable(pending, masks, i);
      BitActive(pending[i / 32], masks[i / 32], i % 32);
    }
    if j :| 0 <= j < 8 && Bitwise(AndNot, pending[j], masks[j]) > 0 {
      var k := ActiveBit(pending[j], masks[j]);
      assert (j * 32 + k) / 32 == j && (j * 32 + k) % 32 == k;
      assert Deliverable(pending, masks, j * 32 + k);
    }
  }

  class Pic {
    const mask: Memory
    const active: array<Word>

    ghost predicate Valid()
      reads mask
    {
      mask.Valid() && mask.size == 32 && mask.mode == ReadWrite && active.Length == 8 && active != mask.raw
    }

    ghost function Pending(): Bank
      requires Valid()
      reads mask, active
    {
      active[..]
    }

    ghost function MaskBank(): Bank
      requires Valid()
      reads mask, mask.raw
    {
      mask.raw[..]
    }

    /** No interrupt is pending, and the timer, the screen and the keyboard are masked. */
    constructor Create(mask: Memory)
      requires mask.Valid() && mask.size == 32 && mask.mode == ReadWrite
      requires forall k :: 0 <= k < 8 ==> mask.raw[k] == 0
      modifies mask.raw
      ensures Valid() && this.mask == mask && fresh(active)
      ensures forall k :: 0 <= k < 8 ==> active[k] == 0
      ensures forall i: Byte :: !Has(Pending(), i)
      ensures forall i: Byte :: Has(MaskBank(), i) <==> i == INT_VSYNC || i == INT_TIMER || i == INT_KEYBOARD
    {
      this.mask := mask;
      active := new Word[8];
      new;
      ClearPending();
      NothingIn(Pending());
      NothingIn(MaskBank());
      MaskDevices();
    }

    method ClearPending()
      requires Valid()
      modifies active
      ensures Valid() && forall k :: 0 <= k < 8 ==> active[k] == 0
    {
      var i := 0;
      while i < 8
        invariant 0 <= i <= 8 && forall k :: 0 <= k < i ==> active[k] == 0
      {
        active[i] := 0;
        i := i + 1;
      }
    }

    static lemma NothingIn(ws: Bank)
      requires forall k :: 0 <= k < 8 ==> ws[k] == 0
      ensures forall i: Byte :: !Has(ws, i)
    {
      forall i: Byte ensures !Has(ws, i) {
        ZeroBit(i % 32);
      }
    }

    method MaskDevices()
      requires Valid() && forall i: Byte :: !Has(MaskBank(), i)
      modifies mask.raw
      ensures Valid()
      ensures forall i: Byte :: Has(MaskBank(), i) <==> i == INT_VSYNC || i == INT_TIMER || i == INT_KEYBOARD
    {
      hide Has, SetBit;
      SetMask(INT_VSYNC, true);
      SetMask(INT_TIMER, true);
      SetMask(INT_KEYBOARD, true);
    }

    method FindLocation(i: Byte) returns (loc: Location)
      ensures loc == Location(i / 32, BitOf(i)) && IsLocation(loc, i)
    {
      loc := Location(i / 32, BitOf(i));
    }

    /** Masks or unmasks one interrupt and no other. */
    method SetMask(i: Byte, masked: bool)
      requires Valid()
      modifies mask.raw
      ensures Valid()
      ensures MaskBank() == if masked then SetBit(old(MaskBank()), i) else ClearBit(old(MaskBank()), i)
      ensures forall j: Byte :: Has(MaskBank(), j) == if j == i then masked else old(Has(MaskBank(), j))
    {
      hide BitOf, Bitwise, Bit;
      var loc := FindLocation(i);
      var e, w := mask.WordGet(loc.word * 4);
      var bits := Bitwise(if masked then Or else AndNot, w, loc.bit);
      e := mask.WordSet(loc.word * 4, bits);
      forall j: Byte ensures Has(MaskBank(), j) == if j == i then masked else old(Has(MaskBank(), j)) {
        SetBitHas(old(MaskBank()), i, j);
        ClearBitHas(old(MaskBank()), i, j);
      }
    }

    method Trigger(i: Byte)
      requires Valid()
      modifies active
      ensures Valid() && Pending() == SetBit(old(Pending()), i)
      ensures forall j: Byte :: Has(Pending(), j) == (j == i || old(Has(Pending(), j)))
    {
      hide BitOf, Bitwise, Bit;
      var loc := FindLocation(i);
      active[loc.word] := Bitwise(Or, active[loc.word], loc.bit);
      forall j: Byte ensures Has(Pending(), j) == (j == i || old(Has(Pending(), j))) {
        SetBitHas(old(Pending()), i, j);
      }
    }

    method Reset(i: Byte)
      requires Valid()
      modifies active
      ensures Valid() && Pending() == ClearBit(old(Pending()), i)
      ensures forall j: Byte :: Has(Pending(), j) == (j != i && old(Has(Pending(), j)))
    {
      hide BitOf, Bitwise, Bit;
      var loc := FindLocation(i);
      active[loc.word] := Bitwise(AndNot, active[loc.word], loc.bit);
      forall j: Byte ensures Has(Pending(), j) == (j != i && old(Has(Pending(), j))) {
        ClearBitHas(old(Pending()), i, j);
      }
    }

    /** The word-wise scan: is any interrupt pending and not masked? */
    method IsActive() returns (r: bool)
      requires Valid()
      ensures r == Active(Pending(), MaskBank())
    {
      hide Bitwise, Active;
      ActiveByWords(Pending(), MaskBank());
      var i := 0;
      while i < 8
        invariant 0 <= i <= 8
        invariant forall j :: 0 <= j < i ==> Bitwise(AndNot, active[j], mask.raw[j]) == 0
      {
        var e, w := mask.WordGet(i * 4);
        if Bitwise(AndNot, active[i], w) > 0 {
          assert Bitwise(AndNot, Pending()[i], MaskBank()[i]) > 0;
          return true;
        }
        i := i + 1;
      }
      return false;
    }

    method IsActiveAt(loc: Location, ghost i: Byte) returns (r: bool)
      requires Valid() && IsLocation(loc, i)
      ensures r == Has(Pending(), i)
    {
      hide Bitwise, Bit, Pow2;
      LocationReads(loc, i);
      TestBit(active[loc.word], i % 32);
      r := Bitwise(And, active[loc.word], loc.bit) > 0;
    }

    method IsMaskedAt(loc: Location, ghost i: Byte) returns (r: bool)
      requires Valid() && IsLocation(loc, i)
      ensures r == Has(MaskBank(), i)
    {
      hide Bitwise, Bit, Pow2;
      LocationReads(loc, i);
      var e, w := mask.WordGet(loc.word * 4);
      TestBit(w, i % 32);
      r := Bitwise(And, w, loc.bit) > 0;
    }

    /** The bit-wise scan: the lowest interrupt that is pending and not masked, 0 if there is none. */
    method Get() returns (r: Byte)
      requires Valid()
      ensures r == First(Pending(), MaskBank())
    {
      hide Has, NextLocation, IsLocation;
      var loc := Location(0, 1);
      StartLocation();
      var i := 0;
      while i < 256
        invariant 0 <= i <= 256 && IsLocation(loc, i)
        invariant First(Pending(), MaskBank()) == FirstFrom(Pending(), MaskBank(), i)
      {
        var isActive := IsActiveAt(loc, i);
        var isMasked := IsMaskedAt(loc, i);
        if isActive && !isMasked {
          return i;
        }
        NextIsLocation(loc, i);
        loc := NextLocation(loc);
        i := i + 1;
      }
      return 0;
    }
  }

  lemma StartLocation()
    ensures IsLocation(Location(0, 1), 0)
  {
  }

  lemma LocationReads(loc: Location, i: nat)
    requires IsLocation(loc, i) && i < 256
    ensures loc.word == i / 32 < 8 && loc.bit == Pow2(i % 32)
  {
  }
}
