/** A block of words behind a zone. */
module Memories {
  import opened Words
  import opened Zones

  datatype Mode = ReadOnly | ReadWrite

  /** The size of a memory: the requested bytes rounded up to whole words, in wrapping arithmetic. */
  function RoundUp(bytes: Word): (r: Word)
    ensures r % 4 == 0
    ensures bytes <= 0xFFFF_FFFC ==> bytes <= r < bytes + 4
    ensures bytes > 0xFFFF_FFFC ==> r == 0
  {
    Wrap(bytes + 3) / 4 * 4
  }

  class Memory {
    const raw: array<Word>
    const size: Word
    var mode: Mode

    ghost predicate Valid() {
      size % 4 == 0 && raw.Length == size / 4
    }

    /** Zeroes as many whole words as were asked for; a last word that the rounding added is
        left as it is. Beyond 4 GB minus three bytes the rounded size wraps to 0. */
    constructor Create(bytes: Word, mode: Mode)
      requires bytes <= 0xFFFF_FFFC
      ensures Valid() && fresh(raw)
      ensures size == RoundUp(bytes) && this.mode == mode
      ensures forall k :: 0 <= k < bytes / 4 ==> raw[k] == 0
    {
      size := RoundUp(bytes);
      raw := new Word[RoundUp(bytes) / 4];
      this.mode := mode;
      new;
      var i := 0;
      while i < bytes / 4
        invariant 0 <= i <= bytes / 4 && this.mode == mode
        invariant forall k :: 0 <= k < i ==> raw[k] == 0
      {
        raw[i] := 0;
        i := i + 1;
      }
    }

    method ModeSet(mode: Mode)
      modifies this`mode
      ensures this.mode == mode
    {
      this.mode := mode;
    }

    method WordGet(address: Word) returns (e: Access, word: Word)
      requires Valid() && GetAccess(size, address) != Wild
      ensures e == GetAccess(size, address)
      ensures e == Done ==> word == raw[address / 4]
    {
      word := 0;
      if address % 4 != 0 {
        return Misaligned, word;
      }
      if Wrap(address + 4) > size {
        return OutOfBound, word;
      }
      return Done, raw[address / 4];
    }

    method WordSet(address: Word, word: Word) returns (e: Access)
      requires Valid() && SetAccess(size, mode == ReadWrite, address) != Wild
      modifies raw
      ensures e == SetAccess(size, mode == ReadWrite, address)
      ensures raw[..] == if e == Done then old(raw[..])[address / 4 := word] else old(raw[..])
    {
      if mode != ReadWrite {
        return NotWritable;
      }
      if address % 4 != 0 {
        return Misaligned;
      }
      if Wrap(address + 4) > size {
        return OutOfBound;
      }
      raw[address / 4] := word;
      return Done;
    }
  }
}
