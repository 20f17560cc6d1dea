/** The memory map and sizes every part of the machine agrees on. */
module Arch {
  import opened Words

  const WORD_SIZE: Word := 4
  const STACK_SIZE: Word := 4096
  const ROM_SIZE: Word := 32 * 1024 * 1024
  const ROM_ADDRESS: Word := WORD_LIMIT - ROM_SIZE
  const VIDEO_BUFFER_SIZE: Word := 320 * 200 * 4
  const VIDEO_BUFFER_1_ADDRESS: Word := ROM_ADDRESS - VIDEO_BUFFER_SIZE
  const VIDEO_BUFFER_0_ADDRESS: Word := VIDEO_BUFFER_1_ADDRESS - VIDEO_BUFFER_SIZE
  const VIDEO_META_ADDRESS: Word := VIDEO_BUFFER_0_ADDRESS - WORD_SIZE

  const IMASK_ADDRESS: Word := VIDEO_META_ADDRESS - 8 * WORD_SIZE
  const IDT_ADDRESS: Word := IMASK_ADDRESS - 256 * WORD_SIZE
  const KEYBOARD_OUT_ADDRESS: Word := IDT_ADDRESS - WORD_SIZE
  const KEYBOARD_IN_ADDRESS: Word := KEYBOARD_OUT_ADDRESS - WORD_SIZE

  const INT_TIMER: Byte := 3
  const INT_VSYNC: Byte := 4
  const INT_KEYBOARD: Byte := 5

  const VIDEO_BIT_ENABLED: Word := 2
}

/** What a bus looks like to the CPU: words by address, and the bytes that refuse writes. */
module FlatMemory {
  import opened Words

  datatype Flat = Flat(cells: map<Word, Word>, readOnly: set<Word>)

  predicate Readable(f: Flat, a: Word) {
    a in f.cells
  }

  predicate Writable(f: Flat, a: Word) {
    a in f.cells && a !in f.readOnly
  }

  function Lookup(f: Flat, a: Word): Option<Word> {
    if a in f.cells then Some(f.cells[a]) else None
  }

  function Put(f: Flat, a: Word, v: Word): Flat {
    f.(cells := f.cells[a := v])
  }

  /** The two memories map the same addresses with the same access rights. */
  predicate SameShape(f: Flat, g: Flat) {
    f.cells.Keys == g.cells.Keys && f.readOnly == g.readOnly
  }
}

/** Pending and masked interrupts as bits of eight words. */
module Interrupts {
  import opened Words
  import opened Arch

  type Bank = ws: seq<Word> | |ws| == 8 witness [0, 0, 0, 0, 0, 0, 0, 0]

  predicate Has(ws: Bank, i: Byte) {
    Bit(ws[i / 32], i % 32)
  }

  function BitOf(i: Byte): Word {
    WordPow();
    PowMonotone(i % 32, 31);
    Pow2(i % 32)
  }

  function SetBit(ws: Bank, i: Byte): Bank {
    ws[i / 32 := Bitwise(Or, ws[i / 32], BitOf(i))]
  }

  function ClearBit(ws: Bank, i: Byte): Bank {
    ws[i / 32 := Bitwise(AndNot, ws[i / 32], BitOf(i))]
  }

  predicate Deliverable(pending: Bank, masks: Bank, i: Byte) {
    Has(pending, i) && !Has(masks, i)
  }

  /** Some interrupt is pending and not masked. */
  predicate Active(pending: Bank, masks: Bank) {
    exists i: Byte :: Deliverable(pending, masks, i)
  }

  /** The lowest deliverable interrupt from i on, or 0 when there is none. */
  function FirstFrom(pending: Bank, masks: Bank, i: nat): (r: Byte)
    requires i <= 256
    ensures (exists j: Byte :: i <= j && Deliverable(pending, masks, j))
            ==> i <= r && Deliverable(pending, masks, r) && forall j: Byte :: i <= j < r ==>
                !Deliverable(pending, masks, j)
    ensures (forall j: Byte :: i <= j ==> !Deliverable(pending, masks, j)) ==> r == 0
    decreases 256 - i
  {
    if i == 256 then 0
    else if Deliverable(pending, masks, i) then i
    else FirstFrom(pending, masks, i + 1)
  }

  function First(pending: Bank, masks: Bank): Byte {
    FirstFrom(pending, masks, 0)
  }

  /** Setting and clearing touch the named interrupt and no other. */
  lemma SetBitHas(ws: Bank, i: Byte, j: Byte)
    ensures Has(SetBit(ws, i), j) == (i == j || Has(ws, j))
  {
    BitwiseBit(Or, ws[i / 32], BitOf(i), j % 32);
    PowBit(i % 32, j % 32);
    assert i == j <==> i / 32 == j / 32 && i % 32 == j % 32;
  }

  lemma ClearBitHas(ws: Bank, i: Byte, j: Byte)
    ensures Has(ClearBit(ws, i), j) == (i != j && Has(ws, j))
  {
    BitwiseBit(AndNot, ws[i / 32], BitOf(i), j % 32);
    PowBit(i % 32, j % 32);
    assert i == j <==> i / 32 == j / 32 && i % 32 == j % 32;
  }
}
