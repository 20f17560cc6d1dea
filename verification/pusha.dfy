/** PUSHA and POPA: saving all general registers and getting them back. */
module SaveRestore {
  import opened Words
  import opened Isa
  import opened FlatMemory
  import opened Machine

  /** The stack word register k goes to. */
  function Slot(sp: Word, k: nat): Word {
    Wrap(sp - 4 * (k + 1))
  }

  /** The words below sp that n registers need can be written. */
  predicate Room(m: State, n: nat) {
    forall k :: 0 <= k < n ==> Writable(m.mem, Slot(m.sp, k))
  }

  /** The saved registers are on the stack. */
  predicate Saved(m: State, f: Flat, n: nat)
    requires n <= |m.regs|
  {
    forall k :: 0 <= k < n ==> Readable(f, Slot(m.sp, k)) && f.cells[Slot(m.sp, k)] == m.regs[k]
  }

  lemma SlotsDiffer(sp: Word, j: nat, k: nat)
    requires j < k <= 250
    ensures Slot(sp, j) != Slot(sp, k)
  {
  }

  lemma SlotBelow(sp: Word, k: nat)
    ensures Wrap(Wrap(sp - 4 * k) - 4) == Slot(sp, k)
    ensures Wrap(Slot(sp, k) + 4) == Wrap(sp - 4 * k)
  {
  }

  /** Only the n words below sp may differ. */
  predicate OnlySlots(m: State, f: Flat, n: nat) {
    SameShape(m.mem, f)
    && forall a :: a in m.mem.cells && (forall k :: 0 <= k < n ==> a != Slot(m.sp, k)) ==> f.cells[a] == m.mem.cells[a]
  }

  /** g is m after pushing its first r registers. */
  predicate Pushed(m: State, g: State, r: nat)
    requires r <= |m.regs|
  {
    && g == m.(sp := Wrap(m.sp - 4 * r), mem := g.mem, panic := g.panic) && (r > 0 ==> g.panic == ErrOk)
    && Saved(m, g.mem, r) && OnlySlots(m, g.mem, r)
  }

  lemma PushNext(m: State, g: State, r: nat)
    requires r < |m.regs| <= 250 && Room(m, |m.regs|) && Pushed(m, g, r)
    ensures Pushed(m, PushReg(g, r), r + 1)
  {
    hide Wrap, Slot;
    SlotBelow(m.sp, r);
    var a := Slot(m.sp, r);
    assert Writable(m.mem, a);
    var t := PushReg(g, r);
    assert t == g.(sp := a, mem := Put(g.mem, a, m.regs[r]), panic := ErrOk);
    assert t.mem.cells.Keys == g.mem.cells.Keys;
    forall k | 0 <= k < r ensures Slot(m.sp, k) != a {
      SlotsDiffer(m.sp, k, r);
    }
    SlotSum(m.sp, r);
  }

  lemma SlotSum(sp: Word, r: nat)
    ensures Slot(sp, r) == Wrap(sp - 4 * (r + 1))
  {
  }

  lemma {:induction false} PushRest(m: State, g: State, r: nat)
    requires r <= |m.regs| <= 250 && Room(m, |m.regs|) && Pushed(m, g, r)
    ensures Pushed(m, PushRegs(g, Ascending(r, |m.regs|)), |m.regs|)
    decreases |m.regs| - r
  {
    hide PushReg, Pushed, Room;
    if r < |m.regs| {
      PushNext(m, g, r);
      PushRest(m, PushReg(g, r), r + 1);
    }
  }

  /** PUSHA: with the words below sp writable, every register is saved in its word, sp moves
      down by one word per register, and nothing else changes. */
  lemma PushaSaves(m: State)
    requires 0 < |m.regs| <= 250 && Room(m, |m.regs|)
    ensures var g := ExecStack(m, Pusha, 0, 0, 0);
      && g == m.(sp := Wrap(m.sp - 4 * |m.regs|), mem := g.mem, panic := ErrOk)
      && Saved(m, g.mem, |m.regs|) && OnlySlots(m, g.mem, |m.regs|)
  {
    hide PushRegs;
    PushRest(m, m, 0);
  }

  lemma {:induction false} PopRest(m: State, g: State, r: nat)
    requires r <= |m.regs| <= 250 && |g.regs| == |m.regs| && g.sp == Wrap(m.sp - 4 * r) && Saved(m, g.mem, r)
    requires forall k :: r <= k < |m.regs| ==> g.regs[k] == m.regs[k]
    ensures PopRegs(g, Descending(r))
         == if r == 0 then g else SetFlags(g.(regs := m.regs, sp := m.sp, panic := ErrOk), m.regs[0])
    decreases r
  {
    hide Wrap, Slot, SetFlags;
    if r > 0 {
      SlotBelow(m.sp, r - 1);
      SlotSum(m.sp, r - 1);
      assert g.sp == Slot(m.sp, r - 1);
      var t := SetFlags(g.(sp := Wrap(m.sp - 4 * (r - 1)), regs := g.regs[r - 1 := m.regs[r - 1]]),
          m.regs[r - 1]).(panic := ErrOk);
      PopOne(m, g, r);
      FlagsFields(g.(sp := Wrap(m.sp - 4 * (r - 1)), regs := g.regs[r - 1 := m.regs[r - 1]]), m.regs[r - 1]);
      PopRest(m, t, r - 1);
      if r == 1 {
        assert g.regs[0 := m.regs[0]] == m.regs;
        SlotZero(m.sp);
      }
      FlagsLast(g, m, r);
    }
  }

  lemma SlotZero(sp: Word)
    ensures Wrap(sp - 4 * 0) == sp
  {
  }

  lemma PopOne(m: State, g: State, r: nat)
    requires 0 < r <= |m.regs| <= 250 && |g.regs| == |m.regs|
    requires g.sp == Slot(m.sp, r - 1) && Saved(m, g.mem, r)
    ensures Readable(g.mem, g.sp)
    ensures PopReg(g, r - 1)
         == SetFlags(g.(sp := Wrap(m.sp - 4 * (r - 1)), regs := g.regs[r - 1 := m.regs[r - 1]]),
             m.regs[r - 1]).(panic := ErrOk)
  {
    hide Wrap, Slot, Signed;
    SlotBelow(m.sp, r - 1);
    assert Readable(g.mem, Slot(m.sp, r - 1)) && g.mem.cells[Slot(m.sp, r - 1)] == m.regs[r - 1];
  }

  lemma FlagsFields(t: State, v: Word)
    ensures SetFlags(t, v) == t.(zero := SetFlags(t, v).zero, negative := SetFlags(t, v).negative)
  {
  }

  /** Only the last pop shows in the flags. */
  lemma FlagsLast(g: State, m: State, r: nat)
    requires 0 < r <= |m.regs| && |g.regs| == |m.regs|
    ensures var t := SetFlags(g.(sp := Wrap(m.sp - 4 * (r - 1)), regs := g.regs[r - 1 := m.regs[r - 1]]),
            m.regs[r - 1]).(panic := ErrOk);
      SetFlags(t.(regs := m.regs, sp := m.sp, panic := ErrOk), m.regs[0])
      == SetFlags(g.(regs := m.regs, sp := m.sp, panic := ErrOk), m.regs[0])
    ensures SetFlags(g.(regs := m.regs, sp := m.sp), m.regs[0]).(panic := ErrOk)
      == SetFlags(g.(regs := m.regs, sp := m.sp, panic := ErrOk), m.regs[0])
  {
    hide Wrap;
  }

  /** POPA, after anything that left sp and the saved words as PUSHA made them: all general
      registers and sp are restored, and the flags describe r0. */
  lemma PopaRestores(m: State, g: State)
    requires 0 < |m.regs| <= 250 && |g.regs| == |m.regs|
    requires g.sp == Wrap(m.sp - 4 * |m.regs|) && Saved(m, g.mem, |m.regs|)
    ensures ExecStack(g, Popa, 0, 0, 0) == SetFlags(g.(regs := m.regs, sp := m.sp, panic := ErrOk), m.regs[0])
  {
    hide PopRegs;
    PopRest(m, g, |m.regs|);
  }

  /** PUSHA then POPA is the identity on registers and sp, for every register count the
      machine supports, and touches only the words below sp. */
  lemma PushaPopa(m: State)
    requires 32 <= |m.regs| <= 250 && Room(m, |m.regs|)
    ensures var g := ExecStack(m, Pusha, 0, 0, 0);
      && ExecStack(g, Popa, 0, 0, 0) == SetFlags(m.(mem := g.mem, panic := ErrOk), m.regs[0])
      && OnlySlots(m, g.mem, |m.regs|)
  {
    hide ExecStack, SetFlags;
    PushaSaves(m);
    PopaRestores(m, ExecStack(m, Pusha, 0, 0, 0));
  }

  lemma {:induction false} SplitPush(m: State, a: nat, b: nat, n: nat)
    requires a <= b <= n <= 255
    ensures PushRegs(m, Ascending(a, n)) == PushRegs(PushRegs(m, Ascending(a, b)), Ascending(b, n))
    decreases b - a
  {
    hide PushReg;
    if a < b {
      SplitPush(PushReg(m, a), a + 1, b, n);
    }
  }

  /** Pushing registers moves sp whether or not the stores succeed. */
  lemma {:induction false} PushMoves(m: State, rs: seq<Byte>)
    requires forall k :: 0 <= k < |rs| ==> rs[k] < |m.regs| && rs[k] < 250
    ensures var g := PushRegs(m, rs);
      g.sp == Wrap(m.sp - 4 * |rs|) && g.regs == m.regs && SameShape(m.mem, g.mem)
    decreases |rs|
  {
    hide PushReg, Wrap;
    if rs != [] {
      var t := PushReg(m, rs[0]);
      PushMoves1(m, rs[0]);
      PushMoves(t, rs[1..]);
      SpTwice(m.sp, |rs| - 1);
    } else {
      SlotZero(m.sp);
    }
  }

  lemma SpTwice(sp: Word, n: nat)
    ensures Wrap(Wrap(sp - 4) - 4 * n) == Wrap(sp - 4 * (n + 1))
  {
  }

  lemma PushMoves1(m: State, r: Byte)
    requires r < |m.regs| && r < 250
    ensures var t := PushReg(m, r);
      && t.sp == Wrap(m.sp - 4) && t.regs == m.regs && SameShape(m.mem, t.mem)
      && t.panic == if Writable(m.mem, Wrap(m.sp - 4)) then ErrOk else ErrWrite
  {
    var a := Wrap(m.sp - 4);
    assert a in m.mem.cells ==> m.mem.cells[a := m.regs[r]].Keys == m.mem.cells.Keys;
  }

  /** Every push overwrites the outcome of the one before, so PUSHA reports a failure exactly
      when its last word cannot be written. */
  lemma PushaOutcome(m: State)
    requires 0 < |m.regs| <= 250
    ensures ExecStack(m, Pusha, 0, 0, 0).panic == if Writable(m.mem, Slot(m.sp, |m.regs| - 1)) then ErrOk else ErrWrite
  {
    hide PushReg, Wrap;
    var n := |m.regs|;
    var g := PushRegs(m, Ascending(0, n - 1));
    SplitPush(m, 0, n - 1, n);
    PushMoves(m, Ascending(0, n - 1));
    PushMoves1(g, n - 1);
    SlotBelow(m.sp, n - 1);
    assert PushRegs(g, Ascending(n - 1, n)) == PushRegs(PushReg(g, n - 1), Ascending(n, n));
  }
}
