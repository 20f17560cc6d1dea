/** The CPU looking for an interrupt while devices trigger them. Setting and clearing a pending
    bit are atomic; between any two reads of the CPU any device may trigger anything. */
module Interleaving {
  import opened Words
  import opened Interrupts
  import opened FlatMemory
  import opened Machine
  import opened OpenRuns
  import opened Pics

  /** Where the CPU is: executing, in the word-wise scan, in the bit-wise scan, or about to
      reset the interrupt it found. */
  datatype Phase = Executing | Testing(w: nat) | Scanning(k: nat) | Found(i: Byte)

  /** Numbers per interrupt. */
  type Counts = cs: seq<nat> | |cs| == 256 witness Zeros(256)

  function Zeros(n: nat): (cs: seq<nat>)
    ensures |cs| == n && forall k :: 0 <= k < n ==> cs[k] == 0
  {
    if n == 0 then [] else Zeros(n - 1) + [0]
  }

  /** The histories count, per interrupt: triggers so far, times taken, triggers since last taken. */
  datatype System = System(
    pending: Bank, masks: Bank, enabled: bool, phase: Phase,
    triggered: Counts, taken: Counts, since: Counts)

  /** One atomic action: a device (or the INT instruction) triggers; the CPU begins a test,
      makes one read of a scan, resets; an instruction changes a mask, stores a word of masks
      or changes the enable flag. */
  datatype Action =
    | Trigger(i: Byte)
    | Begin | Read | Reset
    | SetMask(i: Byte, masked: bool) | StoreMasks(w: nat, v: Word) | SetEnabled(on: bool)

  function Bump(cs: Counts, i: Byte): Counts {
    cs[i := cs[i] + 1]
  }

  /** One read of the word-wise or of the bit-wise scan. */
  function ReadStep(s: System): System
    requires s.phase.Testing? || s.phase.Scanning?
  {
    match s.phase
    case Testing(w) =>
      if w >= 8 then s.(phase := Executing)
      else if Bitwise(AndNot, s.pending[w], s.masks[w]) > 0 then s.(phase := Scanning(0), enabled := false)
      else s.(phase := Testing(w + 1))
    case Scanning(k) =>
      if k >= 256 then s.(phase := Found(0))
      else if Deliverable(s.pending, s.masks, k) then s.(phase := Found(k))
      else s.(phase := Scanning(k + 1))
  }

  function Next(s: System, a: Action): Option<System> {
    match a
    case Trigger(i) =>
      Some(s.(pending := SetBit(s.pending, i), triggered := Bump(s.triggered, i), since := Bump(s.since, i)))
    case Begin => if s.phase.Executing? && s.enabled then Some(s.(phase := Testing(0))) else None
    case Read => if s.phase.Testing? || s.phase.Scanning? then Some(ReadStep(s)) else None
    case Reset =>
      if !s.phase.Found? then None
      else
        var i := s.phase.i;
        Some(s.(pending := ClearBit(s.pending, i), phase := Executing, taken := Bump(s.taken, i),
            since := s.since[i := 0]))
    case SetMask(i, masked) =>
      if !s.phase.Executing? then None
      else Some(s.(masks := if masked then SetBit(s.masks, i) else ClearBit(s.masks, i)))
    case StoreMasks(w, v) => if !s.phase.Executing? || w >= 8 then None else Some(s.(masks := s.masks[w := v]))
    case SetEnabled(on) => if s.phase.Executing? then Some(s.(enabled := on)) else None
  }

  function Run(s: System, actions: seq<Action>): Option<System>
    decreases |actions|
  {
    if actions == [] then Some(s)
    else
      var t := Next(s, actions[0]);
      if t.None? then None else Run(t.value, actions[1..])
  }

  const NONE: Counts := Zeros(256)

  /** Nothing pending, nothing counted; masks and the enable flag are arbitrary. */
  predicate Initial(s: System) {
    && s.phase == Executing && s.triggered == NONE && s.taken == NONE && s.since == NONE
    && forall i: Byte :: !Has(s.pending, i)
  }

  // ---------------------------------------------------------------- the invariant

  /** Some interrupt from k on can be delivered. */
  predicate DeliverableFrom(s: System, k: nat) {
    exists j: Byte :: k <= j && Deliverable(s.pending, s.masks, j)
  }

  predicate PhaseInvariant(s: System) {
    match s.phase
    case Executing => true
    case Testing(_) => true
    case Scanning(k) => DeliverableFrom(s, k)
    case Found(i) => Deliverable(s.pending, s.masks, i)
  }

  /** An interrupt is pending exactly when it was triggered since it was last taken, and each
      time it was taken used up at least one trigger. */
  predicate CountInvariant(s: System) {
    forall i: Byte :: (Has(s.pending, i) <==> s.since[i] > 0) && s.taken[i] + s.since[i] <= s.triggered[i]
  }

  predicate Invariant(s: System) {
    PhaseInvariant(s) && CountInvariant(s)
  }

  /** Triggers only add: what was deliverable stays so. */
  lemma TriggerKeeps(s: System, i: Byte, j: Byte)
    ensures Has(SetBit(s.pending, i), j) <==> i == j || Has(s.pending, j)
    ensures Deliverable(s.pending, s.masks, j) ==> Deliverable(SetBit(s.pending, i), s.masks, j)
  {
    SetBitHas(s.pending, i, j);
  }

  /** A positive word of the word-wise scan stands for a deliverable interrupt. */
  lemma WordDelivers(s: System, w: nat)
    requires w < 8 && Bitwise(AndNot, s.pending[w], s.masks[w]) > 0
    ensures DeliverableFrom(s, 0)
  {
    hide Bitwise;
    assert Active(s.pending, s.masks) by {
      ActiveByWords(s.pending, s.masks);
    }
    var i: Byte :| Deliverable(s.pending, s.masks, i);
  }

  lemma CountsKept(s: System, a: Action)
    requires Invariant(s) && Next(s, a).Some?
    ensures CountInvariant(Next(s, a).value)
  {
    hide SetBit, ClearBit, Has, Deliverable, ReadStep;
    var t := Next(s, a).value;
    forall i: Byte
      ensures (Has(t.pending, i) <==> t.since[i] > 0) && t.taken[i] + t.since[i] <= t.triggered[i]
    {
      match a {
        case Trigger(j) => TriggerKeeps(s, j, i);
        case Reset =>
          ClearBitHas(s.pending, s.phase.i, i);
          FoundIsPending(s);
        case Read => ReadCounts(s);
        case _ =>
      }
    }
  }

  lemma FoundIsPending(s: System)
    requires PhaseInvariant(s) && s.phase.Found?
    ensures Has(s.pending, s.phase.i)
  {
  }

  lemma ReadCounts(s: System)
    requires s.phase.Testing? || s.phase.Scanning?
    ensures var t := ReadStep(s);
      t.pending == s.pending && t.masks == s.masks && t.triggered == s.triggered && t.taken == s.taken
          && t.since == s.since
  {
  }

  lemma PhaseKept(s: System, a: Action)
    requires PhaseInvariant(s) && Next(s, a).Some?
    ensures PhaseInvariant(Next(s, a).value)
  {
    hide SetBit, ClearBit, Deliverable, Bitwise;
    match a {
      case Trigger(i) =>
        forall j: Byte ensures Deliverable(s.pending, s.masks, j) ==> Deliverable(SetBit(s.pending, i), s.masks, j) {
          TriggerKeeps(s, i, j);
        }
      case Read =>
        if s.phase.Testing? && s.phase.w < 8 && Bitwise(AndNot, s.pending[s.phase.w], s.masks[s.phase.w]) > 0 {
          WordDelivers(s, s.phase.w);
        }
      case _ =>
    }
  }

  lemma {:induction false} InvariantKept(s: System, actions: seq<Action>)
    requires Invariant(s) && Run(s, actions).Some?
    ensures Invariant(Run(s, actions).value)
    decreases |actions|
  {
    hide Invariant, Next;
    if actions != [] {
      StepKept(s, actions[0]);
      InvariantKept(Next(s, actions[0]).value, actions[1..]);
    }
  }

  lemma StepKept(s: System, a: Action)
    requires Invariant(s) && Next(s, a).Some?
    ensures Invariant(Next(s, a).value)
  {
    hide PhaseInvariant, CountInvariant, Next;
    assert PhaseInvariant(s);
    CountsKept(s, a);
    PhaseKept(s, a);
  }

  // ---------------------------------------------------------------- what every schedule keeps

  /** Conservation, over every schedule: an interrupt about to be taken is pending and unmasked;
      none is taken more often than it was triggered; it is pending exactly when it was
      triggered since it was last taken. */
  lemma Conservation(s: System, actions: seq<Action>)
    requires Initial(s) && Run(s, actions).Some?
    ensures var t := Run(s, actions).value;
      && (t.phase.Found? ==> Deliverable(t.pending, t.masks, t.phase.i))
      && (forall i: Byte :: t.taken[i] <= t.triggered[i])
      && (forall i: Byte :: Has(t.pending, i) <==> t.since[i] > 0)
  {
    hide Next, Has;
    InvariantKept(s, actions);
  }

  /** A trigger stays pending until its interrupt is taken. */
  lemma {:induction false} TriggerStays(s: System, actions: seq<Action>, i: Byte)
    requires Invariant(s) && Has(s.pending, i) && Run(s, actions).Some?
    requires Run(s, actions).value.taken[i] == s.taken[i]
    ensures Has(Run(s, actions).value.pending, i)
    decreases |actions|
  {
    hide Invariant, Next, Has;
    if actions != [] {
      var t := Next(s, actions[0]).value;
      StepKept(s, actions[0]);
      TakenGrows(t, actions[1..], i);
      TakenStep(s, actions[0], i);
      TriggerStays(t, actions[1..], i);
    }
  }

  lemma TakenStep(s: System, a: Action, i: Byte)
    requires Next(s, a).Some?
    ensures var t := Next(s, a).value;
      && t.taken[i] >= s.taken[i]
      && (t.taken[i] == s.taken[i] && Has(s.pending, i) ==> Has(t.pending, i))
  {
    hide Has, SetBit, ClearBit, ReadStep;
    match a {
      case Trigger(j) => TriggerKeeps(s, j, i);
      case Reset =>
        if s.phase.Found? {
          ClearBitHas(s.pending, s.phase.i, i);
        }
      case Read => ReadCounts(s);
      case _ =>
    }
  }

  lemma {:induction false} TakenGrows(s: System, actions: seq<Action>, i: Byte)
    requires Run(s, actions).Some?
    ensures Run(s, actions).value.taken[i] >= s.taken[i]
    decreases |actions|
  {
    hide Next;
    if actions != [] {
      TakenStep(s, actions[0], i);
      TakenGrows(Next(s, actions[0]).value, actions[1..], i);
    }
  }

  // ---------------------------------------------------------------- the scans find something

  /** The CPU is in a scan that has a deliverable interrupt still ahead of it. */
  predicate Ahead(s: System) {
    match s.phase
    case Testing(w) => DeliverableFrom(s, 32 * w)
    case Scanning(k) => DeliverableFrom(s, k)
    case _ => false
  }

  /** Reads left at most until the scans end. */
  function Left(s: System): nat {
    match s.phase
    case Testing(w) => if w <= 8 then 266 - w else 0
    case Scanning(k) => if k <= 256 then 257 - k else 0
    case _ => 0
  }

  /** A test begun with something deliverable has it ahead. */
  lemma BeginIsAhead(s: System)
    requires s.phase.Executing? && s.enabled && Active(s.pending, s.masks)
    ensures Next(s, Begin).Some? && Ahead(Next(s, Begin).value)
  {
    var i: Byte :| Deliverable(s.pending, s.masks, i);
  }

  /** From a scan with something ahead, a read gets closer or finds a deliverable interrupt. */
  lemma ReadProgress(s: System)
    requires Ahead(s)
    ensures var t := ReadStep(s);
      if t.phase.Found? then Deliverable(t.pending, t.masks, t.phase.i) else Ahead(t) && Left(t) < Left(s)
  {
    hide Bitwise, Deliverable;
    if s.phase.Testing? {
      var w := s.phase.w;
      var j: Byte :| 32 * w <= j && Deliverable(s.pending, s.masks, j);
      if Bitwise(AndNot, s.pending[w], s.masks[w]) > 0 {
        WordDelivers(s, w);
      } else {
        QuietWord(s, w, j);
      }
    }
  }

  lemma QuietWord(s: System, w: nat, j: Byte)
    requires w < 8 && !(Bitwise(AndNot, s.pending[w], s.masks[w]) > 0)
    requires 32 * w <= j && Deliverable(s.pending, s.masks, j)
    ensures 32 * (w + 1) <= j
  {
    hide Bitwise;
    if j / 32 == w {
      BitActive(s.pending[w], s.masks[w], j % 32);
    }
  }

  lemma OtherProgress(s: System, a: Action)
    requires Ahead(s) && Next(s, a).Some? && a != Read
    ensures Ahead(Next(s, a).value) && Left(Next(s, a).value) == Left(s)
  {
    hide SetBit, ClearBit, Deliverable;
    if a.Trigger? {
      forall j: Byte ensures Deliverable(s.pending, s.masks, j) ==> Deliverable(SetBit(s.pending, a.i), s.masks, j) {
        TriggerKeeps(s, a.i, j);
      }
    }
  }

  function Reads(actions: seq<Action>): nat {
    if actions == [] then 0 else (if actions[0] == Read then 1 else 0) + Reads(actions[1..])
  }

  /** Once a test has begun with a deliverable interrupt, the CPU finds one within 266 reads,
      however triggers fall in between. */
  lemma {:induction false} ScanSucceeds(s: System, actions: seq<Action>) returns (n: nat)
    requires Ahead(s) && Run(s, actions).Some? && Reads(actions) >= Left(s)
    ensures n <= |actions| && Run(s, actions[..n]).Some?
    ensures var t := Run(s, actions[..n]).value;
            t.phase.Found? && Deliverable(t.pending, t.masks, t.phase.i)
    decreases |actions|
  {
    hide Deliverable, DeliverableFrom;
    LeftPositive(s);
    var a := actions[0];
    var t := Next(s, a).value;
    if a == Read {
      ReadProgress(s);
    } else {
      OtherProgress(s, a);
    }
    if t.phase.Found? {
      n := 1;
      assert actions[..1][1..] == [];
    } else {
      var k := ScanSucceeds(t, actions[1..]);
      n := k + 1;
      assert actions[..n][1..] == actions[1..][..k];
    }
  }

  lemma LeftPositive(s: System)
    requires Ahead(s)
    ensures 0 < Left(s) <= 266
  {
  }

  // ---------------------------------------------------------------- what the machine's turn makes of it

  /** The interrupts triggered by the actions. */
  function Triggers(actions: seq<Action>): seq<Byte> {
    if actions == [] then []
    else (if actions[0].Trigger? then [actions[0].i] else []) + Triggers(actions[1..])
  }

  function FromOn(arrivals: seq<Byte>, i: Byte): (r: seq<Byte>)
    ensures forall j :: j in r <==> j in arrivals && j >= i
  {
    if arrivals == [] then []
    else (if arrivals[0] >= i then [arrivals[0]] else []) + FromOn(arrivals[1..], i)
  }

  function Under(arrivals: seq<Byte>, i: Byte): (r: seq<Byte>)
    ensures forall j :: j in r <==> j in arrivals && j < i
  {
    if arrivals == [] then []
    else (if arrivals[0] < i then [arrivals[0]] else []) + Under(arrivals[1..], i)
  }

  /** Only devices and the scans act. */
  predicate OnlyScans(actions: seq<Action>) {
    forall k :: 0 <= k < |actions| ==> actions[k].Trigger? || actions[k].Read?
  }

  /** What is known after a test begun in s has come to t, with these triggers in between: what
      the scans have passed was not deliverable in s. */
  predicate Along(s: System, t: System, arrivals: seq<Byte>) {
    && t.masks == s.masks
    && (forall j: Byte :: Has(t.pending, j) <==> Has(s.pending, j) || j in arrivals)
    && match t.phase
       case Testing(w) => t.enabled == s.enabled && forall j: Byte :: j < 32 * w ==> !Deliverable(s.pending, s.masks, j)
       case Scanning(k) => !t.enabled && forall j: Byte :: j < k ==> !Deliverable(s.pending, s.masks, j)
       case Found(i) => !t.enabled && forall j: Byte :: j < i ==> !Deliverable(s.pending, s.masks, j)
       case Executing => t.enabled == s.enabled && forall j: Byte :: !Deliverable(s.pending, s.masks, j)
  }

  lemma AlongTrigger(s: System, t: System, arrivals: seq<Byte>, i: Byte)
    requires Along(s, t, arrivals)
    ensures Along(s, Next(t, Trigger(i)).value, arrivals + [i])
  {
    hide Has, SetBit, Deliverable;
    forall j: Byte ensures Has(SetBit(t.pending, i), j) <==> Has(t.pending, j) || j == i {
      SetBitHas(t.pending, i, j);
    }
  }

  lemma AlongRead(s: System, t: System, arrivals: seq<Byte>)
    requires Along(s, t, arrivals) && PhaseInvariant(t) && (t.phase.Testing? || t.phase.Scanning?)
    ensures Along(s, ReadStep(t), arrivals)
  {
    hide Has, Bitwise;
    if t.phase.Testing? && t.phase.w < 8 && !(Bitwise(AndNot, t.pending[t.phase.w], t.masks[t.phase.w]) > 0) {
      forall j: Byte | j < 32 * (t.phase.w + 1) ensures !Deliverable(s.pending, s.masks, j) {
        if j >= 32 * t.phase.w && Deliverable(s.pending, s.masks, j) {
          QuietWord(t, t.phase.w, j);
        }
      }
    }
  }

  lemma {:induction false} AlongRun(s: System, t: System, arrivals: seq<Byte>, actions: seq<Action>)
    requires Along(s, t, arrivals) && PhaseInvariant(t) && OnlyScans(actions) && Run(t, actions).Some?
    ensures Along(s, Run(t, actions).value, arrivals + Triggers(actions)) && PhaseInvariant(Run(t, actions).value)
    decreases |actions|
  {
    hide Along, PhaseInvariant, Next, ReadStep;
    if actions == [] {
      assert arrivals + Triggers(actions) == arrivals;
    } else {
      var a := actions[0];
      PhaseKept(t, a);
      var more := if a.Trigger? then [a.i] else [];
      AlongNext(s, t, arrivals, a);
      AlongRun(s, Next(t, a).value, arrivals + more, actions[1..]);
      assert arrivals + Triggers(actions) == arrivals + more + Triggers(actions[1..]);
    }
  }

  lemma AlongNext(s: System, t: System, arrivals: seq<Byte>, a: Action)
    requires Along(s, t, arrivals) && PhaseInvariant(t) && (a.Trigger? || a.Read?) && Next(t, a).Some?
    ensures Along(s, Next(t, a).value, arrivals + if a.Trigger? then [a.i] else [])
  {
    hide Along, PhaseInvariant, ReadStep, SetBit;
    if a.Trigger? {
      AlongTrigger(s, t, arrivals, a.i);
    } else {
      AlongRead(s, t, arrivals);
      assert arrivals + [] == arrivals;
    }
  }

  /** The controller is as the machine's registers and memory show it, and the CPU is executing. */
  predicate Shows(s: System, m: State) {
    s.phase.Executing? && s.pending == m.pending && s.masks == Masks(m.mem) && s.enabled == m.enabled
  }

  /** The scans are linearizable. However the devices' triggers fall between the reads, a test that
      finds interrupt i is what the machine's turn does when the triggers of i and above come before
      it and the others after it; and a test that finds nothing is a turn that takes no interrupt
      with all triggers after it. */
  lemma Linearizes(s: System, m: State, actions: seq<Action>)
    requires Shows(s, m) && OnlyScans(actions) && Run(s, [Begin] + actions).Some?
    ensures var t, arrivals := Run(s, [Begin] + actions).value, Triggers(actions);
      && (t.phase.Found? ==>
            var i := t.phase.i;
            var taken := TakeInterrupt(Arrive(m, FromOn(arrivals, i)));
            && TakenIn(m, FromOn(arrivals, i)) == Some(i)
            && taken.ir == i && taken.enabled == t.enabled == false
            && forall j: Byte :: Has(Next(t, Reset).value.pending, j)
                <==> Has(Arrive(taken, Under(arrivals, i)).pending, j))
      && (t.phase.Executing? ==> TakenIn(m, []) == None && t.enabled == s.enabled)
  {
    hide Has, Along, PhaseInvariant, Masks, SetBit, ClearBit, ReadStep, TakenIn, Arrive, TakeInterrupt;
    var actions1 := [Begin] + actions;
    assert actions1[1..] == actions;
    var b := s.(phase := Testing(0));
    assert Next(s, Begin) == Some(b);
    Begun(s, b);
    AlongRun(s, b, [], actions);
    assert [] + Triggers(actions) == Triggers(actions);
    var t := Run(b, actions).value;
    if t.phase.Found? {
      TakesFound(s, m, t, Triggers(actions));
    } else if t.phase.Executing? {
      TakesNothing(s, m, t, Triggers(actions));
    }
  }

  lemma Begun(s: System, b: System)
    requires b == s.(phase := Testing(0))
    ensures Along(s, b, []) && PhaseInvariant(b)
  {
    hide Has;
  }

  lemma TakesNothing(s: System, m: State, t: System, arrivals: seq<Byte>)
    requires Shows(s, m) && Along(s, t, arrivals) && t.phase.Executing?
    ensures TakenIn(m, []) == None && t.enabled == s.enabled
  {
    hide Has, Masks;
    assert Arrive(m, []) == m;
  }

  lemma TakesFound(s: System, m: State, t: System, arrivals: seq<Byte>)
    requires Shows(s, m) && s.enabled && Along(s, t, arrivals) && PhaseInvariant(t) && t.phase.Found?
    ensures var i := t.phase.i;
      var taken := TakeInterrupt(Arrive(m, FromOn(arrivals, i)));
      && TakenIn(m, FromOn(arrivals, i)) == Some(i)
      && taken.ir == i && !taken.enabled && !t.enabled
      && forall j: Byte :: Has(Next(t, Reset).value.pending, j) <==> Has(Arrive(taken, Under(arrivals, i)).pending, j)
  {
    hide Has, Masks, SetBit, ClearBit, SetAll, FirstFrom, PushValue;
    var i := t.phase.i;
    var early, late := FromOn(arrivals, i), Under(arrivals, i);
    var ws := SetAll(m.pending, early);
    forall j: Byte ensures Has(ws, j) <==> Has(s.pending, j) || (j in arrivals && j >= i) {
      SetAllHas(m.pending, early, j);
    }
    assert Deliverable(ws, s.masks, i);
    forall j: Byte | j < i ensures !Deliverable(ws, s.masks, j) {
      assert !Deliverable(s.pending, s.masks, j);
    }
    FirstIs(ws, s.masks, i);
    TakenPending(m, early, i);
    forall j: Byte
      ensures Has(ClearBit(t.pending, i), j) <==> Has(SetAll(ClearBit(ws, i), late), j)
    {
      ClearBitHas(t.pending, i, j);
      ClearBitHas(ws, i, j);
      SetAllHas(ClearBit(ws, i), late, j);
    }
  }

  lemma FirstIs(pending: Bank, masks: Bank, i: Byte)
    requires Deliverable(pending, masks, i) && forall j: Byte :: j < i ==> !Deliverable(pending, masks, j)
    ensures Active(pending, masks) && First(pending, masks) == i
  {
    hide Deliverable;
  }

  lemma TakenPending(m: State, early: seq<Byte>, i: Byte)
    requires First(SetAll(m.pending, early), Masks(m.mem)) == i
    ensures var taken := TakeInterrupt(Arrive(m, early));
      taken.ir == i && !taken.enabled && taken.pending == ClearBit(SetAll(m.pending, early), i)
  {
    hide Masks, First, ClearBit, SetAll;
  }
}
