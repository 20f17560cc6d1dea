/** Whole histories of a bus: attachments, stores and registrations in any order. */
module BusRuns {
  import opened Words
  import opened FlatMemory
  import opened Zones

  datatype Event = Attach(b: Block) | Store(a: Word, v: Word) | Register(a: Word, c: Condition)

  /** Attached zones are free and start without notifications; a registration outside every
      zone aborts. */
  predicate Allowed(bs: seq<Block>, e: Event) {
    match e
    case Attach(b) => Free(bs, b) && b.notes == []
    case Store(_, _) => true
    case Register(a, _) => Find(bs, a) < |bs|
  }

  function Apply(bs: seq<Block>, e: Event): (cs: seq<Block>)
    requires Tidy(bs) && Allowed(bs, e)
    ensures Tidy(cs)
  {
    match e
    case Attach(b) =>
      AttachTidy(bs, b);
      Attached(bs, b)
    case Store(a, v) =>
      StoreTidy(bs, a, v);
      Written(bs, a, v)
    case Register(a, c) =>
      RegisterTidy(bs, a, c);
      Registered(bs, a, c)
  }

  /** cs has the zones of bs, with other words or notifications. */
  predicate SameZones(bs: seq<Block>, cs: seq<Block>) {
    && |bs| == |cs|
    && forall k :: 0 <= k < |bs| ==>
        cs[k].from == bs[k].from && cs[k].size == bs[k].size && |cs[k].words| == |bs[k].words|
  }

  lemma SameZonesTidy(bs: seq<Block>, cs: seq<Block>)
    requires Tidy(bs) && SameZones(bs, cs)
    ensures Tidy(cs)
  {
    hide Fits, WellSized;
    forall k | 0 <= k < |cs| ensures WellSized(cs[k]) && Fits(cs[k]) {
      FitsSame(bs[k], cs[k]);
    }
    forall i, j | 0 <= i < j < |cs| ensures !Overlap(cs[i], cs[j]) {
      assert !Overlap(bs[i], bs[j]);
    }
  }

  lemma FitsSame(b: Block, c: Block)
    requires b.from == c.from && b.size == c.size && |b.words| == |c.words|
    ensures WellSized(b) == WellSized(c) && Fits(b) == Fits(c)
  {
  }

  lemma WrittenZones(bs: seq<Block>, a: Word, v: Word)
    requires AllWellSized(bs)
    ensures SameZones(bs, Written(bs, a, v))
  {
    OkIndex(bs, a);
  }

  lemma StoreTidy(bs: seq<Block>, a: Word, v: Word)
    requires Tidy(bs)
    ensures Tidy(Written(bs, a, v))
  {
    hide Written, SameZones;
    WrittenZones(bs, a, v);
    SameZonesTidy(bs, Written(bs, a, v));
  }

  lemma RegisterTidy(bs: seq<Block>, a: Word, c: Condition)
    requires Tidy(bs)
    ensures Tidy(Registered(bs, a, c))
  {
    SameZonesTidy(bs, Registered(bs, a, c));
  }

  /** The zones after a history, or None when it is not one the machine survives. */
  function History(es: seq<Event>): (r: Option<seq<Block>>)
    ensures r.Some? ==> Tidy(r.value)
    decreases |es|
  {
    if es == [] then Some([])
    else
      var r := History(es[..|es| - 1]);
      if r.None? || !Allowed(r.value, es[|es| - 1]) then None
      else Some(Apply(r.value, es[|es| - 1]))
  }

  // ---------------------------------------------------------------- refinement of a flat memory

  ghost function FlatApply(f: Flat, e: Event): Flat
    requires e.Attach? ==> WellSized(e.b)
  {
    match e
    case Attach(b) => Join(f, FlatOne(b))
    case Store(a, v) => if Writable(f, a) then Put(f, a, v) else f
    case Register(_, _) => f
  }

  ghost function FlatHistory(es: seq<Event>): Flat
    requires History(es).Some?
    decreases |es|
  {
    if es == [] then Flat(map[], {}) else FlatApply(FlatHistory(es[..|es| - 1]), es[|es| - 1])
  }

  /** b and c are the same zone with the same contents; their notifications may differ. */
  predicate SameButNotes(b: Block, c: Block) {
    b.from == c.from && b.size == c.size && b.writable == c.writable && b.words == c.words
  }

  lemma RegisteredFind(bs: seq<Block>, a: Word, c: Condition, x: Word)
    requires AllWellSized(bs)
    ensures var cs := Registered(bs, a, c);
      && AllWellSized(cs) && Find(cs, x) == Find(bs, x) && |cs| == |bs|
      && (forall k :: 0 <= k < |bs| ==> SameButNotes(bs[k], cs[k]))
  {
    var cs := Registered(bs, a, c);
    assert forall k :: 0 <= k < |bs| ==> SameButNotes(bs[k], cs[k]);
    assert forall k :: 0 <= k < |bs| ==> (InZone(cs[k], x) <==> InZone(bs[k], x));
  }

  lemma RegisterIsFlat(bs: seq<Block>, a: Word, c: Condition)
    requires AllWellSized(bs)
    ensures AllWellSized(Registered(bs, a, c)) && FlatOf(Registered(bs, a, c)) == FlatOf(bs)
  {
    hide Find, Registered, GetAccess;
    RegisteredFind(bs, a, c, 0);
    var cs := Registered(bs, a, c);
    forall x: Word
      ensures ReadOutcome(cs, x) == ReadOutcome(bs, x)
      ensures ReadOutcome(bs, x) == BusOk ==> ReadValue(cs, x) == ReadValue(bs, x)
      ensures Find(cs, x) == Find(bs, x)
    {
      RegisteredFind(bs, a, c, x);
      FindBound(bs, x);
    }
    FlatSame(bs, cs);
  }

  lemma FlatSame(bs: seq<Block>, cs: seq<Block>)
    requires AllWellSized(bs) && AllWellSized(cs) && |bs| == |cs|
    requires forall k :: 0 <= k < |bs| ==> SameButNotes(bs[k], cs[k])
    requires forall x: Word :: ReadOutcome(cs, x) == ReadOutcome(bs, x) && Find(cs, x) == Find(bs, x)
    requires forall x: Word :: ReadOutcome(bs, x) == BusOk ==> ReadValue(cs, x) == ReadValue(bs, x)
    ensures FlatOf(cs) == FlatOf(bs)
  {
    hide Find, ReadOutcome, ReadValue, WellSized;
    assert FlatOf(cs).cells == FlatOf(bs).cells;
    assert FlatOf(cs).readOnly == FlatOf(bs).readOnly;
  }

  /** Over every history of free attachments, stores and registrations, the bus is the flat
      memory with the same history. */
  lemma {:induction false} BusRefinesFlat(es: seq<Event>)
    requires History(es).Some?
    ensures FlatOf(History(es).value) == FlatHistory(es)
    decreases |es|
  {
    hide FlatOf, Written, Attached, Registered, Find, Free, Join, FlatOne, Tidy;
    if es == [] {
      Empty();
    } else {
      BusRefinesFlat(es[..|es| - 1]);
      var bs := History(es[..|es| - 1]).value;
      TidyIsSound(bs);
      match es[|es| - 1]
      case Attach(b) => AttachIsJoin(bs, b);
      case Store(a, v) => WriteIsPut(bs, a, v);
      case Register(a, c) => RegisterIsFlat(bs, a, c);
    }
  }

  lemma Empty()
    ensures FlatOf([]) == Flat(map[], {})
  {
  }

  /** A word not stored to keeps its value, whatever is attached or stored elsewhere; so a read
      gives the last word stored at its address, or the word the zone came with. */
  lemma {:induction false} KeepsWord(es: seq<Event>, k: nat, a: Word)
    requires k <= |es| && History(es).Some?
    requires forall j :: k <= j < |es| ==> !(es[j].Store? && es[j].a == a)
    ensures History(es[..k]).Some?
    ensures a in FlatOf(History(es[..k]).value).cells ==>
              a in FlatOf(History(es).value).cells
                  && FlatOf(History(es).value).cells[a] == FlatOf(History(es[..k]).value).cells[a]
    decreases |es|
  {
    hide FlatOf, Written, Attached, Registered, Find, Free, FlatOne, Tidy;
    if k == |es| {
      assert es[..k] == es;
    } else {
      var init := es[..|es| - 1];
      assert init[..k] == es[..k];
      KeepsWord(init, k, a);
      var bs := History(init).value;
      TidyIsSound(bs);
      match es[|es| - 1]
      case Attach(b) => AttachIsJoin(bs, b);
      case Store(x, v) => WriteIsPut(bs, x, v);
      case Register(x, c) => RegisterIsFlat(bs, x, c);
    }
  }

  /** A read returns the last word stored at its address. */
  lemma ReadsLastStore(es: seq<Event>, k: nat, a: Word, v: Word)
    requires k < |es| && History(es).Some? && es[k] == Store(a, v)
    requires forall j :: k < j < |es| ==> !(es[j].Store? && es[j].a == a)
    requires History(es[..k]).Some? && Writable(FlatOf(History(es[..k]).value), a)
    ensures ReadOutcome(History(es).value, a) == BusOk && ReadValue(History(es).value, a) == v
  {
    hide Written, Find, Tidy, ReadOutcome, ReadValue;
    KeepsWord(es, k + 1, a);
    assert es[..k + 1][..k] == es[..k];
    var bs := History(es[..k]).value;
    TidyIsSound(bs);
    WriteIsPut(bs, a, v);
    TidyIsSound(History(es).value);
  }

  // ---------------------------------------------------------------- notifications

  /** The conditions registered for a, in the order of registration. */
  function Conditions(es: seq<Event>, a: Word): seq<Condition>
    decreases |es|
  {
    if es == [] then []
    else
      var e := es[|es| - 1];
      Conditions(es[..|es| - 1], a) + (if e.Register? && e.a == a then [e.c] else [])
  }

  lemma NoSignal(a: Word)
    ensures Signals([], a) == []
  {
  }

  lemma AttachSignals(bs: seq<Block>, b: Block, a: Word)
    requires Tidy(bs) && Free(bs, b) && b.notes == []
    ensures SignalsAt(Attached(bs, b), a) == SignalsAt(bs, a)
  {
    hide Attached, SpotFrom, Find, Tidy, Free, Holds, Signals;
    AttachFind(bs, b, a);
    Insertion(bs, b);
    FindBound(bs, a);
    NoSignal(a);
  }

  lemma StoreSignals(bs: seq<Block>, x: Word, v: Word, a: Word)
    requires AllWellSized(bs)
    ensures SignalsAt(Written(bs, x, v), a) == SignalsAt(bs, a)
  {
    hide Written, Find;
    FindBound(bs, a);
    WrittenFind(bs, x, v, a);
  }

  lemma RegisterSignals(bs: seq<Block>, x: Word, c: Condition, a: Word)
    requires AllWellSized(bs) && Find(bs, x) < |bs|
    ensures SignalsAt(Registered(bs, x, c), a) == SignalsAt(bs, a) + (if x == a then [c] else [])
  {
    hide Find;
    FindBound(bs, a);
    RegisteredFind(bs, x, c, a);
    SignalsAppend(bs[Find(bs, x)].notes, Note(x, c), a);
  }

  /** Over every history, a successful write to a signals each condition registered for a, once
      per registration and in order, and no other: attaching zones loses no registration. */
  lemma {:induction false} SignalsAreRegistrations(es: seq<Event>, a: Word)
    requires History(es).Some?
    ensures SignalsAt(History(es).value, a) == Conditions(es, a)
    decreases |es|
  {
    hide Written, Attached, Registered, Find, Free, Tidy, SignalsAt;
    if es == [] {
      assert SignalsAt([], a) == [] by {
        NoSignals(a);
      }
    } else {
      SignalsAreRegistrations(es[..|es| - 1], a);
      var bs := History(es[..|es| - 1]).value;
      TidyIsSound(bs);
      match es[|es| - 1]
      case Attach(b) => AttachSignals(bs, b, a);
      case Store(x, v) => StoreSignals(bs, x, v, a);
      case Register(x, c) => RegisterSignals(bs, x, c, a);
    }
  }

  lemma NoSignals(a: Word)
    ensures SignalsAt([], a) == []
  {
  }
}
