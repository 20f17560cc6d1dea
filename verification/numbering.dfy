/** The instruction table generator: how declarations get their codes, and that the shipped
    declarations give the codes the machine and the assembler use. */
module Numbering {
  import opened Words
  import opened Isa
  import opened Printing

  /** The parts of a declaration. Texts are effects, conditions, flags and comments. */
  datatype Pair = CodePair(code: nat) | ArgsPair(args: seq<Arg>) | TextPair
  datatype Part = Simple(p: Pair) | Group(ps: seq<Pair>)
  datatype Declaration = Declaration(name: string, parts: seq<Part>)

  datatype Entry = Entry(name: string, args: seq<Arg>, code: nat)

  /** Entries and the next free code. */
  datatype Numbered = Numbered(entries: seq<Entry>, next: nat)

  /** A nested argument group. A code below the next free one is ignored; a group without
      arguments stops the generator. */
  function NumberGroup(name: string, ps: seq<Pair>, next: nat, code: Option<nat>,
                       args: Option<seq<Arg>>): Option<Numbered>
    decreases |ps|
  {
    if ps == [] then
      if args.None? then None
      else Some(Numbered([Entry(name, args.value, if code.Some? then code.value else next)], next + 1))
    else
      match ps[0]
      case CodePair(v) =>
        if v < next then NumberGroup(name, ps[1..], next, code, args)
        else NumberGroup(name, ps[1..], v, Some(v), args)
      case ArgsPair(a) => NumberGroup(name, ps[1..], next, code, Some(a))
      case TextPair => NumberGroup(name, ps[1..], next, code, args)
  }

  /** A declaration: one entry, or one per group when it has groups. Arguments outside a group
      stop the generator. */
  function NumberParts(name: string, parts: seq<Part>, next: nat, code: Option<nat>, isAbstract: bool): Option<Numbered>
    decreases |parts|
  {
    if parts == [] then
      if isAbstract then Some(Numbered([], next))
      else Some(Numbered([Entry(name, [], if code.Some? then code.value else next)], next + 1))
    else
      match parts[0]
      case Group(ps) =>
        var g := NumberGroup(name, ps, next, None, None);
        if g.None? then None
        else
          var rest := NumberParts(name, parts[1..], g.value.next, code, true);
          if rest.None? then None else Some(Numbered(g.value.entries + rest.value.entries, rest.value.next))
      case Simple(CodePair(v)) =>
        if v < next then NumberParts(name, parts[1..], next, code, isAbstract)
        else NumberParts(name, parts[1..], v, Some(v), isAbstract)
      case Simple(ArgsPair(_)) => None
      case Simple(TextPair) => NumberParts(name, parts[1..], next, code, isAbstract)
  }

  function NumberAll(ds: seq<Declaration>, next: nat): Option<Numbered>
    decreases |ds|
  {
    if ds == [] then Some(Numbered([], next))
    else
      var first := NumberParts(ds[0].name, ds[0].parts, next, None, false);
      if first.None? then None
      else
        var rest := NumberAll(ds[1..], first.value.next);
        if rest.None? then None else Some(Numbered(first.value.entries + rest.value.entries, rest.value.next))
  }

  // ---------------------------------------------------------------- the generator

  class Generator {
    var nextCode: nat

    constructor Create()
      ensures nextCode == 0
    {
      nextCode := 0;
    }

    method ParseGroup(name: string, ps: seq<Pair>) returns (r: Option<Entry>)
      modifies this
      ensures var g := NumberGroup(name, ps, old(nextCode), None, None);
        g.Some? == r.Some? && (r.Some? ==> g.value == Numbered([r.value], nextCode))
    {
      var code: Option<nat> := None;
      var args: Option<seq<Arg>> := None;
      var k := 0;
      while k < |ps|
        invariant k <= |ps|
        invariant NumberGroup(name, ps, old(nextCode), None, None) == NumberGroup(name, ps[k..], nextCode, code, args)
      {
        assert ps[k..][1..] == ps[k + 1..];
        match ps[k] {
          case CodePair(v) =>
            if v >= nextCode {
              code := Some(v);
              nextCode := v;
            }
          case ArgsPair(a) => args := Some(a);
          case TextPair =>
        }
        k := k + 1;
      }
      if args.None? {
        return None;
      }
      r := Some(Entry(name, args.value, if code.Some? then code.value else nextCode));
      nextCode := nextCode + 1;
    }

    method ParseInstruction(d: Declaration) returns (r: Option<seq<Entry>>)
      modifies this
      ensures var n := NumberParts(d.name, d.parts, old(nextCode), None, false);
        n.Some? == r.Some? && (r.Some? ==> n.value == Numbered(r.value, nextCode))
    {
      var code: Option<nat> := None;
      var isAbstract := false;
      var entries: seq<Entry> := [];
      ghost var n := NumberParts(d.name, d.parts, nextCode, None, false);
      var k := 0;
      while k < |d.parts|
        invariant k <= |d.parts|
        invariant var m := NumberParts(d.name, d.parts[k..], nextCode, code, isAbstract);
          n.Some? == m.Some?
              && (m.Some? ==> n.value.entries == entries + m.value.entries && n.value.next == m.value.next)
      {
        assert d.parts[k..][1..] == d.parts[k + 1..];
        match d.parts[k] {
          case Group(ps) =>
            isAbstract := true;
            var e := ParseGroup(d.name, ps);
            if e.None? {
              return None;
            }
            entries := entries + [e.value];
          case Simple(CodePair(v)) =>
            if v >= nextCode {
              code := Some(v);
              nextCode := v;
            }
          case Simple(ArgsPair(_)) => return None;
          case Simple(TextPair) =>
        }
        k := k + 1;
      }
      if !isAbstract {
        entries := entries + [Entry(d.name, [], if code.Some? then code.value else nextCode)];
        nextCode := nextCode + 1;
      }
      return Some(entries);
    }

    method Parse(ds: seq<Declaration>) returns (r: Option<seq<Entry>>)
      modifies this
      ensures var n := NumberAll(ds, old(nextCode));
        n.Some? == r.Some? && (r.Some? ==> n.value == Numbered(r.value, nextCode))
    {
      var entries: seq<Entry> := [];
      ghost var n := NumberAll(ds, nextCode);
      var k := 0;
      while k < |ds|
        invariant k <= |ds|
        invariant var m := NumberAll(ds[k..], nextCode);
          n.Some? == m.Some?
              && (m.Some? ==> n.value.entries == entries + m.value.entries && n.value.next == m.value.next)
      {
        assert ds[k..][1..] == ds[k + 1..];
        var e := ParseInstruction(ds[k]);
        if e.None? {
          return None;
        }
        entries := entries + e.value;
        k := k + 1;
      }
      return Some(entries);
    }
  }

  // ---------------------------------------------------------------- codes increase

  /** Codes from lo on, strictly increasing, all below hi. */
  predicate Increases(es: seq<Entry>, lo: nat, hi: nat) {
    && lo <= hi
    && (forall i :: 0 <= i < |es| ==> lo <= es[i].code < hi)
    && (forall i, j :: 0 <= i < j < |es| ==> es[i].code < es[j].code)
  }

  lemma IncreasesJoin(es: seq<Entry>, fs: seq<Entry>, lo: nat, mid: nat, hi: nat)
    requires Increases(es, lo, mid) && Increases(fs, mid, hi)
    ensures Increases(es + fs, lo, hi)
  {
  }

  lemma {:induction false} GroupIncreases(name: string, ps: seq<Pair>, next: nat, code: Option<nat>,
                                          args: Option<seq<Arg>>)
    requires code.Some? ==> code.value == next
    ensures var g := NumberGroup(name, ps, next, code, args);
      g.Some? ==> |g.value.entries| == 1 && Increases(g.value.entries, next, g.value.next)
    decreases |ps|
  {
    if ps != [] {
      match ps[0]
      case CodePair(v) =>
        GroupIncreases(name, ps[1..], if v < next then next else v, if v < next then code else Some(v), args);
      case ArgsPair(a) => GroupIncreases(name, ps[1..], next, code, Some(a));
      case TextPair => GroupIncreases(name, ps[1..], next, code, args);
    }
  }

  lemma {:induction false} PartsIncrease(name: string, parts: seq<Part>, next: nat, code: Option<nat>, isAbstract: bool)
    requires !isAbstract && code.Some? ==> code.value == next
    ensures var n := NumberParts(name, parts, next, code, isAbstract);
      n.Some? ==> Increases(n.value.entries, next, n.value.next)
    decreases |parts|
  {
    if parts != [] {
      match parts[0] {
        case Group(ps) =>
          GroupIncreases(name, ps, next, None, None);
          var g := NumberGroup(name, ps, next, None, None);
          if g.Some? {
            PartsIncrease(name, parts[1..], g.value.next, code, true);
            var rest := NumberParts(name, parts[1..], g.value.next, code, true);
            if rest.Some? {
              IncreasesJoin(g.value.entries, rest.value.entries, next, g.value.next, rest.value.next);
            }
          }
        case Simple(CodePair(v)) =>
          PartsIncrease(name, parts[1..], if v < next then next else v, if v < next then code else Some(v), isAbstract);
        case Simple(ArgsPair(_)) =>
        case Simple(TextPair) => PartsIncrease(name, parts[1..], next, code, isAbstract);
      }
    }
  }

  /** Whatever is declared, with or without explicit codes and groups: the codes of the entries
      are strictly increasing. */
  lemma {:induction false} CodesIncrease(ds: seq<Declaration>, next: nat)
    ensures var n := NumberAll(ds, next);
      n.Some? ==> Increases(n.value.entries, next, n.value.next)
    decreases |ds|
  {
    if ds != [] {
      PartsIncrease(ds[0].name, ds[0].parts, next, None, false);
      var first := NumberParts(ds[0].name, ds[0].parts, next, None, false);
      if first.Some? {
        CodesIncrease(ds[1..], first.value.next);
        var rest := NumberAll(ds[1..], first.value.next);
        if rest.Some? {
          IncreasesJoin(first.value.entries, rest.value.entries, next, first.value.next, rest.value.next);
        }
      }
    }
  }

  /** The table by code, filled entry by entry; a later entry would replace an earlier one. */
  function Table(es: seq<Entry>): map<nat, Entry> {
    if es == [] then map[] else Table(es[..|es| - 1])[es[|es| - 1].code := es[|es| - 1]]
  }

  lemma {:induction false} TableHolds(es: seq<Entry>, lo: nat, hi: nat)
    requires Increases(es, lo, hi)
    ensures forall c :: c in Table(es) <==> exists i :: 0 <= i < |es| && es[i].code == c
    ensures forall i :: 0 <= i < |es| ==> es[i].code in Table(es) && Table(es)[es[i].code] == es[i]
  {
    if es != [] {
      var init := es[..|es| - 1];
      TableHolds(init, lo, hi);
      forall i | 0 <= i < |es| ensures es[i].code in Table(es) && Table(es)[es[i].code] == es[i] {
        if i < |es| - 1 {
          assert init[i] == es[i] && es[i].code < es[|es| - 1].code;
        }
      }
      forall c ensures c in Table(es) <==> exists i :: 0 <= i < |es| && es[i].code == c {
        if c in Table(init) {
          var i :| 0 <= i < |init| && init[i].code == c;
          assert es[i].code == c;
        }
      }
    }
  }

  /** No slot of the table is overwritten: looking an entry's code up gives the entry. */
  lemma LookupInverts(ds: seq<Declaration>, i: nat)
    requires NumberAll(ds, 0).Some? && i < |NumberAll(ds, 0).value.entries|
    ensures var es := NumberAll(ds, 0).value.entries;
      es[i].code in Table(es) && Table(es)[es[i].code] == es[i]
  {
    CodesIncrease(ds, 0);
    var n := NumberAll(ds, 0).value;
    TableHolds(n.entries, 0, n.next);
  }

  // ---------------------------------------------------------------- the shipped declarations

  /** One shipped declaration: its argument groups, its explicit code if it has one, and the
      operations it declares. */
  datatype Row = Row(name: string, argss: seq<seq<Arg>>, code: Option<nat>, ops: seq<Op>)

  const SHIPPED_BASICS: seq<Row> := [
    Row("NOP", [], Some(0), [Nop]),
    Row("HALT", [], None, [Halt]),
    Row("PANIC", [], None, [Panic]),
    Row("MOV", [[R, W], [R, R]], None, [Mov(Imm), Mov(Reg)])
  ]

  const SHIPPED_ARITHMETIC: seq<Row> := [
    Row("ADD", [[R, R], [R, W]], None, [Alu(Add, Reg), Alu(Add, Imm)]),
    Row("SUB", [[R, R], [R, W]], None, [Alu(Sub, Reg), Alu(Sub, Imm)]),
    Row("MUL", [[R, R], [R, W]], None, [Alu(Mul, Reg), Alu(Mul, Imm)])
  ]

  const SHIPPED_STEPS: seq<Row> := [
    Row("INC", [[R]], None, [Inc]),
    Row("DEC", [[R]], None, [Dec]),
    Row("AND", [[R, R], [R, W]], None, [Alu(Band, Reg), Alu(Band, Imm)])
  ]

  const SHIPPED_LOGIC: seq<Row> := [
    Row("OR", [[R, R], [R, W]], None, [Alu(Bor, Reg), Alu(Bor, Imm)]),
    Row("XOR", [[R, R], [R, W]], None, [Alu(Bxor, Reg), Alu(Bxor, Imm)]),
    Row("CMP", [[R, R], [R, W]], None, [Cmp(Reg), Cmp(Imm)])
  ]

  const SHIPPED_PUSHES: seq<Row> := [
    Row("PUSH", [[R], [R, R], [R, R, R], [W]], None, [PushR, PushRR, PushRRR, PushW]),
    Row("PUSHA", [], None, [Pusha])
  ]

  const SHIPPED_POPS: seq<Row> := [
    Row("POP", [[R], [R, R], [R, R, R]], None, [PopR, PopRR, PopRRR]),
    Row("POPA", [], None, [Popa])
  ]

  const SHIPPED_JUMPS: seq<Row> := [
    Row("JEQ", [[S], [A]], None, [Jump(IfZero, Segment), Jump(IfZero, Absolute)]),
    Row("JNE", [[S], [A]], None, [Jump(IfNotZero, Segment), Jump(IfNotZero, Absolute)]),
    Row("J", [[S], [A]], None, [Jump(Always, Segment), Jump(Always, Absolute)])
  ]

  const SHIPPED_CALLS: seq<Row> := [
    Row("CALL", [[S], [A], [R]], None, [Call(Segment), Call(Absolute), CallR]),
    Row("RET", [], None, [Ret]),
    Row("INT", [[B]], None, [Int]),
    Row("IRET", [], None, [Iret])
  ]

  const SHIPPED_ACCESS: seq<Row> := [
    Row("STOR", [[R, R], [R, W]], None, [Stor(Reg), Stor(Imm)]),
    Row("LOAD", [[R, R], [R, R, W], [R, W]], None, [LoadRR, LoadRRW, LoadRW])
  ]

  const SHIPPED_INTERRUPTS: seq<Row> := [
    Row("MI", [[B]], None, [Mi]),
    Row("UMI", [[B]], None, [Umi]),
    Row("IND", [], None, [Ind]),
    Row("INE", [], None, [Ine]),
    Row("WFI", [], None, [Wfi])
  ]

  const SHIPPED_EXTRAS: seq<Row> := [
    Row("XBM", [], Some(240), [Xbm]),
    Row("XDBG", [], None, [Xdbg]),
    Row("XPSE", [], None, [Xpse]),
    Row("XPSD", [], None, [Xpsd]),
    Row("XBRK", [], None, [Xbrk])
  ]

  const SHIPPED: seq<Row> :=
    SHIPPED_BASICS + SHIPPED_ARITHMETIC + SHIPPED_STEPS + SHIPPED_LOGIC + SHIPPED_PUSHES
    + SHIPPED_POPS + SHIPPED_JUMPS + SHIPPED_CALLS + SHIPPED_ACCESS + SHIPPED_INTERRUPTS + SHIPPED_EXTRAS

  function Groups(argss: seq<seq<Arg>>): seq<Part> {
    if argss == [] then [] else [Group([ArgsPair(argss[0])])] + Groups(argss[1..])
  }

  /** The declaration as the generator reads it, without its texts. */
  function DeclarationOf(row: Row): Declaration {
    Declaration(row.name, (if row.code.Some? then [Simple(CodePair(row.code.value))] else []) + Groups(row.argss))
  }

  function DeclarationsOf(rows: seq<Row>): seq<Declaration> {
    if rows == [] then [] else [DeclarationOf(rows[0])] + DeclarationsOf(rows[1..])
  }

  /** What the table should say of an operation. */
  function EntryOf(op: Op): Entry {
    Entry(MnemonicOf(op), Args(op), Code(op))
  }

  function EntriesOf(ops: seq<Op>): seq<Entry> {
    if ops == [] then [] else [EntryOf(ops[0])] + EntriesOf(ops[1..])
  }

  function AllEntries(rows: seq<Row>): seq<Entry> {
    if rows == [] then [] else EntriesOf(rows[0].ops) + AllEntries(rows[1..])
  }

  function FirstCode(row: Row): nat
    requires |row.ops| > 0
  {
    EntryOf(row.ops[0]).code
  }

  /** The operations of a row have its name, its argument groups, and consecutive codes. */
  predicate RowGood(row: Row) {
    && |row.ops| > 0 && |row.ops| == (if row.argss == [] then 1 else |row.argss|)
    && (forall j :: 0 <= j < |row.ops| ==>
          EntryOf(row.ops[j]) == Entry(row.name, if row.argss == [] then [] else row.argss[j], FirstCode(row) + j))
    && (row.code.Some? ==> row.code.value == FirstCode(row))
  }

  /** Numbering row that starts at the next free code, or at an explicit one beyond it. */
  predicate StartsAt(row: Row, next: nat) {
    |row.ops| > 0 && (if row.code.Some? then next <= FirstCode(row) else next == FirstCode(row))
  }

  lemma {:induction false} GroupsNumber(name: string, argss: seq<seq<Arg>>, ops: seq<Op>, next: nat,
                                        code: Option<nat>, isAbstract: bool)
    requires |ops| == |argss| && (argss == [] ==> isAbstract)
    requires forall j :: 0 <= j < |ops| ==> EntryOf(ops[j]) == Entry(name, argss[j], next + j)
    ensures NumberParts(name, Groups(argss), next, code, isAbstract) == Some(Numbered(EntriesOf(ops), next + |ops|))
    decreases |argss|
  {
    hide EntryOf;
    if argss != [] {
      GroupsNumber(name, argss[1..], ops[1..], next + 1, code, true);
      var parts := Groups(argss);
      assert parts[1..] == Groups(argss[1..]);
      assert NumberGroup(name, [ArgsPair(argss[0])], next, None, None)
              == NumberGroup(name, [], next, None, Some(argss[0]));
      assert EntryOf(ops[0]) == Entry(name, argss[0], next + 0);
    }
  }

  lemma RowNumbers(row: Row, next: nat)
    requires RowGood(row) && StartsAt(row, next)
    ensures var d := DeclarationOf(row);
      NumberParts(d.name, d.parts, next, None, false) == Some(Numbered(EntriesOf(row.ops), FirstCode(row) + |row.ops|))
  {
    hide EntryOf;
    var c := FirstCode(row);
    var code: Option<nat> := if row.code.Some? then Some(c) else None;
    var d := DeclarationOf(row);
    if row.code.Some? {
      assert d.parts[1..] == Groups(row.argss);
    } else {
      assert d.parts == Groups(row.argss);
    }
    assert NumberParts(d.name, d.parts, next, None, false) == NumberParts(row.name, Groups(row.argss), c, code, false);
    if row.argss != [] {
      GroupsNumber(row.name, row.argss, row.ops, c, code, false);
    } else {
      assert EntryOf(row.ops[0]) == Entry(row.name, [], c + 0);
      assert EntriesOf(row.ops) == [EntryOf(row.ops[0])];
    }
  }

  /** The first code after the first k rows. */
  function EndOf(rows: seq<Row>, k: nat, next: nat): nat
    requires k <= |rows| && forall j :: 0 <= j < |rows| ==> |rows[j].ops| > 0
  {
    if k == 0 then next else FirstCode(rows[k - 1]) + |rows[k - 1].ops|
  }

  /** Every row is good and starts where the one before ends, or at its explicit code. */
  predicate RowsGood(rows: seq<Row>, next: nat) {
    && (forall k :: 0 <= k < |rows| ==> RowGood(rows[k]))
    && (forall k :: 0 <= k < |rows| ==> StartsAt(rows[k], EndOf(rows, k, next)))
  }

  lemma RowsTail(rows: seq<Row>, next: nat)
    requires RowsGood(rows, next) && rows != []
    ensures RowGood(rows[0]) && StartsAt(rows[0], next)
    ensures RowsGood(rows[1..], FirstCode(rows[0]) + |rows[0].ops|)
    ensures EndOf(rows[1..], |rows| - 1, FirstCode(rows[0]) + |rows[0].ops|) == EndOf(rows, |rows|, next)
  {
    hide EntryOf;
    assert RowGood(rows[0]) && StartsAt(rows[0], EndOf(rows, 0, next));
    var mid := FirstCode(rows[0]) + |rows[0].ops|;
    forall k | 0 <= k < |rows[1..]| ensures StartsAt(rows[1..][k], EndOf(rows[1..], k, mid)) {
      assert StartsAt(rows[k + 1], EndOf(rows, k + 1, next));
    }
  }

  lemma {:induction false} RowsNumber(rows: seq<Row>, next: nat)
    requires RowsGood(rows, next)
    ensures NumberAll(DeclarationsOf(rows), next) == Some(Numbered(AllEntries(rows), EndOf(rows, |rows|, next)))
    decreases |rows|
  {
    hide EntryOf, DeclarationOf, NumberParts, EntriesOf;
    if rows != [] {
      RowsTail(rows, next);
      RowNumbers(rows[0], next);
      RowsNumber(rows[1..], FirstCode(rows[0]) + |rows[0].ops|);
      assert DeclarationsOf(rows)[1..] == DeclarationsOf(rows[1..]);
    }
  }

  lemma {:induction false} NumberAppend(ds: seq<Declaration>, es: seq<Declaration>, next: nat)
    requires NumberAll(ds, next).Some?
    ensures var a := NumberAll(ds, next).value;
      var b := NumberAll(es, a.next);
      NumberAll(ds + es, next) == if b.None? then None else Some(Numbered(a.entries + b.value.entries, b.value.next))
    decreases |ds|
  {
    hide NumberParts;
    if ds == [] {
      assert ds + es == es;
      var b := NumberAll(es, next);
      assert b.Some? ==> [] + b.value.entries == b.value.entries;
    } else {
      NumberAppend(ds[1..], es, NumberParts(ds[0].name, ds[0].parts, next, None, false).value.next);
      assert (ds + es)[1..] == ds[1..] + es;
      var first := NumberParts(ds[0].name, ds[0].parts, next, None, false).value;
      var rest := NumberAll(ds[1..], first.next).value;
      var b := NumberAll(es, rest.next);
      if b.Some? {
        assert first.entries + rest.entries + b.value.entries == first.entries + (rest.entries + b.value.entries);
      }
    }
  }

  lemma {:induction false} DeclarationsAppend(rows: seq<Row>, more: seq<Row>)
    ensures DeclarationsOf(rows + more) == DeclarationsOf(rows) + DeclarationsOf(more)
    decreases |rows|
  {
    hide DeclarationOf;
    if rows == [] {
      assert rows + more == more;
    } else {
      DeclarationsAppend(rows[1..], more);
      assert (rows + more)[1..] == rows[1..] + more;
    }
  }

  lemma {:induction false} EntriesAppend(rows: seq<Row>, more: seq<Row>)
    ensures AllEntries(rows + more) == AllEntries(rows) + AllEntries(more)
    decreases |rows|
  {
    hide EntriesOf;
    if rows == [] {
      assert rows + more == more;
    } else {
      EntriesAppend(rows[1..], more);
      assert (rows + more)[1..] == rows[1..] + more;
    }
  }

  lemma BasicsEntries()
    ensures EntryOf(Nop) == Entry("NOP", [], 0) && EntryOf(Halt) == Entry("HALT", [], 1)
    ensures EntryOf(Panic) == Entry("PANIC", [], 2) && EntryOf(Mov(Imm)) == Entry("MOV", [R, W], 3)
    ensures EntryOf(Mov(Reg)) == Entry("MOV", [R, R], 4)
  {
  }

  lemma BasicsRows()
    ensures NumberAll(DeclarationsOf(SHIPPED_BASICS), 0) == Some(Numbered(AllEntries(SHIPPED_BASICS), 5))
  {
    hide EntryOf, NumberAll, AllEntries, DeclarationsOf;
    BasicsEntries();
    RowsNumber(SHIPPED_BASICS, 0);
  }

  lemma ArithmeticEntries()
    ensures EntryOf(Alu(Add, Reg)) == Entry("ADD", [R, R], 5) && EntryOf(Alu(Add, Imm)) == Entry("ADD", [R, W], 6)
    ensures EntryOf(Alu(Sub, Reg)) == Entry("SUB", [R, R], 7) && EntryOf(Alu(Sub, Imm)) == Entry("SUB", [R, W], 8)
    ensures EntryOf(Alu(Mul, Reg)) == Entry("MUL", [R, R], 9) && EntryOf(Alu(Mul, Imm)) == Entry("MUL", [R, W], 10)
  {
  }

  lemma ArithmeticRows()
    ensures NumberAll(DeclarationsOf(SHIPPED_ARITHMETIC), 5) == Some(Numbered(AllEntries(SHIPPED_ARITHMETIC), 11))
  {
    hide EntryOf, NumberAll, AllEntries, DeclarationsOf;
    ArithmeticEntries();
    RowsNumber(SHIPPED_ARITHMETIC, 5);
  }

  lemma StepsEntries()
    ensures EntryOf(Inc) == Entry("INC", [R], 11) && EntryOf(Dec) == Entry("DEC", [R], 12)
    ensures EntryOf(Alu(Band, Reg)) == Entry("AND", [R, R], 13) && EntryOf(Alu(Band, Imm)) == Entry("AND", [R, W], 14)
  {
  }

  lemma StepsRows()
    ensures NumberAll(DeclarationsOf(SHIPPED_STEPS), 11) == Some(Numbered(AllEntries(SHIPPED_STEPS), 15))
  {
    hide EntryOf, NumberAll, AllEntries, DeclarationsOf;
    StepsEntries();
    RowsNumber(SHIPPED_STEPS, 11);
  }

  lemma LogicEntries()
    ensures EntryOf(Alu(Bor, Reg)) == Entry("OR", [R, R], 15) && EntryOf(Alu(Bor, Imm)) == Entry("OR", [R, W], 16)
    ensures EntryOf(Alu(Bxor, Reg)) == Entry("XOR", [R, R], 17) && EntryOf(Alu(Bxor, Imm)) == Entry("XOR", [R, W], 18)
    ensures EntryOf(Cmp(Reg)) == Entry("CMP", [R, R], 19) && EntryOf(Cmp(Imm)) == Entry("CMP", [R, W], 20)
  {
  }

  lemma LogicRows()
    ensures NumberAll(DeclarationsOf(SHIPPED_LOGIC), 15) == Some(Numbered(AllEntries(SHIPPED_LOGIC), 21))
  {
    hide EntryOf, NumberAll, AllEntries, DeclarationsOf;
    LogicEntries();
    RowsNumber(SHIPPED_LOGIC, 15);
  }

  lemma PushEntries()
    ensures EntryOf(PushR) == Entry("PUSH", [R], 21) && EntryOf(PushRR) == Entry("PUSH", [R, R], 22)
    ensures EntryOf(PushRRR) == Entry("PUSH", [R, R, R], 23) && EntryOf(PushW) == Entry("PUSH", [W], 24)
    ensures EntryOf(Pusha) == Entry("PUSHA", [], 25)
  {
  }

  lemma PopEntries()
    ensures EntryOf(PopR) == Entry("POP", [R], 26)
    ensures EntryOf(PopRR) == Entry("POP", [R, R], 27) && EntryOf(PopRRR) == Entry("POP", [R, R, R], 28)
    ensures EntryOf(Popa) == Entry("POPA", [], 29)
  {
  }

  lemma PushesRows()
    ensures NumberAll(DeclarationsOf(SHIPPED_PUSHES), 21) == Some(Numbered(AllEntries(SHIPPED_PUSHES), 26))
  {
    hide EntryOf, NumberAll, AllEntries, DeclarationsOf;
    PushEntries();
    RowsNumber(SHIPPED_PUSHES, 21);
  }

  lemma PopsRows()
    ensures NumberAll(DeclarationsOf(SHIPPED_POPS), 26) == Some(Numbered(AllEntries(SHIPPED_POPS), 30))
  {
    hide EntryOf, NumberAll, AllEntries, DeclarationsOf;
    PopEntries();
    RowsNumber(SHIPPED_POPS, 26);
  }

  lemma JumpsEntries()
    ensures EntryOf(Jump(IfZero, Segment)) == Entry("JEQ", [S], 30)
            && EntryOf(Jump(IfZero, Absolute)) == Entry("JEQ", [A], 31)
    ensures EntryOf(Jump(IfNotZero, Segment)) == Entry("JNE", [S], 32)
            && EntryOf(Jump(IfNotZero, Absolute)) == Entry("JNE", [A], 33)
    ensures EntryOf(Jump(Always, Segment)) == Entry("J", [S], 34)
            && EntryOf(Jump(Always, Absolute)) == Entry("J", [A], 35)
  {
  }

  lemma JumpsRows()
    ensures NumberAll(DeclarationsOf(SHIPPED_JUMPS), 30) == Some(Numbered(AllEntries(SHIPPED_JUMPS), 36))
  {
    hide EntryOf, NumberAll, AllEntries, DeclarationsOf;
    JumpsEntries();
    RowsNumber(SHIPPED_JUMPS, 30);
  }

  lemma CallsEntries()
    ensures EntryOf(Call(Segment)) == Entry("CALL", [S], 36) && EntryOf(Call(Absolute)) == Entry("CALL", [A], 37)
    ensures EntryOf(CallR) == Entry("CALL", [R], 38)
  {
  }

  lemma ReturnEntries()
    ensures EntryOf(Ret) == Entry("RET", [], 39)
    ensures EntryOf(Int) == Entry("INT", [B], 40) && EntryOf(Iret) == Entry("IRET", [], 41)
  {
  }

  lemma CallsRows()
    ensures NumberAll(DeclarationsOf(SHIPPED_CALLS), 36) == Some(Numbered(AllEntries(SHIPPED_CALLS), 42))
  {
    hide EntryOf, NumberAll, AllEntries, DeclarationsOf;
    CallsEntries();
    ReturnEntries();
    RowsNumber(SHIPPED_CALLS, 36);
  }

  lemma AccessEntries()
    ensures EntryOf(Stor(Reg)) == Entry("STOR", [R, R], 42) && EntryOf(Stor(Imm)) == Entry("STOR", [R, W], 43)
    ensures EntryOf(LoadRR) == Entry("LOAD", [R, R], 44) && EntryOf(LoadRRW) == Entry("LOAD", [R, R, W], 45)
    ensures EntryOf(LoadRW) == Entry("LOAD", [R, W], 46)
  {
  }

  lemma AccessRows()
    ensures NumberAll(DeclarationsOf(SHIPPED_ACCESS), 42) == Some(Numbered(AllEntries(SHIPPED_ACCESS), 47))
  {
    hide EntryOf, NumberAll, AllEntries, DeclarationsOf;
    AccessEntries();
    RowsNumber(SHIPPED_ACCESS, 42);
  }

  lemma MaskEntries()
    ensures EntryOf(Mi) == Entry("MI", [B], 47) && EntryOf(Umi) == Entry("UMI", [B], 48)
  {
  }

  lemma InterruptsEntries()
    ensures EntryOf(Ind) == Entry("IND", [], 49) && EntryOf(Ine) == Entry("INE", [], 50)
    ensures EntryOf(Wfi) == Entry("WFI", [], 51)
  {
  }

  lemma InterruptsRows()
    ensures NumberAll(DeclarationsOf(SHIPPED_INTERRUPTS), 47) == Some(Numbered(AllEntries(SHIPPED_INTERRUPTS), 52))
  {
    hide EntryOf, NumberAll, AllEntries, DeclarationsOf;
    MaskEntries();
    InterruptsEntries();
    RowsNumber(SHIPPED_INTERRUPTS, 47);
  }

  lemma FirstExtrasEntries()
    ensures EntryOf(Xbm) == Entry("XBM", [], 240) && EntryOf(Xdbg) == Entry("XDBG", [], 241)
  {
  }

  lemma ExtrasEntries()
    ensures EntryOf(Xpse) == Entry("XPSE", [], 242) && EntryOf(Xpsd) == Entry("XPSD", [], 243)
    ensures EntryOf(Xbrk) == Entry("XBRK", [], 244)
  {
  }

  lemma ExtrasRows()
    ensures NumberAll(DeclarationsOf(SHIPPED_EXTRAS), 52) == Some(Numbered(AllEntries(SHIPPED_EXTRAS), 245))
  {
    hide EntryOf, NumberAll, AllEntries, DeclarationsOf;
    FirstExtrasEntries();
    ExtrasEntries();
    RowsNumber(SHIPPED_EXTRAS, 52);
  }

  lemma Extend(rows: seq<Row>, more: seq<Row>, mid: nat, end: nat)
    requires NumberAll(DeclarationsOf(rows), 0) == Some(Numbered(AllEntries(rows), mid))
    requires NumberAll(DeclarationsOf(more), mid) == Some(Numbered(AllEntries(more), end))
    ensures NumberAll(DeclarationsOf(rows + more), 0) == Some(Numbered(AllEntries(rows + more), end))
  {
    hide NumberAll;
    DeclarationsAppend(rows, more);
    EntriesAppend(rows, more);
    NumberAppend(DeclarationsOf(rows), DeclarationsOf(more), 0);
  }

  /** The generator numbers the shipped declarations exactly as the machine decodes and the
      assembler encodes: every entry has the mnemonic, the arguments and the code of its
      operation. */
  lemma ShippedTable()
    ensures NumberAll(DeclarationsOf(SHIPPED), 0) == Some(Numbered(AllEntries(SHIPPED), 245))
  {
    hide NumberAll, AllEntries, DeclarationsOf;
    BasicsRows();
    ArithmeticRows();
    StepsRows();
    LogicRows();
    PushesRows();
    PopsRows();
    JumpsRows();
    CallsRows();
    AccessRows();
    InterruptsRows();
    ExtrasRows();
    var a := SHIPPED_BASICS;
    Extend(a, SHIPPED_ARITHMETIC, 5, 11);
    var b := a + SHIPPED_ARITHMETIC;
    Extend(b, SHIPPED_STEPS, 11, 15);
    var c := b + SHIPPED_STEPS;
    Extend(c, SHIPPED_LOGIC, 15, 21);
    var d := c + SHIPPED_LOGIC;
    Extend(d, SHIPPED_PUSHES, 21, 26);
    var pushed := d + SHIPPED_PUSHES;
    Extend(pushed, SHIPPED_POPS, 26, 30);
    var e := pushed + SHIPPED_POPS;
    Extend(e, SHIPPED_JUMPS, 30, 36);
    var f := e + SHIPPED_JUMPS;
    Extend(f, SHIPPED_CALLS, 36, 42);
    var g := f + SHIPPED_CALLS;
    Extend(g, SHIPPED_ACCESS, 42, 47);
    var h := g + SHIPPED_ACCESS;
    Extend(h, SHIPPED_INTERRUPTS, 47, 52);
    var i := h + SHIPPED_INTERRUPTS;
    Extend(i, SHIPPED_EXTRAS, 52, 245);
  }
}
