/** Lines the printer does not write: variables in place of numbers, bytes that are too large, and
    what a section does. */
module Lines {
  import opened Words
  import opened Isa
  import opened Assembler
  import opened Grammar
  import opened Parsers
  import opened Printing

  // ---------------------------------------------------------------- byte operands

  /** The line of an operation with a byte operand, which may be a literal or a variable. */
  predicate ByteLine(ts: seq<Token>, w: Word, symbols: Symbols) {
    |ts| >= 2 && ts[1] == Eol && (ts[0] == Integer(w) || (ts[0].Variable? && ValueOf(ts[0], symbols) == Some(w)))
  }

  /** INT, MI, UMI and XBM accept exactly the numbers up to 255 and keep them as they are; the line is
      taken in any case. */
  lemma ByteOperand(op: Op, ts: seq<Token>, w: Word, symbols: Symbols)
    requires (op == Int || op == Mi || op == Umi || op == Xbm) && ByteLine(ts, w, symbols)
    ensures NextStep([Mnemonic(MnemonicOf(op))] + ts, symbols)
         == Step(if w <= 255 then Found(Ins(IB(op, w))) else Failed, ts[2..], symbols)
  {
    hide RunAll, Alternatives, MnemonicOf, ByteLine, Byted;
    var line := [Mnemonic(MnemonicOf(op))] + ts;
    assert line[0] == Mnemonic(MnemonicOf(op)) && line[1..] == ts;
    ByteTable(op);
    ByteRun(op, ts, w, symbols);
  }

  lemma ByteTable(op: Op)
    requires op == Int || op == Mi || op == Umi || op == Xbm
    ensures Alternatives(MnemonicOf(op)) == Byted(op)
  {
    hide Alternatives, MnemonicOf, Byted;
    TableOf(op);
  }

  lemma ByteRun(op: Op, ts: seq<Token>, w: Word, symbols: Symbols)
    requires ByteLine(ts, w, symbols)
    ensures RunAll(Byted(op), ts, symbols) == Runs(if w <= 255 then [IB(op, w)] else [], ts[2..])
  {
    hide RunAll, Try;
    ByteTried(op, ts, w, symbols);
    var alts := Byted(op);
    assert alts[0..] == alts && alts[1..] == [];
    RunAt(alts, 0, ts, symbols);
    RunNone(ts[2..], symbols);
  }

  lemma ByteTried(op: Op, ts: seq<Token>, w: Word, symbols: Symbols)
    requires ByteLine(ts, w, symbols)
    ensures Try(Small, op, ts, symbols) == Outcome(if w <= 255 then Some(IB(op, w)) else None, ts[2..])
  {
    assert Fits(Pattern(Small), ts);
  }

  // ---------------------------------------------------------------- the lines of an instruction

  /** t may stand in a line of i where its printed line has the other token: a variable may take the
      place of a number with its value, but for the indexed form of LOAD. */
  predicate Stands(i: Instruction, written: Token, t: Token, symbols: Symbols) {
    t == written || (written.Integer? && t.Variable? && ValueOf(t, symbols) == Some(written.w) && !i.IRRW?)
  }

  /** ts begins with a line of i. */
  predicate LineOf(i: Instruction, ts: seq<Token>, symbols: Symbols) {
    && |Operands(i)| <= |ts|
    && forall j :: 0 <= j < |Operands(i)| ==> Stands(i, Operands(i)[j], ts[j], symbols)
  }

  lemma StandsFits(i: Instruction, j: nat, t: Token, symbols: Symbols)
    requires Printable(i) && j < |Operands(i)| == |Pattern(ShapeFor(i))|
    requires SlotFits(Pattern(ShapeFor(i))[j], Operands(i)[j]) && Stands(i, Operands(i)[j], t, symbols)
    ensures SlotFits(Pattern(ShapeFor(i))[j], t)
  {
    hide Printable, ValueOf;
  }

  lemma LineBuilds(i: Instruction, ts: seq<Token>, symbols: Symbols)
    requires Printable(i) && LineOf(i, ts, symbols) && |Pattern(ShapeFor(i))| <= |ts|
    ensures Build(ShapeFor(i), i.op, ts, PrintedNumber(i)) == i
  {
    hide Args, Letters, Pattern, ValueOf;
    PrintedKind(i);
  }

  lemma LineNumber(i: Instruction, ts: seq<Token>, symbols: Symbols)
    requires LineOf(i, ts, symbols)
    ensures var j := NumberAt(ShapeFor(i));
      && (j.Some? ==> j.value < |ts| && ValueOf(ts[j.value], symbols) == Some(PrintedNumber(i)))
      && (j.None? ==> PrintedNumber(i) == 0) && (ShapeFor(i) == Small ==> PrintedNumber(i) <= 255)
  {
  }

  lemma LineFits(i: Instruction, ts: seq<Token>, symbols: Symbols)
    requires Printable(i) && LineOf(i, ts, symbols)
    ensures |Operands(i)| == |Pattern(ShapeFor(i))|
    ensures Try(ShapeFor(i), i.op, ts, symbols) == Outcome(Some(i), ts[|Operands(i)|..])
  {
    hide Printable, Operands, ShapeFor, Pattern, Build, NumberAt, ValueOf, PrintedNumber, SlotFits, Stands;
    OperandsFit(i);
    LineBuilds(i, ts, symbols);
    LineNumber(i, ts, symbols);
    forall j | 0 <= j < |Pattern(ShapeFor(i))| ensures SlotFits(Pattern(ShapeFor(i))[j], ts[j]) {
      StandsFits(i, j, ts[j], symbols);
    }
  }

  /** Every line of an instruction is parsed as the instruction, also with a variable in the place of
      its number, when a new line follows. */
  lemma LineReads(i: Instruction, ts: seq<Token>, symbols: Symbols)
    requires Printable(i) && LineOf(i, ts, symbols) && LegalStart(ts[|Operands(i)|..])
    ensures NextStep([Mnemonic(MnemonicOf(i.op))] + ts, symbols) == Step(Found(Ins(i)), ts[|Operands(i)|..], symbols)
  {
    hide Printable, Operands, ShapeFor, ListOf, MnemonicOf, Alternatives, Pattern, RunAll, LegalStart, Build, LineOf,
      NumberAt, PrintedNumber;
    var line := [Mnemonic(MnemonicOf(i.op))] + ts;
    assert line[0] == Mnemonic(MnemonicOf(i.op)) && line[1..] == ts;
    TableOf(i.op);
    var k := Offered(i);
    LineFits(i, ts, symbols);
    LegalFollowUp(MnemonicOf(i.op), k, ts, symbols);
  }

  // ---------------------------------------------------------------- what ends a text

  /** A text goes on behind printed lines with whatever stands there. */
  lemma {:induction false} ParsesThrough(nodes: seq<Node>, gaps: seq<nat>, tail: seq<Token>, symbols: Symbols,
                                         q: Parsed)
    requires AllPrintable(nodes) && |gaps| == |nodes| && LegalStart(tail) && ParseAll(tail, symbols) == Some(q)
    ensures ParseAll(PrintAll(nodes, gaps) + tail, symbols) == Some(Parsed(nodes + q.nodes, q.symbols))
    decreases |nodes|
  {
    hide Printable, ParseAll, Print, EmptyLines, LegalStart;
    var ts := PrintAll(nodes, gaps) + tail;
    if nodes == [] {
      assert ts == tail && nodes + q.nodes == q.nodes;
    } else {
      var rest := PrintAll(nodes[1..], gaps[1..]) + tail;
      ParsesThrough(nodes[1..], gaps[1..], tail, symbols, q);
      LegalBehind(nodes[1..], gaps[1..], tail);
      assert ts == EmptyLines(gaps[0]) + (Print(nodes[0]) + rest);
      NodeThrough(nodes[0], gaps[0], rest, symbols, Parsed(nodes[1..] + q.nodes, q.symbols));
      assert [nodes[0]] + (nodes[1..] + q.nodes) == nodes + q.nodes;
    }
  }

  lemma NodeThrough(n: Node, gap: nat, rest: seq<Token>, symbols: Symbols, q: Parsed)
    requires (n.Ins? ==> Printable(n.i)) && LegalStart(rest) && ParseAll(rest, symbols) == Some(q)
    ensures ParseAll(EmptyLines(gap) + (Print(n) + rest), symbols) == Some(Parsed([n] + q.nodes, q.symbols))
  {
    hide Printable, NextStep, Print, EmptyLines, LegalStart;
    NodeParsesBack(n, rest, symbols);
    EmptyLinesSkipped(gap, Print(n) + rest, symbols);
  }

  lemma LegalBehind(nodes: seq<Node>, gaps: seq<nat>, tail: seq<Token>)
    requires |gaps| == |nodes| && LegalStart(tail)
    ensures LegalStart(PrintAll(nodes, gaps) + tail)
  {
    if nodes == [] {
      assert PrintAll(nodes, gaps) + tail == tail;
    } else {
      assert (PrintAll(nodes, gaps) + tail)[0] == if gaps[0] > 0 then Eol else Print(nodes[0])[0];
    }
  }

  /** A section ends the text: nothing behind it is looked at. */
  lemma SectionEnds(nodes: seq<Node>, gaps: seq<nat>, name: string, behind: seq<Token>, symbols: Symbols)
    requires AllPrintable(nodes) && |gaps| == |nodes|
    ensures ParseAll(PrintAll(nodes, gaps) + ([Section(name)] + behind), symbols) == Some(Parsed(nodes, symbols))
  {
    hide PrintAll, Printable;
    var tail := [Section(name)] + behind;
    assert NextStep(tail, symbols).item == Nothing && NextStep(tail, symbols).symbols == symbols;
    ParsesThrough(nodes, gaps, tail, symbols, Parsed([], symbols));
    assert nodes + [] == nodes;
  }

  // ---------------------------------------------------------------- only these lines

  /** The shapes an operation may have in a line. */
  predicate MayHave(op: Op, s: Shape) {
    match s
    case NoOperand => Args(op) == [] && op != Xbm
    case OneR => Args(op) == [R]
    case TwoR => Args(op) == [R, R]
    case ThreeR => Args(op) == [R, R, R]
    case RN => Args(op) == [R, W] && !op.Stor?
    case N => Args(op) == [W]
    case NR => op == Stor(Imm)
    case OneA => Args(op) == [A]
    case OneS => Args(op) == [S]
    case AR => op == Stor(Imm)
    case RA => op == Mov(Imm) || op == LoadRW
    case RS => op == Mov(Imm)
    case Indexed => Args(op) == [R, R, W]
    case Small => Args(op) == [B] || op == Xbm
  }

  /** The alternatives are of operations with that name, in shapes these may have. */
  predicate Offers(name: string, alts: seq<Alternative>) {
    forall k :: 0 <= k < |alts| ==> MnemonicOf(alts[k].op) == name && MayHave(alts[k].op, alts[k].shape)
  }

  lemma SingleOffered(op: Op, s: Shape)
    requires MayHave(op, s)
    ensures Offers(MnemonicOf(op), [Alternative(op, s)])
  {
    hide MnemonicOf, MayHave;
  }

  lemma FamiliesOffered(f: AluFn, cond: Cond)
    ensures Offers(AluName(f), Binary(f)) && Offers(JumpName(cond), Jumps(cond))
  {
    hide AluName, JumpName;
  }

  lemma PlainsOffered()
    ensures Offers("HALT", Plain(Halt)) && Offers("IND", Plain(Ind)) && Offers("INE", Plain(Ine))
  {
    hide Offers;
    SingleOffered(Halt, NoOperand);
    SingleOffered(Ind, NoOperand);
    SingleOffered(Ine, NoOperand);
  }

  lemma MorePlainsOffered()
    ensures Offers("NOP", Plain(Nop)) && Offers("PANIC", Plain(Panic)) && Offers("POPA", Plain(Popa))
    ensures Offers("PUSHA", Plain(Pusha))
  {
    hide Offers;
    SingleOffered(Nop, NoOperand);
    SingleOffered(Panic, NoOperand);
    SingleOffered(Popa, NoOperand);
    SingleOffered(Pusha, NoOperand);
  }

  lemma ReturnsOffered()
    ensures Offers("RET", Plain(Ret)) && Offers("IRET", Plain(Iret)) && Offers("WFI", Plain(Wfi))
  {
    hide Offers;
    SingleOffered(Ret, NoOperand);
    SingleOffered(Iret, NoOperand);
    SingleOffered(Wfi, NoOperand);
  }

  lemma DebugOffered()
    ensures Offers("XBRK", Plain(Xbrk)) && Offers("XDBG", Plain(Xdbg))
  {
    hide Offers;
    SingleOffered(Xbrk, NoOperand);
    SingleOffered(Xdbg, NoOperand);
  }

  lemma ProfileOffered()
    ensures Offers("XPSE", Plain(Xpse)) && Offers("XPSD", Plain(Xpsd))
  {
    hide Offers;
    SingleOffered(Xpse, NoOperand);
    SingleOffered(Xpsd, NoOperand);
  }

  lemma BytesOffered()
    ensures Offers("INT", Byted(Int)) && Offers("MI", Byted(Mi)) && Offers("UMI", Byted(Umi))
  {
    hide Offers;
    SingleOffered(Int, Small);
    SingleOffered(Mi, Small);
    SingleOffered(Umi, Small);
  }

  lemma OthersOffered()
    ensures Offers("XBM", Byted(Xbm))
    ensures Offers("DEC", [Alternative(Dec, OneR)]) && Offers("INC", [Alternative(Inc, OneR)])
  {
    hide Offers;
    SingleOffered(Xbm, Small);
    SingleOffered(Dec, OneR);
    SingleOffered(Inc, OneR);
  }

  /** All of them, when each is. */
  lemma {:induction false} EachOffered(name: string, alts: seq<Alternative>)
    requires forall k :: 0 <= k < |alts| ==> Offers(name, [alts[k]])
    ensures Offers(name, alts)
  {
    hide MnemonicOf, MayHave;
    forall k | 0 <= k < |alts| ensures MnemonicOf(alts[k].op) == name && MayHave(alts[k].op, alts[k].shape) {
      assert [alts[k]][0] == alts[k];
    }
  }

  lemma CallsOffered()
    ensures Offers("CALL", CALLS)
  {
    hide Offers;
    SingleOffered(Call(Segment), OneS);
    SingleOffered(Call(Absolute), OneA);
    SingleOffered(CallR, OneR);
    EachOffered("CALL", CALLS);
  }

  lemma ComparesOffered()
    ensures Offers("CMP", COMPARES)
  {
    hide Offers;
    SingleOffered(Cmp(Reg), TwoR);
    SingleOffered(Cmp(Imm), RN);
    EachOffered("CMP", COMPARES);
  }

  lemma LoadsOffered()
    ensures Offers("LOAD", LOADS)
  {
    hide Offers;
    SingleOffered(LoadRR, TwoR);
    SingleOffered(LoadRW, RN);
    SingleOffered(LoadRW, RA);
    SingleOffered(LoadRRW, Indexed);
    EachOffered("LOAD", LOADS);
  }

  lemma MovesOffered()
    ensures Offers("MOV", MOVES)
  {
    hide Offers;
    SingleOffered(Mov(Reg), TwoR);
    SingleOffered(Mov(Imm), RN);
    SingleOffered(Mov(Imm), RA);
    SingleOffered(Mov(Imm), RS);
    EachOffered("MOV", MOVES);
  }

  lemma PopsOffered()
    ensures Offers("POP", POPS)
  {
    hide Offers;
    SingleOffered(PopR, OneR);
    SingleOffered(PopRR, TwoR);
    SingleOffered(PopRRR, ThreeR);
    EachOffered("POP", POPS);
  }

  lemma PushesOffered()
    ensures Offers("PUSH", PUSHES)
  {
    hide Offers;
    SingleOffered(PushR, OneR);
    SingleOffered(PushRR, TwoR);
    SingleOffered(PushRRR, ThreeR);
    SingleOffered(PushW, N);
    EachOffered("PUSH", PUSHES);
  }

  lemma StoresOffered()
    ensures Offers("STOR", STORES)
  {
    hide Offers;
    SingleOffered(Stor(Reg), TwoR);
    SingleOffered(Stor(Imm), NR);
    SingleOffered(Stor(Imm), AR);
    EachOffered("STOR", STORES);
  }

  /** The table offers for a mnemonic only operations of that name, in shapes they may have. */
  lemma TableOffers(name: string)
    ensures Offers(name, Alternatives(name))
  {
    hide Offers, Binary, Jumps, Plain, Byted;
    FamiliesOffered(Add, Always);
    FamiliesOffered(Sub, IfZero);
    FamiliesOffered(Mul, IfNotZero);
    FamiliesOffered(Band, Always);
    FamiliesOffered(Bor, Always);
    FamiliesOffered(Bxor, Always);
    PlainsOffered();
    MorePlainsOffered();
    ReturnsOffered();
    DebugOffered();
    ProfileOffered();
    BytesOffered();
    OthersOffered();
    CallsOffered();
    ComparesOffered();
    LoadsOffered();
    MovesOffered();
    PopsOffered();
    PushesOffered();
    StoresOffered();
    NoneOffered(name);
  }

  lemma NoneOffered(name: string)
    ensures Offers(name, [])
  {
  }

  predicate Plainly(s: Shape) {
    s == NoOperand || s == OneR || s == TwoR || s == ThreeR || s == OneA || s == OneS || s == Indexed
  }

  predicate Numbered(s: Shape) {
    s == RN || s == N || s == NR || s == Small
  }

  /** What an alternative builds when its shape fits and its number is w. */
  lemma BuildsPrintable(s: Shape, op: Op, ts: seq<Token>, w: Word)
    requires MayHave(op, s) && |Pattern(s)| <= |ts|
    ensures var i := Build(s, op, ts, w); i.op == op && Printable(i) && ShapeFor(i) == s
  {
    hide MayHave, Build, Printable, ShapeFor;
    if Plainly(s) {
      BuildsPlain(s, op, ts, w);
    } else if Numbered(s) {
      if s == RN || s == NR {
        BuildsNumbered(s, op, ts, w);
      } else {
        BuildsLoneNumber(s, op, ts, w);
      }
    } else {
      BuildsAddressed(s, op, ts, w);
    }
  }

  lemma BuildsPlain(s: Shape, op: Op, ts: seq<Token>, w: Word)
    requires MayHave(op, s) && |Pattern(s)| <= |ts| && Plainly(s)
    ensures var i := Build(s, op, ts, w); i.op == op && Printable(i) && ShapeFor(i) == s
  {
    hide MayHave, Build, Printable, ShapeFor, Pattern;
    if s == OneA || s == OneS {
      BuildsTarget(s, op, ts, w);
    } else {
      BuildsRegisters(s, op, ts, w);
    }
  }

  lemma BuildsTarget(s: Shape, op: Op, ts: seq<Token>, w: Word)
    requires MayHave(op, s) && |Pattern(s)| <= |ts| && (s == OneA || s == OneS)
    ensures var i := Build(s, op, ts, w); i.op == op && Printable(i) && ShapeFor(i) == s
  {
    hide Pattern, NameOf, Args;
    XbmArgs();
  }

  lemma BuildsRegisters(s: Shape, op: Op, ts: seq<Token>, w: Word)
    requires MayHave(op, s) && |Pattern(s)| <= |ts|
    requires s == NoOperand || s == OneR || s == TwoR || s == ThreeR || s == Indexed
    ensures var i := Build(s, op, ts, w); i.op == op && Printable(i) && ShapeFor(i) == s
  {
    hide Pattern, NameOf, Args;
    XbmArgs();
  }

  lemma XbmArgs()
    ensures Args(Xbm) == []
  {
  }

  lemma StorArgs()
    ensures Args(Stor(Imm)) == [R, W]
  {
  }

  lemma BuildsNumbered(s: Shape, op: Op, ts: seq<Token>, w: Word)
    requires MayHave(op, s) && |Pattern(s)| <= |ts| && (s == RN || s == NR)
    ensures var i := Build(s, op, ts, w); i.op == op && Printable(i) && ShapeFor(i) == s
  {
    hide Pattern, NameOf, MnemonicOf, Args;
    XbmArgs();
    StorArgs();
  }

  lemma BuildsLoneNumber(s: Shape, op: Op, ts: seq<Token>, w: Word)
    requires MayHave(op, s) && |Pattern(s)| <= |ts| && (s == N || s == Small)
    ensures var i := Build(s, op, ts, w); i.op == op && Printable(i) && ShapeFor(i) == s
  {
    hide Pattern, NameOf, MnemonicOf, Args;
    XbmArgs();
  }

  lemma BuildsAddressed(s: Shape, op: Op, ts: seq<Token>, w: Word)
    requires MayHave(op, s) && |Pattern(s)| <= |ts| && (s == AR || s == RA || s == RS)
    ensures var i := Build(s, op, ts, w); i.op == op && Printable(i) && ShapeFor(i) == s
  {
    hide Pattern, NameOf, MnemonicOf;
  }

  lemma LineLength(s: Shape, op: Op, ts: seq<Token>, w: Word)
    requires MayHave(op, s) && |Pattern(s)| <= |ts|
    ensures |Operands(Build(s, op, ts, w))| == |Pattern(s)|
  {
    hide Args, MnemonicOf, NameOf, Build, Operands, Pattern, MayHave;
    BuildsPrintable(s, op, ts, w);
    OperandsFit(Build(s, op, ts, w));
  }

  /** Place j of the shape, where token j fits. */
  predicate Slotted(s: Shape, op: Op, ts: seq<Token>, j: nat) {
    MayHave(op, s) && |Pattern(s)| <= |ts| && j < |Pattern(s)| && SlotFits(Pattern(s)[j], ts[j])
  }

  lemma OneStands(s: Shape, op: Op, ts: seq<Token>, w: Word, symbols: Symbols, j: nat)
    requires Slotted(s, op, ts, j) && (s == OneA || s == OneS || s == NoOperand || s == OneR)
    requires j < |Operands(Build(s, op, ts, w))|
    requires NumberAt(s) == Some(j) ==> ValueOf(ts[j], symbols) == Some(w)
    ensures Stands(Build(s, op, ts, w), Operands(Build(s, op, ts, w))[j], ts[j], symbols)
  {
    hide Args, MnemonicOf;
  }

  lemma MoreStand(s: Shape, op: Op, ts: seq<Token>, w: Word, symbols: Symbols, j: nat)
    requires Slotted(s, op, ts, j) && (s == TwoR || s == ThreeR || s == Indexed)
    requires j < |Operands(Build(s, op, ts, w))|
    requires NumberAt(s) == Some(j) ==> ValueOf(ts[j], symbols) == Some(w)
    ensures Stands(Build(s, op, ts, w), Operands(Build(s, op, ts, w))[j], ts[j], symbols)
  {
    hide Args, MnemonicOf;
  }

  lemma NumberStands(s: Shape, op: Op, ts: seq<Token>, w: Word, symbols: Symbols, j: nat)
    requires Slotted(s, op, ts, j) && (s == RN || s == NR)
    requires j < |Operands(Build(s, op, ts, w))|
    requires NumberAt(s) == Some(j) ==> ValueOf(ts[j], symbols) == Some(w)
    ensures Stands(Build(s, op, ts, w), Operands(Build(s, op, ts, w))[j], ts[j], symbols)
  {
    hide Args, MnemonicOf;
  }

  lemma LoneNumberStands(s: Shape, op: Op, ts: seq<Token>, w: Word, symbols: Symbols, j: nat)
    requires Slotted(s, op, ts, j) && (s == N || s == Small)
    requires j < |Operands(Build(s, op, ts, w))| && (s == Small ==> w <= 255)
    requires NumberAt(s) == Some(j) ==> ValueOf(ts[j], symbols) == Some(w)
    ensures Stands(Build(s, op, ts, w), Operands(Build(s, op, ts, w))[j], ts[j], symbols)
  {
    hide Args, MnemonicOf;
  }

  lemma AddressStands(s: Shape, op: Op, ts: seq<Token>, w: Word, symbols: Symbols, j: nat)
    requires Slotted(s, op, ts, j) && (s == AR || s == RA || s == RS) && j < |Operands(Build(s, op, ts, w))|
    ensures Stands(Build(s, op, ts, w), Operands(Build(s, op, ts, w))[j], ts[j], symbols)
  {
    hide Args, MnemonicOf;
  }

  /** The tokens it is built from are those of its line. */
  lemma TokensStand(s: Shape, op: Op, ts: seq<Token>, w: Word, symbols: Symbols)
    requires MayHave(op, s) && Fits(Pattern(s), ts) && (s == Small ==> w <= 255)
    requires NumberAt(s).Some? ==> NumberAt(s).value < |ts| && ValueOf(ts[NumberAt(s).value], symbols) == Some(w)
    ensures LineOf(Build(s, op, ts, w), ts, symbols)
  {
    hide MayHave, Build, Operands, Pattern, NumberAt, ValueOf, SlotFits, Stands;
    LineLength(s, op, ts, w);
    var line := Operands(Build(s, op, ts, w));
    forall j | 0 <= j < |line| ensures Stands(Build(s, op, ts, w), line[j], ts[j], symbols) {
      if Plainly(s) {
        if s == TwoR || s == ThreeR || s == Indexed {
          MoreStand(s, op, ts, w, symbols, j);
        } else {
          OneStands(s, op, ts, w, symbols, j);
        }
      } else if Numbered(s) {
        if s == RN || s == NR {
          NumberStands(s, op, ts, w, symbols, j);
        } else {
          LoneNumberStands(s, op, ts, w, symbols, j);
        }
      } else {
        AddressStands(s, op, ts, w, symbols, j);
      }
    }
  }

  /** Whatever an alternative accepts is the printed line of the instruction it builds, where a
      variable may stand for its number. */
  lemma Accepted(name: string, k: nat, ts: seq<Token>, symbols: Symbols)
    requires k < |Alternatives(name)| && Succeeds(Alternatives(name)[k], ts, symbols)
    ensures var i := Try(Alternatives(name)[k].shape, Alternatives(name)[k].op, ts, symbols).r.value;
      MnemonicOf(i.op) == name && Printable(i) && LineOf(i, ts, symbols)
  {
    hide Alternatives, MnemonicOf, MayHave, Build, Printable, LineOf, Pattern, ShapeFor, ValueOf;
    TableOffers(name);
    var a := Alternatives(name)[k];
    Grammar.NumberInside(a.shape);
    var w := if NumberAt(a.shape).Some? then ValueOf(ts[NumberAt(a.shape).value], symbols).value else 0;
    BuildsPrintable(a.shape, a.op, ts, w);
    TokensStand(a.shape, a.op, ts, w, symbols);
  }

  /** The same for all alternatives in turn, wherever on the stream they succeed. */
  lemma {:induction false} SuccessesPrintable(name: string, alts: seq<Alternative>, ts: seq<Token>, symbols: Symbols)
    requires Offers(name, alts)
    ensures forall k :: 0 <= k < |RunAll(alts, ts, symbols).successes| ==>
              var i := RunAll(alts, ts, symbols).successes[k]; Printable(i) && MnemonicOf(i.op) == name
    decreases |alts|
  {
    hide MnemonicOf, MayHave, Printable, Pattern, Build;
    if alts != [] {
      var a := alts[0];
      var o := Try(a.shape, a.op, ts, symbols);
      if o.r.Some? {
        TryBuilds(a.shape, a.op, ts, symbols);
        var w :| o.r.value == Build(a.shape, a.op, ts, w);
        BuildsPrintable(a.shape, a.op, ts, w);
      }
      SuccessesPrintable(name, alts[1..], o.rest, symbols);
    }
  }

  lemma MnemonicPrintable(name: string, ts: seq<Token>, symbols: Symbols)
    ensures var s := NextStep([Mnemonic(name)] + ts, symbols);
      s.item.Found? ==> s.item.node.Ins? && Printable(s.item.node.i) && MnemonicOf(s.item.node.i.op) == name
  {
    hide Alternatives, MnemonicOf, Printable, RunAll, Offers;
    TableOffers(name);
    SuccessesPrintable(name, Alternatives(name), ts, symbols);
    assert ([Mnemonic(name)] + ts)[0] == Mnemonic(name) && ([Mnemonic(name)] + ts)[1..] == ts;
  }

  /** A mnemonic that is the name of no operation is refused. */
  lemma UnknownRefused(name: string, ts: seq<Token>, symbols: Symbols)
    requires forall op :: MnemonicOf(op) != name
    ensures NextStep([Mnemonic(name)] + ts, symbols).item == Failed
  {
    hide MnemonicOf, Printable, NextStep;
    var s := NextStep([Mnemonic(name)] + ts, symbols);
    MnemonicPrintable(name, ts, symbols);
    assert s.item != Nothing by {
      NeverNothing(name, ts, symbols);
    }
  }

  lemma NeverNothing(name: string, ts: seq<Token>, symbols: Symbols)
    ensures NextStep([Mnemonic(name)] + ts, symbols).item != Nothing
  {
    hide RunAll, Alternatives;
  }

  lemma {:induction false} StepPrintable(ts: seq<Token>, symbols: Symbols)
    ensures var s := NextStep(ts, symbols);
      s.item.Found? && s.item.node.Ins? ==> Printable(s.item.node.i)
    decreases |ts|
  {
    hide RunAll, Alternatives, Printable, DirectiveStep, MnemonicOf;
    if ts != [] {
      match ts[0] {
        case Eol => StepPrintable(ts[1..], symbols);
        case Variable(name) =>
          if |ts| > 2 && ts[1] == Equal && ts[2].Integer? {
            StepPrintable(ts[3..], symbols[name := ts[2].w]);
          }
        case Mnemonic(name) =>
          assert ts == [Mnemonic(name)] + ts[1..];
          MnemonicPrintable(name, ts[1..], symbols);
        case Directive(name) => DirectiveIsNoInstruction(name, ts[1..], symbols);
        case _ =>
      }
    }
  }

  /** Parsing gives printable instructions only. */
  lemma {:induction false} ParsedIsPrintable(ts: seq<Token>, symbols: Symbols)
    requires ParseAll(ts, symbols).Some?
    ensures AllPrintable(ParseAll(ts, symbols).value.nodes)
    decreases |ts|
  {
    hide NextStep, Printable;
    StepPrintable(ts, symbols);
    var s := NextStep(ts, symbols);
    if s.item.Found? {
      ParsedIsPrintable(s.rest, s.symbols);
    }
  }

  /** So printing what was parsed, with any empty lines, and parsing it again gives the same nodes. */
  lemma ParsedPrintsBack(ts: seq<Token>, symbols: Symbols, gaps: seq<nat>, others: Symbols)
    requires ParseAll(ts, symbols).Some? && |gaps| == |ParseAll(ts, symbols).value.nodes|
    ensures var nodes := ParseAll(ts, symbols).value.nodes;
      ParseAll(PrintAll(nodes, gaps), others) == Some(Parsed(nodes, others))
  {
    hide ParseAll, Printable, PrintAll;
    ParsedIsPrintable(ts, symbols);
    ParseUndoesPrint(ParseAll(ts, symbols).value.nodes, gaps, others);
  }

  // ---------------------------------------------------------------- labels and directives

  /** A label stands alone on its line. */
  lemma LabelAlone(name: string, ts: seq<Token>, symbols: Symbols)
    ensures NextStep([LabelMark(name)] + ts, symbols).item
         == if ts != [] && ts[0] == Eol then Found(Label(name)) else Failed
  {
    assert ts != [] ==> ([LabelMark(name)] + ts)[1] == ts[0];
  }

  /** The name in letters of either case. */
  predicate AnyCase(name: string, low: string) {
    |name| == |low| && forall k :: 0 <= k < |low| ==> name[k] == low[k] || name[k] as int == low[k] as int - 32
  }

  /** Directives are known by their name in any case, and there are only two. */
  lemma DirectiveNames(name: string, ts: seq<Token>, symbols: Symbols)
    ensures AnyCase(name, "base") ==> DirectiveStep(name, ts, symbols) == DirectiveStep("base", ts, symbols)
    ensures AnyCase(name, "word") ==> DirectiveStep(name, ts, symbols) == DirectiveStep("word", ts, symbols)
    ensures !AnyCase(name, "base") && !AnyCase(name, "word") ==>
              DirectiveStep(name, ts, symbols) == Step(Failed, ts, symbols)
  {
    hide Lower, ValueOf, AnyCase;
    LowerNames();
    LowerIs(name, "base");
    LowerIs(name, "word");
  }

  lemma LowerIs(name: string, low: string)
    requires forall k :: 0 <= k < |low| ==> 'a' <= low[k] <= 'z'
    ensures Lower(name) == low <==> AnyCase(name, low)
  {
    if Lower(name) == low {
      forall k | 0 <= k < |low| ensures name[k] == low[k] || name[k] as int == low[k] as int - 32 {
        assert Lower(name)[k] == LowerChar(name[k]);
      }
    }
    if AnyCase(name, low) {
      forall k | 0 <= k < |low| ensures Lower(name)[k] == low[k] {
        assert Lower(name)[k] == LowerChar(name[k]);
      }
    }
  }

  /** The number of a `#word` is a literal; that of a `#base` may be a variable. */
  lemma DirectiveNumbers(name: string, v: string, rest: seq<Token>, symbols: Symbols)
    ensures DirectiveStep("word", [Identifier(name), Variable(v), Eol] + rest, symbols).item == Failed
    ensures DirectiveStep("base", [Variable(v), Eol] + rest, symbols).item
         == if v in symbols then Found(Base(symbols[v])) else Failed
  {
    hide Lower;
    LowerNames();
  }
}
