/** What the parser produces, and that it undoes printing. */
module Printing {
  import opened Words
  import opened Isa
  import opened Assembler
  import opened Grammar
  import opened Parsers

  // ---------------------------------------------------------------- parsed instructions

  lemma {:induction false} SuccessesShaped(alts: seq<Alternative>, ts: seq<Token>, symbols: Symbols)
    requires forall i, ts, w :: 0 <= i < |alts| && |Pattern(alts[i].shape)| <= |ts| ==>
            WellShaped(Build(alts[i].shape, alts[i].op, ts, w))
    ensures forall k :: 0 <= k < |RunAll(alts, ts, symbols).successes| ==>
            WellShaped(RunAll(alts, ts, symbols).successes[k])
    decreases |alts|
  {
    hide Pattern, Build, WellShaped, Fits;
    if alts != [] {
      var o := Try(alts[0].shape, alts[0].op, ts, symbols);
      if o.r.Some? {
        TryBuilds(alts[0].shape, alts[0].op, ts, symbols);
      }
      SuccessesShaped(alts[1..], o.rest, symbols);
    }
  }

  lemma {:induction false} StepShaped(ts: seq<Token>, symbols: Symbols)
    ensures var s := NextStep(ts, symbols);
      s.item.Found? && s.item.node.Ins? ==> WellShaped(s.item.node.i)
    decreases |ts|
  {
    hide RunAll, Alternatives, WellShaped, DirectiveStep;
    if ts != [] {
      match ts[0] {
        case Eol => StepShaped(ts[1..], symbols);
        case Variable(name) =>
          if |ts| > 2 && ts[1] == Equal && ts[2].Integer? {
            StepShaped(ts[3..], symbols[name := ts[2].w]);
          }
        case Mnemonic(name) => MnemonicShaped(name, ts[1..], symbols);
        case Directive(name) => DirectiveIsNoInstruction(name, ts[1..], symbols);
        case _ =>
      }
    }
  }

  lemma MnemonicShaped(name: string, ts: seq<Token>, symbols: Symbols)
    ensures forall k :: 0 <= k < |RunAll(Alternatives(name), ts, symbols).successes| ==>
              WellShaped(RunAll(Alternatives(name), ts, symbols).successes[k])
  {
    hide Alternatives, WellShaped, Pattern, Build, Clash;
    AlternativesGood(name);
    SuccessesShaped(Alternatives(name), ts, symbols);
  }

  lemma DirectiveIsNoInstruction(name: string, ts: seq<Token>, symbols: Symbols)
    ensures DirectiveStep(name, ts, symbols).item.Found? ==> !DirectiveStep(name, ts, symbols).item.node.Ins?
  {
    hide Lower, ValueOf;
  }

  /** Every instruction of a parsed text carries the arguments its operation declares, which is
      what makes the two passes of the assembler agree on offsets. */
  lemma {:induction false} ParsedIsWellShaped(ts: seq<Token>, symbols: Symbols)
    requires ParseAll(ts, symbols).Some?
    ensures AllWellShaped(ParseAll(ts, symbols).value.nodes)
    decreases |ts|
  {
    hide NextStep, WellShaped;
    StepShaped(ts, symbols);
    var s := NextStep(ts, symbols);
    if s.item.Found? {
      ParsedIsWellShaped(s.rest, s.symbols);
    }
  }

  // ---------------------------------------------------------------- printing

  function AluName(f: AluFn): string {
    match f
    case Add => "ADD"
    case Sub => "SUB"
    case Mul => "MUL"
    case Band => "AND"
    case Bor => "OR"
    case Bxor => "XOR"
  }

  function JumpName(cond: Cond): string {
    match cond
    case Always => "J"
    case IfZero => "JEQ"
    case IfNotZero => "JNE"
  }

  function MnemonicOf(op: Op): string {
    match op
    case Nop => "NOP"
    case Halt => "HALT"
    case Panic => "PANIC"
    case Mov(_) => "MOV"
    case Alu(f, _) => AluName(f)
    case Inc => "INC"
    case Dec => "DEC"
    case Cmp(_) => "CMP"
    case PushR => "PUSH"
    case PushRR => "PUSH"
    case PushRRR => "PUSH"
    case PushW => "PUSH"
    case Pusha => "PUSHA"
    case PopR => "POP"
    case PopRR => "POP"
    case PopRRR => "POP"
    case Popa => "POPA"
    case Jump(cond, _) => JumpName(cond)
    case Call(_) => "CALL"
    case CallR => "CALL"
    case Ret => "RET"
    case Int => "INT"
    case Iret => "IRET"
    case Stor(_) => "STOR"
    case LoadRR => "LOAD"
    case LoadRRW => "LOAD"
    case LoadRW => "LOAD"
    case Mi => "MI"
    case Umi => "UMI"
    case Ind => "IND"
    case Ine => "INE"
    case Wfi => "WFI"
    case Xbm => "XBM"
    case Xdbg => "XDBG"
    case Xpse => "XPSE"
    case Xpsd => "XPSD"
    case Xbrk => "XBRK"
  }

  /** Instructions a source line can stand for: an address where a word is declared is written
      only with STOR, LOAD and MOV, and XBM always has its byte. */
  predicate Printable(i: Instruction) {
    && WellShaped(i)
    && (i.op == Xbm ==> i.IB?)
    && (i.IRA? ==> (i.kind.Absolute? && (i.op == Stor(Imm) || i.op == LoadRW)) || i.op == Mov(Imm))
  }

  function ShapeFor(i: Instruction): Shape {
    match i
    case I(_) => NoOperand
    case IA(_, _, kind) => if kind.Absolute? then OneA else OneS
    case IB(_, _) => Small
    case IR(_, _) => OneR
    case IRA(op, _, _, kind) => if op.Stor? then AR else if kind.Absolute? then RA else RS
    case IRW(op, _, _) => if op.Stor? then NR else RN
    case IRR(_, _, _) => TwoR
    case IRRR(_, _, _, _) => ThreeR
    case IRRW(_, _, _, _) => Indexed
    case IW(_, _) => N
  }

  function Operands(i: Instruction): seq<Token> {
    match i
    case I(_) => [Eol]
    case IA(_, name, kind) => [Address(name, kind), Eol]
    case IB(_, b) => [Integer(b), Eol]
    case IR(_, r) => [Identifier(r), Eol]
    case IRA(op, r, name, kind) =>
      if op.Stor? then [Address(name, kind), Comma, Identifier(r), Eol]
          else [Identifier(r), Comma, Address(name, kind), Eol]
    case IRW(op, r, w) =>
      if op.Stor? then [Integer(w), Comma, Identifier(r), Eol] else [Identifier(r), Comma, Integer(w), Eol]
    case IRR(_, r, r2) => [Identifier(r), Comma, Identifier(r2), Eol]
    case IRRR(_, r, r2, r3) => [Identifier(r), Comma, Identifier(r2), Comma, Identifier(r3), Eol]
    case IRRW(_, r, r2, w) => [Identifier(r), Comma, LBracket, Identifier(r2), Plus, Integer(w), RBracket, Eol]
    case IW(_, w) => [Integer(w), Eol]
  }

  function Print(n: Node): seq<Token> {
    match n
    case Base(address) => [Directive("base"), Integer(address), Eol]
    case Data(name, value) => [Directive("word"), Identifier(name), Integer(Wrap(value)), Eol]
    case Ins(i) => [Mnemonic(MnemonicOf(i.op))] + Operands(i)
    case Label(name) => [LabelMark(name), Eol]
  }

  /** Empty lines; to the parser a comment line is one. */
  function EmptyLines(n: nat): seq<Token> {
    if n == 0 then [] else [Eol] + EmptyLines(n - 1)
  }

  /** The lines of the nodes, with the given numbers of empty lines in front of them. */
  function PrintAll(nodes: seq<Node>, gaps: seq<nat>): seq<Token>
    requires |gaps| == |nodes|
  {
    if nodes == [] then [] else EmptyLines(gaps[0]) + (Print(nodes[0]) + PrintAll(nodes[1..], gaps[1..]))
  }

  lemma OperandsFit(i: Instruction)
    requires Printable(i)
    ensures |Operands(i)| == |Pattern(ShapeFor(i))|
    ensures forall k :: 0 <= k < |Operands(i)| ==> SlotFits(Pattern(ShapeFor(i))[k], Operands(i)[k])
  {
    hide Args, Letters, MnemonicOf;
    PrintedKind(i);
  }

  lemma PrintedKind(i: Instruction)
    requires Printable(i)
    ensures i.IRA? && i.op.Stor? ==> i.kind.Absolute?
  {
    hide Args, Letters;
  }

  /** The number of a printed line, 0 if it has none. */
  function PrintedNumber(i: Instruction): Word {
    match i
    case IB(_, b) => b
    case IRW(_, _, w) => w
    case IRRW(_, _, _, w) => w
    case IW(_, w) => w
    case _ => 0
  }

  lemma PrintedBuild(i: Instruction, ts: seq<Token>)
    requires Printable(i) && |ts| >= |Operands(i)| == |Pattern(ShapeFor(i))|
    requires forall k :: 0 <= k < |Operands(i)| ==> ts[k] == Operands(i)[k]
    ensures Build(ShapeFor(i), i.op, ts, PrintedNumber(i)) == i
  {
    hide Args, Letters, Pattern;
    PrintedKind(i);
  }

  lemma PrintedNumberAt(i: Instruction, ts: seq<Token>, symbols: Symbols)
    requires |ts| >= |Operands(i)| && forall k :: 0 <= k < |Operands(i)| ==> ts[k] == Operands(i)[k]
    ensures var j := NumberAt(ShapeFor(i));
      && (j.Some? ==> j.value < |ts| && ValueOf(ts[j.value], symbols) == Some(PrintedNumber(i)))
      && (j.None? ==> PrintedNumber(i) == 0) && (ShapeFor(i) == Small ==> PrintedNumber(i) <= 255)
  {
  }

  lemma PrintedFits(i: Instruction, rest: seq<Token>, symbols: Symbols)
    requires Printable(i)
    ensures Try(ShapeFor(i), i.op, Operands(i) + rest, symbols) == Outcome(Some(i), rest)
  {
    hide Printable, Operands, ShapeFor, Pattern, Build, NumberAt, ValueOf, PrintedNumber;
    var ts := Operands(i) + rest;
    OperandsFit(i);
    PrintedBuild(i, ts);
    PrintedNumberAt(i, ts, symbols);
    assert Fits(Pattern(ShapeFor(i)), ts);
    assert ts[|Operands(i)|..] == rest;
  }

  /** The alternatives of an operation's mnemonic. */
  function ListOf(op: Op): seq<Alternative> {
    match op
    case Mov(_) => MOVES
    case Alu(f, _) => Binary(f)
    case Inc => [Alternative(Inc, OneR)]
    case Dec => [Alternative(Dec, OneR)]
    case Cmp(_) => COMPARES
    case PushR => PUSHES
    case PushRR => PUSHES
    case PushRRR => PUSHES
    case PushW => PUSHES
    case PopR => POPS
    case PopRR => POPS
    case PopRRR => POPS
    case Jump(cond, _) => Jumps(cond)
    case Call(_) => CALLS
    case CallR => CALLS
    case Int => Byted(op)
    case Mi => Byted(op)
    case Umi => Byted(op)
    case Xbm => Byted(op)
    case Stor(_) => STORES
    case LoadRR => LOADS
    case LoadRRW => LOADS
    case LoadRW => LOADS
    case _ => Plain(op)
  }

  lemma TableOf(op: Op)
    ensures Alternatives(MnemonicOf(op)) == ListOf(op)
  {
    hide Binary, Jumps, Plain, Byted;
  }

  /** A printable instruction's shape is among the alternatives of its mnemonic. */
  lemma Offered(i: Instruction) returns (k: nat)
    requires Printable(i)
    ensures k < |ListOf(i.op)| && ListOf(i.op)[k] == Alternative(i.op, ShapeFor(i))
  {
    k := match i.op
         case Mov(src) => if src.Reg? then 0 else if i.IRW? then 1 else if i.kind.Absolute? then 2 else 3
         case Alu(_, src) => if src.Reg? then 0 else 1
         case Cmp(src) => if src.Reg? then 0 else 1
         case PushRR => 1
         case PushRRR => 2
         case PushW => 3
         case PopRR => 1
         case PopRRR => 2
         case Jump(_, kind) => if kind.Absolute? then 0 else 1
         case Call(kind) => if kind.Segment? then 0 else 1
         case CallR => 2
         case Stor(src) => if src.Reg? then 0 else if i.IRW? then 1 else 2
         case LoadRW => if i.IRW? then 1 else 2
         case LoadRRW => 3
         case _ => 0;
  }

  /** A printed instruction is parsed as itself, and exactly its line is taken. */
  lemma InstructionParsesBack(i: Instruction, rest: seq<Token>, symbols: Symbols)
    requires Printable(i) && LegalStart(rest)
    ensures RunAll(Alternatives(MnemonicOf(i.op)), Operands(i) + rest, symbols) == Runs([i], rest)
  {
    hide Printable, Operands, ShapeFor, ListOf, MnemonicOf, Alternatives, Pattern, RunAll, WellShaped, LegalStart,
         Build;
    TableOf(i.op);
    var k := Offered(i);
    PrintedFits(i, rest, symbols);
    TryBuilds(ShapeFor(i), i.op, Operands(i) + rest, symbols);
    LegalFollowUp(MnemonicOf(i.op), k, Operands(i) + rest, symbols);
  }

  predicate AllPrintable(nodes: seq<Node>) {
    forall k :: 0 <= k < |nodes| && nodes[k].Ins? ==> Printable(nodes[k].i)
  }

  lemma PrintStartsLegal(nodes: seq<Node>, gaps: seq<nat>)
    requires |gaps| == |nodes|
    ensures LegalStart(PrintAll(nodes, gaps))
  {
    if nodes != [] {
      assert PrintAll(nodes, gaps)[0] == if gaps[0] > 0 then Eol else Print(nodes[0])[0];
    }
  }

  lemma {:induction false} EmptyLinesSkipped(n: nat, ts: seq<Token>, symbols: Symbols)
    ensures NextStep(EmptyLines(n) + ts, symbols) == NextStep(ts, symbols)
    decreases n
  {
    hide RunAll, Alternatives, DirectiveStep;
    if n == 0 {
      assert EmptyLines(n) + ts == ts;
    } else {
      assert (EmptyLines(n) + ts)[1..] == EmptyLines(n - 1) + ts;
      EmptyLinesSkipped(n - 1, ts, symbols);
    }
  }

  lemma LowerNames()
    ensures Lower("base") == "base" && Lower("word") == "word"
  {
  }

  lemma DirectiveParsesBack(n: Node, rest: seq<Token>, symbols: Symbols)
    requires n.Base? || n.Data?
    ensures NextStep(Print(n) + rest, symbols) == Step(Found(n), rest, symbols)
  {
    hide Lower;
    var ts := Print(n) + rest;
    LowerNames();
    assert ts[1..] == Print(n)[1..] + rest;
    assert Drop(ts[1..], |Print(n)| - 1) == rest;
  }

  lemma InstructionNode(i: Instruction, rest: seq<Token>, symbols: Symbols)
    requires Printable(i) && LegalStart(rest)
    ensures NextStep(Print(Ins(i)) + rest, symbols) == Step(Found(Ins(i)), rest, symbols)
  {
    hide Printable, Alternatives, MnemonicOf, RunAll, Operands, LegalStart;
    var ts := Print(Ins(i)) + rest;
    assert ts[0] == Mnemonic(MnemonicOf(i.op)) && ts[1..] == Operands(i) + rest;
    InstructionParsesBack(i, rest, symbols);
  }

  lemma NodeParsesBack(n: Node, rest: seq<Token>, symbols: Symbols)
    requires (n.Ins? ==> Printable(n.i)) && LegalStart(rest)
    ensures NextStep(Print(n) + rest, symbols) == Step(Found(n), rest, symbols)
  {
    hide Printable, LegalStart, DirectiveStep, RunAll, Alternatives, MnemonicOf, Operands;
    if n.Ins? {
      InstructionNode(n.i, rest, symbols);
    } else if n.Label? {
      assert Drop(Print(n) + rest, 2) == rest;
    } else {
      DirectiveParsesBack(n, rest, symbols);
    }
  }

  /** Parsing undoes printing: every list of printable nodes, written out line by line with
      empty lines anywhere, is parsed as itself. */
  lemma {:induction false} ParseUndoesPrint(nodes: seq<Node>, gaps: seq<nat>, symbols: Symbols)
    requires AllPrintable(nodes) && |gaps| == |nodes|
    ensures ParseAll(PrintAll(nodes, gaps), symbols) == Some(Parsed(nodes, symbols))
    decreases |nodes|
  {
    hide Printable, NextStep, Print, LegalStart, EmptyLines;
    if nodes == [] {
      NothingLeft(symbols);
    } else {
      ParseUndoesPrint(nodes[1..], gaps[1..], symbols);
      PrintStartsLegal(nodes[1..], gaps[1..]);
      NodeParsesBack(nodes[0], PrintAll(nodes[1..], gaps[1..]), symbols);
      EmptyLinesSkipped(gaps[0], Print(nodes[0]) + PrintAll(nodes[1..], gaps[1..]), symbols);
      assert [nodes[0]] + nodes[1..] == nodes;
    }
  }

  lemma NothingLeft(symbols: Symbols)
    ensures NextStep([], symbols) == Step(Nothing, [], symbols)
  {
  }
}
