/** The parser: one token stream that every operand alternative reads from, a table of
    variables, and the list of nodes. */
module Parsers {
  import opened Words
  import opened Isa
  import opened Assembler
  import opened Grammar

  // ---------------------------------------------------------------- lines

  /** What the next node-giving line yields. */
  datatype Item = Found(node: Node) | Nothing | Failed

  datatype Step = Step(item: Item, rest: seq<Token>, symbols: Symbols)

  function Drop(ts: seq<Token>, n: nat): (r: seq<Token>)
    ensures |r| <= |ts| && (n > 0 && ts != [] ==> |r| < |ts|)
  {
    if n <= |ts| then ts[n..] else []
  }

  function LowerChar(c: char): char {
    if 'A' <= c <= 'Z' then (c as int + 32) as char else c
  }

  function Lower(s: string): string {
    seq(|s|, i requires 0 <= i < |s| => LowerChar(s[i]))
  }

  /** `#base` takes a number, `#word` a name and a literal; both end their line. */
  function DirectiveStep(name: string, ts: seq<Token>, symbols: Symbols): (s: Step)
    ensures |s.rest| <= |ts|
  {
    if Lower(name) == "base" then
      var w := if ts == [] then None else ValueOf(ts[0], symbols);
      var eol := |ts| > 1 && ts[1] == Eol;
      Step(if w.Some? && eol then Found(Base(w.value)) else Failed, Drop(ts, 2), symbols)
    else if Lower(name) == "word" then
      if ts == [] || !ts[0].Identifier? then Step(Failed, Drop(ts, 1), symbols)
      else if |ts| < 2 || !ts[1].Integer? then Step(Failed, Drop(ts, 2), symbols)
      else
        var eol := |ts| > 2 && ts[2] == Eol;
        Step(if eol then Found(Data(ts[0].name, Signed(ts[1].w))) else Failed, Drop(ts, 3), symbols)
    else Step(Failed, ts, symbols)
  }

  /** Empty lines and variable definitions are passed over; a section ends the text. */
  function NextStep(ts: seq<Token>, symbols: Symbols): (s: Step)
    ensures |s.rest| <= |ts| && (s.item.Found? ==> |s.rest| < |ts|)
    decreases |ts|
  {
    if ts == [] then Step(Nothing, [], symbols)
    else
      match ts[0]
      case Eol => NextStep(ts[1..], symbols)
      case Directive(name) => DirectiveStep(name, ts[1..], symbols)
      case LabelMark(name) =>
        Step(if |ts| > 1 && ts[1] == Eol then Found(Label(name)) else Failed, Drop(ts, 2), symbols)
      case Section(_) => Step(Nothing, ts[1..], symbols)
      case Mnemonic(name) =>
        RunShrinks(Alternatives(name), ts[1..], symbols);
        var runs := RunAll(Alternatives(name), ts[1..], symbols);
        Step(if |runs.successes| == 1 then Found(Ins(runs.successes[0])) else Failed, runs.rest, symbols)
      case Variable(name) =>
        if |ts| < 2 || ts[1] != Equal then Step(Failed, Drop(ts, 2), symbols)
        else if |ts| < 3 || !ts[2].Integer? then Step(Failed, Drop(ts, 3), symbols)
        else NextStep(ts[3..], symbols[name := ts[2].w])
      case _ => Step(Failed, ts[1..], symbols)
  }

  /** The nodes of a text and the variables known at its end. */
  datatype Parsed = Parsed(nodes: seq<Node>, symbols: Symbols)

  /** What a token stream parses to, or None when a line is refused. */
  function ParseAll(ts: seq<Token>, symbols: Symbols): Option<Parsed>
    decreases |ts|
  {
    var s := NextStep(ts, symbols);
    match s.item
    case Nothing => Some(Parsed([], s.symbols))
    case Failed => None
    case Found(node) =>
      var rest := ParseAll(s.rest, s.symbols);
      if rest.None? then None else Some(Parsed([node] + rest.value.nodes, rest.value.symbols))
  }

  /** A line that names an unknown variable is swallowed by the PUSH before it: the text is
      accepted, and the line leaves no trace. */
  lemma SwallowedText()
    ensures ParseAll([Mnemonic("PUSH")] + PUSH_LINES, map[]) == Some(Parsed([Ins(IR(PushR, "r0"))], map[]))
  {
    hide RunAll, Alternatives;
    var ts: seq<Token>, none: Symbols := [Mnemonic("PUSH")] + PUSH_LINES, map[];
    var push := Ins(IR(PushR, "r0"));
    SwallowedLine();
    assert ts[1..] == PUSH_LINES;
    assert NextStep(ts, none) == Step(Found(push), [Eol], none);
    assert NextStep([Eol], none) == NextStep([], none);
    assert ParseAll([Eol], none) == Some(Parsed([], none));
    assert [push] + [] == [push];
  }

  /** The indexed shape in plain terms. */
  lemma IndexedTry(op: Op, ts: seq<Token>, symbols: Symbols)
    ensures var fits :=
        && |ts| >= 8 && ts[0].Identifier? && ts[1].Comma? && ts[2].LBracket? && ts[3].Identifier?
        && ts[4].Plus? && ts[5].Integer? && ts[6].RBracket? && ts[7].Eol?;
      Try(Indexed, op, ts, symbols)
      == if fits then Outcome(Some(IRRW(op, ts[0].name, ts[3].name, ts[5].w)), ts[8..]) else Outcome(None, ts)
  {
    var p := Pattern(Indexed);
    assert |ts| >= 8 ==> (Fits(p, ts) <==>
      SlotFits(p[0], ts[0]) && SlotFits(p[1], ts[1]) && SlotFits(p[2], ts[2]) && SlotFits(p[3], ts[3])
      && SlotFits(p[4], ts[4]) && SlotFits(p[5], ts[5]) && SlotFits(p[6], ts[6]) && SlotFits(p[7], ts[7]));
  }

  /** The three-register shape in plain terms. */
  lemma ThreeTry(op: Op, ts: seq<Token>, symbols: Symbols)
    ensures var fits :=
        && |ts| >= 6 && ts[0].Identifier? && ts[1].Comma? && ts[2].Identifier? && ts[3].Comma? && ts[4].Identifier?
            && ts[5].Eol?;
      Try(ThreeR, op, ts, symbols)
      == if fits then Outcome(Some(IRRR(op, ts[0].name, ts[2].name, ts[4].name)), ts[6..]) else Outcome(None, ts)
  {
    var p := Pattern(ThreeR);
    assert |ts| >= 6 ==> (Fits(p, ts) <==>
      SlotFits(p[0], ts[0]) && SlotFits(p[1], ts[1]) && SlotFits(p[2], ts[2]) && SlotFits(p[3], ts[3])
      && SlotFits(p[4], ts[4]) && SlotFits(p[5], ts[5]));
  }

  /** The two-register shape in plain terms. */
  lemma TwoTry(op: Op, ts: seq<Token>, symbols: Symbols)
    ensures var fits := |ts| >= 4 && ts[0].Identifier? && ts[1].Comma? && ts[2].Identifier? && ts[3].Eol?;
      Try(TwoR, op, ts, symbols)
      == if fits then Outcome(Some(IRR(op, ts[0].name, ts[2].name)), ts[4..]) else Outcome(None, ts)
  {
    var p := Pattern(TwoR);
    assert |ts| >= 4 ==> (Fits(p, ts) <==>
      SlotFits(p[0], ts[0]) && SlotFits(p[1], ts[1]) && SlotFits(p[2], ts[2]) && SlotFits(p[3], ts[3]));
  }

  lemma RunAt(alts: seq<Alternative>, k: nat, ts: seq<Token>, symbols: Symbols)
    requires k < |alts|
    ensures var o := Try(alts[k].shape, alts[k].op, ts, symbols);
      var r := RunAll(alts[k + 1..], o.rest, symbols);
      RunAll(alts[k..], ts, symbols) == Runs((if o.r.Some? then [o.r.value] else []) + r.successes, r.rest)
  {
    hide Try;
    assert alts[k..][1..] == alts[k + 1..];
  }

  lemma RunNone(ts: seq<Token>, symbols: Symbols)
    ensures RunAll([], ts, symbols) == Runs([], ts)
  {
  }

  class Parser {
    var tokens: seq<Token>
    var symbols: Symbols
    var nodes: seq<Node>

    /** A parser goes on with the nodes and variables of the files before. */
    constructor FromTokens(tokens: seq<Token>, nodes: seq<Node>, symbols: Symbols)
      ensures this.tokens == tokens && this.nodes == nodes && this.symbols == symbols
    {
      this.tokens, this.nodes, this.symbols := tokens, nodes, symbols;
    }

    // -------------------------------------------------------------- peeking and reading

    predicate Peek(n: nat, slot: Slot)
      reads this
    {
      n < |tokens| && SlotFits(slot, tokens[n])
    }

    /** The next token, which is taken off the stream; none at the end. */
    method ReadNext() returns (t: Option<Token>)
      modifies this`tokens
      ensures old(tokens) == [] ==> t == None && tokens == []
      ensures old(tokens) != [] ==> t == Some(old(tokens)[0]) && tokens == old(tokens)[1..]
    {
      if tokens == [] {
        return None;
      }
      t := Some(tokens[0]);
      tokens := tokens[1..];
    }

    method ReadName() returns (name: string)
      requires tokens != []
      modifies this`tokens
      ensures name == NameOf(old(tokens)[0]) && tokens == old(tokens)[1..]
    {
      name := NameOf(tokens[0]);
      tokens := tokens[1..];
    }

    method ReadEol() returns (ok: bool)
      modifies this`tokens
      ensures ok == (old(tokens) != [] && old(tokens)[0] == Eol)
      ensures tokens == if old(tokens) == [] then [] else old(tokens)[1..]
    {
      var t := ReadNext();
      ok := t == Some(Eol);
    }

    /** A literal, or the value of a variable that must be known. */
    method ReadNumber() returns (w: Option<Word>)
      requires tokens != []
      modifies this`tokens
      ensures w == ValueOf(old(tokens)[0], symbols) && tokens == old(tokens)[1..]
    {
      w := ValueOf(tokens[0], symbols);
      tokens := tokens[1..];
    }

    // -------------------------------------------------------------- alternatives

    method OpVoid(op: Op) returns (r: Option<Instruction>)
      modifies this`tokens
      ensures Outcome(r, tokens) == Try(NoOperand, op, old(tokens), symbols)
    {
      var eol := ReadEol();
      r := if eol then Some(I(op)) else None;
    }

    method OpR(op: Op) returns (r: Option<Instruction>)
      modifies this`tokens
      ensures Outcome(r, tokens) == Try(OneR, op, old(tokens), symbols)
    {
      if !Peek(0, Register) || !Peek(1, End) {
        return None;
      }
      var r1 := ReadName();
      var eol := ReadEol();
      return Some(IR(op, r1));
    }

    method OpRR(op: Op) returns (r: Option<Instruction>)
      modifies this`tokens
      ensures Outcome(r, tokens) == Try(TwoR, op, old(tokens), symbols)
    {
      hide Try;
      TwoTry(op, tokens, symbols);
      if !Peek(0, Register) || !Peek(1, AComma) || !Peek(2, Register) || !Peek(3, End) {
        return None;
      }
      ghost var ts := tokens;
      var r1 := ReadName();
      var comma := ReadNext();
      assert tokens == ts[2..];
      var r2 := ReadName();
      var eol := ReadEol();
      assert tokens == ts[4..];
      return Some(IRR(op, r1, r2));
    }

    method OpRRR(op: Op) returns (r: Option<Instruction>)
      modifies this`tokens
      ensures Outcome(r, tokens) == Try(ThreeR, op, old(tokens), symbols)
    {
      hide Try;
      ThreeTry(op, tokens, symbols);
      if !Peek(0, Register) || !Peek(1, AComma) || !Peek(2, Register) || !Peek(3, AComma)
         || !Peek(4, Register) || !Peek(5, End) {
        return None;
      }
      ghost var ts := tokens;
      var r1 := ReadName();
      var comma1 := ReadNext();
      assert tokens == ts[2..];
      var r2 := ReadName();
      var comma2 := ReadNext();
      assert tokens == ts[4..];
      var r3 := ReadName();
      var eol := ReadEol();
      assert tokens == ts[6..];
      return Some(IRRR(op, r1, r2, r3));
    }

    method OpRW(op: Op) returns (r: Option<Instruction>)
      modifies this`tokens
      ensures Outcome(r, tokens) == Try(RN, op, old(tokens), symbols)
    {
      if !Peek(0, Register) || !Peek(1, AComma) || !Peek(2, Number) || !Peek(3, End) {
        return None;
      }
      ghost var ts := tokens;
      var r1 := ReadName();
      var comma := ReadNext();
      assert tokens == ts[2..];
      var w1 := ReadNumber();
      assert tokens == ts[3..];
      if w1.None? {
        return None;
      }
      var eol := ReadEol();
      assert tokens == ts[4..];
      return Some(IRW(op, r1, w1.value));
    }

    method OpW(op: Op) returns (r: Option<Instruction>)
      modifies this`tokens
      ensures Outcome(r, tokens) == Try(N, op, old(tokens), symbols)
    {
      if !Peek(0, Number) || !Peek(1, End) {
        return None;
      }
      ghost var ts := tokens;
      var w1 := ReadNumber();
      assert tokens == ts[1..];
      if w1.None? {
        return None;
      }
      var eol := ReadEol();
      assert tokens == ts[2..];
      return Some(IW(op, w1.value));
    }

    method OpWR(op: Op) returns (r: Option<Instruction>)
      modifies this`tokens
      ensures Outcome(r, tokens) == Try(NR, op, old(tokens), symbols)
    {
      if !Peek(0, Number) || !Peek(1, AComma) || !Peek(2, Register) || !Peek(3, End) {
        return None;
      }
      ghost var ts := tokens;
      var w1 := ReadNumber();
      assert tokens == ts[1..];
      if w1.None? {
        return None;
      }
      var comma := ReadNext();
      assert tokens == ts[2..];
      var r1 := ReadName();
      var eol := ReadEol();
      assert tokens == ts[4..];
      return Some(IRW(op, r1, w1.value));
    }

    method OpAA(op: Op) returns (r: Option<Instruction>)
      modifies this`tokens
      ensures Outcome(r, tokens) == Try(OneA, op, old(tokens), symbols)
    {
      if !Peek(0, AbsoluteAddress) || !Peek(1, End) {
        return None;
      }
      ghost var ts := tokens;
      var a1 := ReadName();
      var eol := ReadEol();
      assert tokens == ts[2..];
      return Some(IA(op, a1, Absolute));
    }

    method OpAS(op: Op) returns (r: Option<Instruction>)
      modifies this`tokens
      ensures Outcome(r, tokens) == Try(OneS, op, old(tokens), symbols)
    {
      if !Peek(0, SegmentAddress) || !Peek(1, End) {
        return None;
      }
      ghost var ts := tokens;
      var a1 := ReadName();
      var eol := ReadEol();
      assert tokens == ts[2..];
      return Some(IA(op, a1, Segment));
    }

    method OpAAR(op: Op) returns (r: Option<Instruction>)
      modifies this`tokens
      ensures Outcome(r, tokens) == Try(AR, op, old(tokens), symbols)
    {
      if !Peek(0, AbsoluteAddress) || !Peek(1, AComma) || !Peek(2, Register) || !Peek(3, End) {
        return None;
      }
      ghost var ts := tokens;
      var a1 := ReadName();
      var comma := ReadNext();
      assert tokens == ts[2..];
      var r1 := ReadName();
      var eol := ReadEol();
      assert tokens == ts[4..];
      return Some(IRA(op, r1, a1, Absolute));
    }

    method OpRAA(op: Op) returns (r: Option<Instruction>)
      modifies this`tokens
      ensures Outcome(r, tokens) == Try(RA, op, old(tokens), symbols)
    {
      if !Peek(0, Register) || !Peek(1, AComma) || !Peek(2, AbsoluteAddress) || !Peek(3, End) {
        return None;
      }
      ghost var ts := tokens;
      var r1 := ReadName();
      var comma := ReadNext();
      assert tokens == ts[2..];
      var a1 := ReadName();
      var eol := ReadEol();
      assert tokens == ts[4..];
      return Some(IRA(op, r1, a1, Absolute));
    }

    method OpRAS(op: Op) returns (r: Option<Instruction>)
      modifies this`tokens
      ensures Outcome(r, tokens) == Try(RS, op, old(tokens), symbols)
    {
      if !Peek(0, Register) || !Peek(1, AComma) || !Peek(2, SegmentAddress) || !Peek(3, End) {
        return None;
      }
      ghost var ts := tokens;
      var r1 := ReadName();
      var comma := ReadNext();
      assert tokens == ts[2..];
      var a1 := ReadName();
      var eol := ReadEol();
      assert tokens == ts[4..];
      return Some(IRA(op, r1, a1, Segment));
    }

    /** The sixth place accepts a literal, or else asks whether the fourth one is a variable,
        which it is not, being a register. */
    method OpRO(op: Op) returns (r: Option<Instruction>)
      modifies this`tokens
      ensures Outcome(r, tokens) == Try(Indexed, op, old(tokens), symbols)
    {
      hide Try, Pattern, Build;
      IndexedTry(op, tokens, symbols);
      if !Peek(0, Register) || !Peek(1, AComma) || !Peek(2, ALeft) || !Peek(3, Register) || !Peek(4, APlus) {
        return None;
      }
      if !Peek(5, Literal) && !(tokens[3].Variable?) {
        return None;
      }
      if !Peek(6, ARight) || !Peek(7, End) {
        return None;
      }
      var r1, r2, w1 := ReadIndexed();
      return if w1.Some? then Some(IRRW(op, r1, r2, w1.value)) else None;
    }

    method ReadIndexed() returns (r1: string, r2: string, w: Option<Word>)
      requires |tokens| >= 8 && tokens[5].Integer?
      modifies this`tokens
      ensures r1 == NameOf(old(tokens)[0]) && r2 == NameOf(old(tokens)[3]) && w == Some(old(tokens)[5].w)
      ensures tokens == old(tokens)[8..]
    {
      ghost var ts := tokens;
      r1 := ReadName();
      var comma := ReadNext();
      assert tokens == ts[2..];
      var left := ReadNext();
      assert tokens == ts[3..];
      r2 := ReadName();
      assert tokens == ts[4..];
      var plus := ReadNext();
      assert tokens == ts[5..];
      w := ReadNumber();
      assert tokens == ts[6..];
      var right := ReadNext();
      assert tokens == ts[7..];
      var eol := ReadEol();
      assert tokens == ts[8..];
    }

    /** A number that does not fit a byte is taken with its line before it is refused. */
    method OpB(op: Op) returns (r: Option<Instruction>)
      modifies this`tokens
      ensures Outcome(r, tokens) == Try(Small, op, old(tokens), symbols)
    {
      if !Peek(0, Number) || !Peek(1, End) {
        return None;
      }
      var w1 := ReadNumber();
      if w1.None? {
        return None;
      }
      var eol := ReadEol();
      return if w1.value > 255 then None else Some(IB(op, w1.value));
    }

    method Run(a: Alternative) returns (r: Option<Instruction>)
      modifies this`tokens
      ensures Outcome(r, tokens) == Try(a.shape, a.op, old(tokens), symbols)
    {
      hide Try;
      match a.shape
      case NoOperand => r := OpVoid(a.op);
      case OneR => r := OpR(a.op);
      case TwoR => r := OpRR(a.op);
      case ThreeR => r := OpRRR(a.op);
      case RN => r := OpRW(a.op);
      case N => r := OpW(a.op);
      case NR => r := OpWR(a.op);
      case OneA => r := OpAA(a.op);
      case OneS => r := OpAS(a.op);
      case AR => r := OpAAR(a.op);
      case RA => r := OpRAA(a.op);
      case RS => r := OpRAS(a.op);
      case Indexed => r := OpRO(a.op);
      case Small => r := OpB(a.op);
    }

    /** Runs every alternative on the stream and accepts exactly one success. */
    method ParseOp(alts: seq<Alternative>) returns (r: Option<Instruction>)
      modifies this`tokens
      ensures var runs := RunAll(alts, old(tokens), symbols);
        tokens == runs.rest && r == if |runs.successes| == 1 then Some(runs.successes[0]) else None
    {
      hide Try, RunAll;
      assert alts[0..] == alts;
      var successes: seq<Instruction> := [];
      var k := 0;
      while k < |alts|
        invariant k <= |alts|
        invariant var rest := RunAll(alts[k..], tokens, symbols);
          RunAll(alts, old(tokens), symbols) == Runs(successes + rest.successes, rest.rest)
      {
        RunAt(alts, k, tokens, symbols);
        var i := Run(alts[k]);
        if i.Some? {
          successes := successes + [i.value];
        }
        k := k + 1;
      }
      RunNone(tokens, symbols);
      assert alts[k..] == [] && successes + [] == successes;
      return if |successes| == 1 then Some(successes[0]) else None;
    }

    // -------------------------------------------------------------- lines

    method ParseDirective(name: string) returns (item: Item)
      modifies this`tokens
      ensures Step(item, tokens, symbols) == DirectiveStep(name, old(tokens), symbols)
    {
      if Lower(name) == "base" {
        var t := ReadNext();
        var w := if t.None? then None else ValueOf(t.value, symbols);
        var eol := ReadEol();
        return if eol && w.Some? then Found(Base(w.value)) else Failed;
      }
      if Lower(name) == "word" {
        var identifier := ReadNext();
        if identifier.None? || !identifier.value.Identifier? {
          return Failed;
        }
        var value := ReadNext();
        if value.None? || !value.value.Integer? {
          return Failed;
        }
        var eol := ReadEol();
        return if eol then Found(Data(identifier.value.name, Signed(value.value.w))) else Failed;
      }
      return Failed;
    }

    /** `= <integer>` after a variable name. */
    method ParseVariable(name: string) returns (ok: bool)
      modifies this`tokens, this`symbols
      ensures var ts := old(tokens);
        && ok == (|ts| > 1 && ts[0] == Equal && ts[1].Integer?)
        && tokens == Drop(ts, if ts != [] && ts[0] == Equal then 2 else 1)
        && symbols == if ok then old(symbols)[name := ts[1].w] else old(symbols)
    {
      var equal := ReadNext();
      if equal != Some(Equal) {
        return false;
      }
      var value := ReadNext();
      if value.None? || !value.value.Integer? {
        return false;
      }
      symbols := symbols[name := value.value.w];
      return true;
    }

    method Next() returns (item: Item)
      modifies this`tokens, this`symbols
      ensures Step(item, tokens, symbols) == NextStep(old(tokens), old(symbols))
    {
      hide RunAll, Alternatives, DirectiveStep;
      while true
        invariant NextStep(tokens, symbols) == NextStep(old(tokens), old(symbols))
        decreases |tokens|
      {
        var t := ReadNext();
        match t {
          case None => return Nothing;
          case Some(Eol) =>
          case Some(Directive(name)) =>
            item := ParseDirective(name);
            return;
          case Some(LabelMark(name)) =>
            var eol := ReadEol();
            return if eol then Found(Label(name)) else Failed;
          case Some(Section(_)) => return Nothing;
          case Some(Mnemonic(name)) =>
            var i := ParseOp(Alternatives(name));
            return if i.Some? then Found(Ins(i.value)) else Failed;
          case Some(Variable(name)) =>
            var ok := ParseVariable(name);
            if !ok {
              return Failed;
            }
          case Some(_) => return Failed;
        }
      }
    }

    /** Parses the whole stream; the nodes read before a refused line stay in the list. */
    method Parse() returns (ok: bool)
      modifies this
      ensures var all := ParseAll(old(tokens), old(symbols));
        ok == all.Some? && (ok ==> nodes == old(nodes) + all.value.nodes && symbols == all.value.symbols)
    {
      hide NextStep;
      while true
        invariant old(nodes) <= nodes
        invariant var all, rest := ParseAll(old(tokens), old(symbols)), ParseAll(tokens, symbols);
          && all.Some? == rest.Some?
          && (all.Some? ==> nodes + rest.value.nodes == old(nodes) + all.value.nodes
                            && rest.value.symbols == all.value.symbols)
        decreases |tokens|
      {
        var item := Next();
        match item
        case Nothing => return true;
        case Failed => return false;
        case Found(node) => nodes := nodes + [node];
      }
    }
  }
}
