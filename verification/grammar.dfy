/** The operand grammar of the assembler: which token lines each mnemonic accepts, and that no
    line is accepted by two of its alternatives. */
module Grammar {
  import opened Words
  import opened Isa
  import opened Assembler

  datatype Token =
    | Address(name: string, kind: AddressKind)
    | Comma | LBracket | RBracket | Plus | Equal | Eol
    | Directive(name: string)
    | Identifier(name: string)
    | Integer(w: Word)
    | LabelMark(name: string)
    | Mnemonic(name: string)
    | Section(name: string)
    | Variable(name: string)
    | Bad

  type Symbols = map<string, Word>

  /** What one place of a line may hold. Number accepts a literal or a variable, Literal only a
      literal. */
  datatype Slot = Register | Number | Literal | AbsoluteAddress | SegmentAddress | AComma | ALeft | ARight | APlus | End

  /** The operand shapes; Small is a number that must fit a byte. */
  datatype Shape = NoOperand | OneR | TwoR | ThreeR | RN | N | NR | OneA | OneS | AR | RA | RS | Indexed | Small

  function Pattern(s: Shape): (p: seq<Slot>)
    ensures |p| > 0 && p[|p| - 1] == End && forall k :: 0 <= k < |p| - 1 ==> p[k] != End
  {
    match s
    case NoOperand => [End]
    case OneR => [Register, End]
    case TwoR => [Register, AComma, Register, End]
    case ThreeR => [Register, AComma, Register, AComma, Register, End]
    case RN => [Register, AComma, Number, End]
    case N => [Number, End]
    case NR => [Number, AComma, Register, End]
    case OneA => [AbsoluteAddress, End]
    case OneS => [SegmentAddress, End]
    case AR => [AbsoluteAddress, AComma, Register, End]
    case RA => [Register, AComma, AbsoluteAddress, End]
    case RS => [Register, AComma, SegmentAddress, End]
    case Indexed => [Register, AComma, ALeft, Register, APlus, Literal, ARight, End]
    case Small => [Number, End]
  }

  predicate SlotFits(slot: Slot, t: Token) {
    match slot
    case Register => t.Identifier?
    case Number => t.Integer? || t.Variable?
    case Literal => t.Integer?
    case AbsoluteAddress => t.Address? && t.kind.Absolute?
    case SegmentAddress => t.Address? && t.kind.Segment?
    case AComma => t.Comma?
    case ALeft => t.LBracket?
    case ARight => t.RBracket?
    case APlus => t.Plus?
    case End => t.Eol?
  }

  predicate Fits(p: seq<Slot>, ts: seq<Token>) {
    |p| <= |ts| && forall k :: 0 <= k < |p| ==> SlotFits(p[k], ts[k])
  }

  /** A fitting line ends with the first end of line. */
  lemma FitsOneLine(s: Shape, ts: seq<Token>)
    requires Fits(Pattern(s), ts)
    ensures ts[|Pattern(s)| - 1] == Eol && forall k :: 0 <= k < |Pattern(s)| - 1 ==> ts[k] != Eol
  {
    hide Pattern;
    var p := Pattern(s);
    assert SlotFits(p[|p| - 1], ts[|p| - 1]);
    forall k | 0 <= k < |p| - 1 ensures ts[k] != Eol {
      assert SlotFits(p[k], ts[k]);
    }
  }

  // ---------------------------------------------------------------- one alternative

  /** The value of a number token; a variable must be known. */
  function ValueOf(t: Token, symbols: Symbols): Option<Word> {
    match t
    case Integer(w) => Some(w)
    case Variable(name) => if name in symbols then Some(symbols[name]) else None
    case _ => None
  }

  /** Where a shape has its number, if it has one. */
  function NumberAt(s: Shape): Option<nat> {
    match s
    case RN => Some(2)
    case N => Some(0)
    case NR => Some(0)
    case Small => Some(0)
    case Indexed => Some(5)
    case _ => None
  }

  function NameOf(t: Token): string {
    if t.Identifier? || t.Address? then t.name else ""
  }

  /** The instruction a fitting line stands for, when its number has the value w. */
  function Build(s: Shape, op: Op, ts: seq<Token>, w: Word): Instruction
    requires |Pattern(s)| <= |ts|
  {
    match s
    case NoOperand => I(op)
    case OneR => IR(op, NameOf(ts[0]))
    case TwoR => IRR(op, NameOf(ts[0]), NameOf(ts[2]))
    case ThreeR => IRRR(op, NameOf(ts[0]), NameOf(ts[2]), NameOf(ts[4]))
    case RN => IRW(op, NameOf(ts[0]), w)
    case N => IW(op, w)
    case NR => IRW(op, NameOf(ts[2]), w)
    case OneA => IA(op, NameOf(ts[0]), Absolute)
    case OneS => IA(op, NameOf(ts[0]), Segment)
    case AR => IRA(op, NameOf(ts[2]), NameOf(ts[0]), Absolute)
    case RA => IRA(op, NameOf(ts[0]), NameOf(ts[2]), Absolute)
    case RS => IRA(op, NameOf(ts[0]), NameOf(ts[2]), Segment)
    case Indexed => IRRW(op, NameOf(ts[0]), NameOf(ts[3]), w)
    case Small => IB(op, w % 256)
  }

  datatype Outcome = Outcome(r: Option<Instruction>, rest: seq<Token>)

  /** What one alternative does to the stream. One that does not fit leaves it alone, except the
      empty shape, which always takes a token; an unknown variable is taken and then fails. */
  function Try(s: Shape, op: Op, ts: seq<Token>, symbols: Symbols): Outcome {
    var n := |Pattern(s)|;
    if !Fits(Pattern(s), ts) then Outcome(None, if s.NoOperand? && ts != [] then ts[1..] else ts)
    else
      match NumberAt(s)
      case None => Outcome(Some(Build(s, op, ts, 0)), ts[n..])
      case Some(j) =>
        match ValueOf(ts[j], symbols)
        case None => Outcome(None, ts[j + 1..])
        case Some(w) => Outcome(if s.Small? && w > 255 then None else Some(Build(s, op, ts, w)), ts[n..])
  }

  // ---------------------------------------------------------------- the table of mnemonics

  datatype Alternative = Alternative(op: Op, shape: Shape)

  function Binary(f: AluFn): seq<Alternative> {
    [Alternative(Alu(f, Reg), TwoR), Alternative(Alu(f, Imm), RN)]
  }

  function Jumps(cond: Cond): seq<Alternative> {
    [Alternative(Jump(cond, Absolute), OneA), Alternative(Jump(cond, Segment), OneS)]
  }

  function Plain(op: Op): seq<Alternative> {
    [Alternative(op, NoOperand)]
  }

  function Byted(op: Op): seq<Alternative> {
    [Alternative(op, Small)]
  }

  const CALLS: seq<Alternative> := [Alternative(Call(Segment), OneS), Alternative(Call(Absolute), OneA),
      Alternative(CallR, OneR)]
  const COMPARES: seq<Alternative> := [Alternative(Cmp(Reg), TwoR), Alternative(Cmp(Imm), RN)]
  const LOADS: seq<Alternative> :=
    [Alternative(LoadRR, TwoR), Alternative(LoadRW, RN), Alternative(LoadRW, RA), Alternative(LoadRRW, Indexed)]
  const MOVES: seq<Alternative> :=
    [Alternative(Mov(Reg), TwoR), Alternative(Mov(Imm), RN), Alternative(Mov(Imm), RA), Alternative(Mov(Imm), RS)]
  const POPS: seq<Alternative> := [Alternative(PopR, OneR), Alternative(PopRR, TwoR), Alternative(PopRRR, ThreeR)]
  const PUSHES: seq<Alternative> :=
    [Alternative(PushR, OneR), Alternative(PushRR, TwoR), Alternative(PushRRR, ThreeR), Alternative(PushW, N)]
  const STORES: seq<Alternative> := [Alternative(Stor(Reg), TwoR), Alternative(Stor(Imm), NR),
      Alternative(Stor(Imm), AR)]

  /** The alternatives of a mnemonic, in the order they are tried; none for an unknown one. */
  function Alternatives(name: string): seq<Alternative> {
    match name
    case "ADD" => Binary(Add)
    case "AND" => Binary(Band)
    case "CALL" => CALLS
    case "CMP" => COMPARES
    case "DEC" => [Alternative(Dec, OneR)]
    case "HALT" => Plain(Halt)
    case "INC" => [Alternative(Inc, OneR)]
    case "IND" => Plain(Ind)
    case "INE" => Plain(Ine)
    case "INT" => Byted(Int)
    case "J" => Jumps(Always)
    case "JEQ" => Jumps(IfZero)
    case "JNE" => Jumps(IfNotZero)
    case "LOAD" => LOADS
    case "MI" => Byted(Mi)
    case "MOV" => MOVES
    case "MUL" => Binary(Mul)
    case "NOP" => Plain(Nop)
    case "OR" => Binary(Bor)
    case "PANIC" => Plain(Panic)
    case "POP" => POPS
    case "POPA" => Plain(Popa)
    case "PUSH" => PUSHES
    case "PUSHA" => Plain(Pusha)
    case "RET" => Plain(Ret)
    case "STOR" => STORES
    case "SUB" => Binary(Sub)
    case "UMI" => Byted(Umi)
    case "IRET" => Plain(Iret)
    case "WFI" => Plain(Wfi)
    case "XBM" => Byted(Xbm)
    case "XBRK" => Plain(Xbrk)
    case "XDBG" => Plain(Xdbg)
    case "XPSE" => Plain(Xpse)
    case "XPSD" => Plain(Xpsd)
    case "XOR" => Binary(Bxor)
    case _ => []
  }

  // ---------------------------------------------------------------- the alternatives exclude each other

  predicate Apart(a: Slot, b: Slot) {
    a != b && !(a == Number && b == Literal) && !(a == Literal && b == Number)
  }

  lemma SlotsApart(a: Slot, b: Slot, t: Token)
    requires Apart(a, b)
    ensures !(SlotFits(a, t) && SlotFits(b, t))
  {
  }

  /** The two shapes differ at a place both have. */
  predicate Clash(s: Shape, t: Shape) {
    var p, q := Pattern(s), Pattern(t);
    exists k :: 0 <= k < |p| && k < |q| && Apart(p[k], q[k])
  }

  lemma ClashExcludes(s: Shape, t: Shape, ts: seq<Token>)
    requires Clash(s, t)
    ensures !(Fits(Pattern(s), ts) && Fits(Pattern(t), ts))
  {
    hide Pattern;
    var p, q := Pattern(s), Pattern(t);
    var k :| 0 <= k < |p| && k < |q| && Apart(p[k], q[k]);
    if Fits(p, ts) && Fits(q, ts) {
      SlotsApart(p[k], q[k], ts[k]);
    }
  }

  /** No line fits two alternatives, and shapes that fail after taking tokens stand alone or
      leave nothing a later alternative could take up. */
  ghost predicate Good(alts: seq<Alternative>) {
    && (forall i, j :: 0 <= i < j < |alts| ==> Clash(alts[i].shape, alts[j].shape))
    && (|alts| > 1 ==> forall i :: 0 <= i < |alts| ==> alts[i].shape != NoOperand && alts[i].shape != Small)
    && (forall i, ts, w :: 0 <= i < |alts| && |Pattern(alts[i].shape)| <= |ts| ==>
        WellShaped(Build(alts[i].shape, alts[i].op, ts, w)))
  }

  lemma Clashes(s: Shape, t: Shape, k: nat)
    requires k < |Pattern(s)| && k < |Pattern(t)| && Apart(Pattern(s)[k], Pattern(t)[k])
    ensures Clash(s, t)
  {
  }

  lemma ClashTable()
    ensures Clash(TwoR, RN) && Clash(OneA, OneS) && Clash(OneS, OneA) && Clash(OneS, OneR) && Clash(OneA, OneR)
    ensures Clash(TwoR, RA) && Clash(TwoR, Indexed) && Clash(RN, RA) && Clash(RN, Indexed) && Clash(RA, Indexed)
    ensures Clash(TwoR, RS) && Clash(RN, RS) && Clash(RA, RS)
    ensures Clash(OneR, TwoR) && Clash(OneR, ThreeR) && Clash(TwoR, ThreeR)
    ensures Clash(OneR, N) && Clash(TwoR, N) && Clash(ThreeR, N)
    ensures Clash(TwoR, NR) && Clash(TwoR, AR) && Clash(NR, AR)
  {
    hide Clash;
    Clashes(TwoR, RN, 2);
    Clashes(OneA, OneS, 0);
    Clashes(OneS, OneA, 0);
    Clashes(OneS, OneR, 0);
    Clashes(OneA, OneR, 0);
    Clashes(TwoR, RA, 2);
    Clashes(TwoR, Indexed, 2);
    Clashes(RN, RA, 2);
    Clashes(RN, Indexed, 2);
    Clashes(RA, Indexed, 2);
    Clashes(TwoR, RS, 2);
    Clashes(RN, RS, 2);
    Clashes(RA, RS, 2);
    Clashes(OneR, TwoR, 1);
    Clashes(OneR, ThreeR, 1);
    Clashes(TwoR, ThreeR, 3);
    Clashes(OneR, N, 0);
    Clashes(TwoR, N, 0);
    Clashes(ThreeR, N, 0);
    Clashes(TwoR, NR, 0);
    Clashes(TwoR, AR, 0);
    Clashes(NR, AR, 0);
  }

  /** The letters of the instruction a shape builds. */
  function ShapeLetters(s: Shape): seq<Arg> {
    match s
    case NoOperand => []
    case OneR => [R]
    case TwoR => [R, R]
    case ThreeR => [R, R, R]
    case RN => [R, W]
    case N => [W]
    case NR => [R, W]
    case OneA => [A]
    case OneS => [S]
    case AR => [R, W]
    case RA => [R, W]
    case RS => [R, W]
    case Indexed => [R, R, W]
    case Small => [B]
  }

  lemma BuildLetters(s: Shape, op: Op, ts: seq<Token>, w: Word)
    requires |Pattern(s)| <= |ts|
    ensures Letters(Build(s, op, ts, w)) == ShapeLetters(s)
  {
    hide NameOf, Pattern;
    match s
    case NoOperand =>
    case OneR =>
    case TwoR =>
    case ThreeR =>
    case RN =>
    case N =>
    case NR =>
    case OneA =>
    case OneS =>
    case AR =>
    case RA =>
    case RS =>
    case Indexed =>
    case Small =>
  }

  lemma BuildOp(s: Shape, op: Op, ts: seq<Token>, w: Word)
    requires |Pattern(s)| <= |ts|
    ensures Build(s, op, ts, w).op == op && (s == Small ==> Build(s, op, ts, w).IB?)
  {
    hide NameOf, Pattern;
    match s
    case NoOperand =>
    case OneR =>
    case TwoR =>
    case ThreeR =>
    case RN =>
    case N =>
    case NR =>
    case OneA =>
    case OneS =>
    case AR =>
    case RA =>
    case RS =>
    case Indexed =>
    case Small =>
  }

  lemma GoodIf(alts: seq<Alternative>)
    requires forall i, j :: 0 <= i < j < |alts| ==> Clash(alts[i].shape, alts[j].shape)
    requires |alts| > 1 ==> forall i :: 0 <= i < |alts| ==> alts[i].shape != NoOperand && alts[i].shape != Small
    requires forall i :: 0 <= i < |alts| ==>
               ShapeLetters(alts[i].shape) == Args(alts[i].op) || (alts[i].shape == Small && alts[i].op == Xbm)
    ensures Good(alts)
  {
    hide Clash, Pattern, ShapeLetters, Build, Args, Letters;
    forall i, ts, w | 0 <= i < |alts| && |Pattern(alts[i].shape)| <= |ts|
      ensures WellShaped(Build(alts[i].shape, alts[i].op, ts, w))
    {
      BuildLetters(alts[i].shape, alts[i].op, ts, w);
      BuildOp(alts[i].shape, alts[i].op, ts, w);
    }
  }

  lemma SimpleGood(op: Op)
    ensures Args(op) == [] ==> Good(Plain(op))
    ensures Args(op) == [B] || op == Xbm ==> Good(Byted(op))
    ensures Args(op) == [R] ==> Good([Alternative(op, OneR)])
  {
    hide Good, Clash, Pattern, Args;
    if Args(op) == [] {
      GoodIf(Plain(op));
    }
    if Args(op) == [B] || op == Xbm {
      GoodIf(Byted(op));
    }
    if Args(op) == [R] {
      GoodIf([Alternative(op, OneR)]);
    }
  }

  lemma PairsGood(f: AluFn, cond: Cond)
    ensures Good(Binary(f)) && Good(Jumps(cond)) && Good(COMPARES)
  {
    hide Good, Clash, Pattern;
    ClashTable();
    GoodIf(Binary(f));
    GoodIf(Jumps(cond));
    GoodIf(COMPARES);
  }

  lemma TransfersGood()
    ensures Good(CALLS) && Good(LOADS) && Good(MOVES)
  {
    hide Good, Clash, Pattern;
    ClashTable();
    GoodIf(CALLS);
    GoodIf(LOADS);
    GoodIf(MOVES);
  }

  lemma StackGood()
    ensures Good(POPS) && Good(PUSHES) && Good(STORES)
  {
    hide Good, Clash, Pattern;
    ClashTable();
    GoodIf(POPS);
    GoodIf(PUSHES);
    GoodIf(STORES);
  }

  lemma NoneGood()
    ensures Good([])
  {
  }

  /** Every mnemonic's alternatives exclude each other and build what their operations declare;
      the one exception is XBM, which is given a byte its declaration does not have. */
  lemma AlternativesGood(name: string)
    ensures Good(Alternatives(name))
  {
    hide Good, Binary, Jumps, Plain, Byted, Args;
    forall f ensures Good(Binary(f)) {
      PairsGood(f, Always);
    }
    forall cond ensures Good(Jumps(cond)) {
      PairsGood(Add, cond);
    }
    PairsGood(Add, Always);
    PlainsGood();
    MorePlainsGood();
    BytesGood();
    TransfersGood();
    StackGood();
    NoneGood();
  }

  lemma PlainsGood()
    ensures Good(Plain(Halt)) && Good(Plain(Ind)) && Good(Plain(Ine)) && Good(Plain(Nop)) && Good(Plain(Panic))
    ensures Good(Plain(Popa)) && Good(Plain(Pusha))
  {
    hide Good, Plain, Byted;
    forall op | Args(op) == [] ensures Good(Plain(op)) {
      SimpleGood(op);
    }
  }

  lemma MorePlainsGood()
    ensures Good(Plain(Ret)) && Good(Plain(Iret)) && Good(Plain(Wfi))
    ensures Good(Plain(Xbrk)) && Good(Plain(Xdbg)) && Good(Plain(Xpse)) && Good(Plain(Xpsd))
  {
    hide Good, Plain, Byted;
    forall op | Args(op) == [] ensures Good(Plain(op)) {
      SimpleGood(op);
    }
  }

  lemma BytesGood()
    ensures Good(Byted(Int)) && Good(Byted(Mi)) && Good(Byted(Umi)) && Good(Byted(Xbm))
    ensures Good([Alternative(Dec, OneR)]) && Good([Alternative(Inc, OneR)])
  {
    hide Good;
    SimpleGood(Int);
    SimpleGood(Mi);
    SimpleGood(Umi);
    SimpleGood(Xbm);
    SimpleGood(Dec);
    SimpleGood(Inc);
  }

  // ---------------------------------------------------------------- running all alternatives

  datatype Runs = Runs(successes: seq<Instruction>, rest: seq<Token>)

  /** Every alternative in turn, each on the stream the one before left. */
  function RunAll(alts: seq<Alternative>, ts: seq<Token>, symbols: Symbols): Runs {
    if alts == [] then Runs([], ts)
    else
      var o := Try(alts[0].shape, alts[0].op, ts, symbols);
      var r := RunAll(alts[1..], o.rest, symbols);
      Runs((if o.r.Some? then [o.r.value] else []) + r.successes, r.rest)
  }

  /** No operand shape fits the stream. */
  predicate Dead(ts: seq<Token>) {
    ts == [] ||
    match ts[0]
    case Identifier(_) => false
    case Integer(_) => false
    case Address(_, _) => false
    case Variable(_) => |ts| == 1 || (ts[1] != Eol && ts[1] != Comma)
    case _ => true
  }

  /** What may follow a complete line: the end, an empty line, a directive, a label, a section,
      a mnemonic or a variable definition. */
  predicate LegalStart(ts: seq<Token>) {
    ts == [] ||
    match ts[0]
    case Eol => true
    case Directive(_) => true
    case LabelMark(_) => true
    case Section(_) => true
    case Mnemonic(_) => true
    case Variable(_) => |ts| > 1 && ts[1] == Equal
    case _ => false
  }

  lemma LegalIsDead(ts: seq<Token>)
    ensures LegalStart(ts) ==> Dead(ts)
  {
  }

  lemma DeadFails(s: Shape, ts: seq<Token>)
    requires s != NoOperand && Dead(ts)
    ensures !Fits(Pattern(s), ts)
  {
    if |ts| >= 2 {
      assert !(SlotFits(Pattern(s)[0], ts[0]) && SlotFits(Pattern(s)[1], ts[1]));
    }
  }

  lemma NumberInside(s: Shape)
    ensures NumberAt(s).Some? ==> NumberAt(s).value + 1 < |Pattern(s)|
  {
  }

  /** A line given up at an unknown variable leaves nothing a later alternative could take up. */
  lemma GivenUp(s: Shape, ts: seq<Token>, symbols: Symbols)
    requires Fits(Pattern(s), ts) && NumberAt(s).Some? && ValueOf(ts[NumberAt(s).value], symbols).None?
    ensures Dead(ts[NumberAt(s).value + 1..])
  {
    var j := NumberAt(s).value;
    assert SlotFits(Pattern(s)[j], ts[j]) && SlotFits(Pattern(s)[j + 1], ts[j + 1]);
  }

  predicate Succeeds(a: Alternative, ts: seq<Token>, symbols: Symbols): (b: bool)
    ensures b ==> |Pattern(a.shape)| <= |ts|
  {
    Try(a.shape, a.op, ts, symbols).r.Some?
  }

  /** The instruction of an alternative that succeeds. */
  function Built(a: Alternative, ts: seq<Token>, symbols: Symbols): Instruction
    requires Succeeds(a, ts, symbols)
  {
    Try(a.shape, a.op, ts, symbols).r.value
  }

  lemma FitsIfSucceeds(a: Alternative, ts: seq<Token>, symbols: Symbols)
    ensures Succeeds(a, ts, symbols) ==> Fits(Pattern(a.shape), ts)
  {
    hide Pattern, Fits;
  }

  /** No line fits two of the alternatives, and one that does not fit leaves the stream alone. */
  ghost predicate Exclusive(alts: seq<Alternative>) {
    && (forall i, j :: 0 <= i < j < |alts| ==> Clash(alts[i].shape, alts[j].shape))
    && (forall i :: 0 <= i < |alts| ==> alts[i].shape != NoOperand)
  }

  lemma {:induction false} RunShrinks(alts: seq<Alternative>, ts: seq<Token>, symbols: Symbols)
    ensures |RunAll(alts, ts, symbols).rest| <= |ts|
    decreases |alts|
  {
    hide Pattern, Build;
    if alts != [] {
      NumberInside(alts[0].shape);
      RunShrinks(alts[1..], Try(alts[0].shape, alts[0].op, ts, symbols).rest, symbols);
    }
  }

  lemma {:induction false} NoneFits(alts: seq<Alternative>, ts: seq<Token>, symbols: Symbols)
    requires forall i :: 0 <= i < |alts| ==> alts[i].shape != NoOperand && !Fits(Pattern(alts[i].shape), ts)
    ensures RunAll(alts, ts, symbols) == Runs([], ts)
    decreases |alts|
  {
    hide Pattern, Build, Fits;
    if alts != [] {
      NoneFits(alts[1..], ts, symbols);
    }
  }

  /** The alternative that fits decides what the stream is for the ones behind it. */
  lemma {:induction false} OneFits(alts: seq<Alternative>, i: nat, ts: seq<Token>, symbols: Symbols)
    requires Exclusive(alts) && i < |alts| && Fits(Pattern(alts[i].shape), ts)
    ensures var o := Try(alts[i].shape, alts[i].op, ts, symbols);
      var r := RunAll(alts[i + 1..], o.rest, symbols);
      RunAll(alts, ts, symbols) == Runs((if o.r.Some? then [o.r.value] else []) + r.successes, r.rest)
    decreases i
  {
    hide Pattern, Build, Fits, Clash, NumberAt;
    if i > 0 {
      ClashExcludes(alts[0].shape, alts[i].shape, ts);
      OneFits(alts[1..], i - 1, ts, symbols);
      assert alts[1..][i..] == alts[i + 1..];
    }
  }

  /** A fitting alternative takes at least a token. When it fails, nothing fits any more. */
  lemma AfterFit(a: Alternative, ts: seq<Token>, symbols: Symbols)
    requires Fits(Pattern(a.shape), ts)
    ensures var o := Try(a.shape, a.op, ts, symbols);
      && |o.rest| < |ts|
      && (Succeeds(a, ts, symbols) ==> o.rest == ts[|Pattern(a.shape)|..])
      && (!Succeeds(a, ts, symbols) && a.shape != Small ==> Dead(o.rest))
  {
    hide Pattern, Build, Dead, ValueOf, NumberAt;
    NumberInside(a.shape);
    if NumberAt(a.shape).Some? && ValueOf(ts[NumberAt(a.shape).value], symbols).None? {
      GivenUp(a.shape, ts, symbols);
    }
  }

  /** What a list of alternatives does to a stream, in terms of what each would do to it. */
  lemma RunOutcome(alts: seq<Alternative>, ts: seq<Token>, symbols: Symbols)
    requires Exclusive(alts) && forall i :: 0 <= i < |alts| ==> alts[i].shape != Small
    ensures var r := RunAll(alts, ts, symbols);
      && (r.successes == [] <==> forall i :: 0 <= i < |alts| ==> !Succeeds(alts[i], ts, symbols))
      && (r.rest == ts <==> forall i :: 0 <= i < |alts| ==> !Fits(Pattern(alts[i].shape), ts))
  {
    hide Pattern, Build, Fits, Clash, Dead, RunAll, ValueOf, NumberAt;
    if i :| 0 <= i < |alts| && Fits(Pattern(alts[i].shape), ts) {
      var o := Try(alts[i].shape, alts[i].op, ts, symbols);
      OneFits(alts, i, ts, symbols);
      AfterFit(alts[i], ts, symbols);
      RunShrinks(alts[i + 1..], o.rest, symbols);
      if o.r.None? {
        NothingAfter(alts[i + 1..], o.rest, symbols);
        OthersFail(alts, i, ts, symbols);
      }
    } else {
      NoneFits(alts, ts, symbols);
    }
  }

  lemma OthersFail(alts: seq<Alternative>, i: nat, ts: seq<Token>, symbols: Symbols)
    requires Exclusive(alts) && i < |alts| && Fits(Pattern(alts[i].shape), ts)
    ensures forall j :: 0 <= j < |alts| && j != i ==>
            !Fits(Pattern(alts[j].shape), ts) && !Succeeds(alts[j], ts, symbols)
  {
    hide Pattern, Build, Fits, Clash;
    forall j | 0 <= j < |alts| && j != i ensures !Fits(Pattern(alts[j].shape), ts) {
      if j < i {
        ClashExcludes(alts[j].shape, alts[i].shape, ts);
      } else {
        ClashExcludes(alts[i].shape, alts[j].shape, ts);
      }
    }
  }

  lemma NothingAfter(alts: seq<Alternative>, ts: seq<Token>, symbols: Symbols)
    requires Dead(ts) && forall i :: 0 <= i < |alts| ==> alts[i].shape != NoOperand
    ensures RunAll(alts, ts, symbols) == Runs([], ts)
  {
    hide Pattern, Build, Fits, Dead, RunAll;
    forall i | 0 <= i < |alts| ensures !Fits(Pattern(alts[i].shape), ts) {
      DeadFails(alts[i].shape, ts);
    }
    NoneFits(alts, ts, symbols);
  }

  lemma RunOne(a: Alternative, ts: seq<Token>, symbols: Symbols)
    ensures var o := Try(a.shape, a.op, ts, symbols);
      RunAll([a], ts, symbols) == Runs(if o.r.Some? then [o.r.value] else [], o.rest)
  {
    hide Try;
  }

  /** The run of a mnemonic's alternatives on a stream on which alternative i succeeds. */
  lemma RunSuccess(alts: seq<Alternative>, i: nat, ts: seq<Token>, symbols: Symbols)
    requires Good(alts) && i < |alts| && Succeeds(alts[i], ts, symbols)
    ensures var rest := ts[|Pattern(alts[i].shape)|..];
      var later := RunAll(alts[i + 1..], rest, symbols);
      && RunAll(alts, ts, symbols) == Runs([Built(alts[i], ts, symbols)] + later.successes, later.rest)
      && (later.successes == [] <==> forall j :: i < j < |alts| ==> !Succeeds(alts[j], rest, symbols))
      && (later.rest == rest <==> forall j :: i < j < |alts| ==> !Fits(Pattern(alts[j].shape), rest))
      && (forall j :: 0 <= j < |alts| && j != i ==> !Succeeds(alts[j], ts, symbols))
  {
    hide Pattern, Build, Clash, WellShaped, Dead, NumberAt, ValueOf, RunAll;
    var rest := ts[|Pattern(alts[i].shape)|..];
    FitsIfSucceeds(alts[i], ts, symbols);
    AfterFit(alts[i], ts, symbols);
    if |alts| == 1 {
      RunOne(alts[0], ts, symbols);
      assert alts == [alts[0]];
      NoneFits(alts[1..], rest, symbols);
    } else {
      OneFits(alts, i, ts, symbols);
      OthersFail(alts, i, ts, symbols);
      var later := alts[i + 1..];
      RunOutcome(later, rest, symbols);
      assert forall j :: i < j < |alts| ==> alts[j] == later[j - i - 1];
      assert forall j :: 0 <= j < |later| ==> later[j] == alts[j + i + 1];
    }
  }

  /** At most one alternative is taken exactly when, behind the line of the one that succeeds,
      no later one succeeds. Some alternative is taken exactly when one succeeds on the line. */
  lemma Unambiguous(name: string, ts: seq<Token>, symbols: Symbols)
    ensures var alts, r := Alternatives(name), RunAll(Alternatives(name), ts, symbols);
      && (|r.successes| <= 1 <==>
            forall i, j :: 0 <= i < j < |alts| && Succeeds(alts[i], ts, symbols) ==>
              !Succeeds(alts[j], ts[|Pattern(alts[i].shape)|..], symbols))
      && (r.successes != [] <==> exists i :: 0 <= i < |alts| && Succeeds(alts[i], ts, symbols))
  {
    hide Alternatives, Pattern, Build, Clash, WellShaped, Dead, NumberAt, ValueOf, Fits, RunAll, Good, Try;
    var alts := Alternatives(name);
    AlternativesGood(name);
    if i :| 0 <= i < |alts| && Succeeds(alts[i], ts, symbols) {
      RunSuccess(alts, i, ts, symbols);
    } else {
      RunFailure(alts, ts, symbols);
    }
  }

  lemma RunFailure(alts: seq<Alternative>, ts: seq<Token>, symbols: Symbols)
    requires Good(alts) && forall i :: 0 <= i < |alts| ==> !Succeeds(alts[i], ts, symbols)
    ensures RunAll(alts, ts, symbols).successes == []
  {
    hide Pattern, Build, Clash, WellShaped, Fits;
    if |alts| == 1 {
      RunOne(alts[0], ts, symbols);
      assert alts == [alts[0]];
    } else {
      RunOutcome(alts, ts, symbols);
    }
  }

  /** When alternative i succeeds, the parser gives its instruction and takes just its line
      exactly when no later alternative fits what follows. */
  lemma OneLine(name: string, i: nat, ts: seq<Token>, symbols: Symbols)
    requires i < |Alternatives(name)| && Succeeds(Alternatives(name)[i], ts, symbols)
    ensures var alts := Alternatives(name);
      var rest := ts[|Pattern(alts[i].shape)|..];
      RunAll(alts, ts, symbols) == Runs([Built(alts[i], ts, symbols)], rest)
      <==> forall j :: i < j < |alts| ==> !Fits(Pattern(alts[j].shape), rest)
  {
    hide Alternatives, Pattern, Clash, WellShaped, Fits, RunAll, Good, Succeeds, Built;
    var alts := Alternatives(name);
    var rest := ts[|Pattern(alts[i].shape)|..];
    AlternativesGood(name);
    RunSuccess(alts, i, ts, symbols);
    forall j | i < j < |alts| && Succeeds(alts[j], rest, symbols) ensures Fits(Pattern(alts[j].shape), rest) {
      FitsIfSucceeds(alts[j], rest, symbols);
    }
  }

  /** With a legal start of a line behind it, a line has one reading: it is taken alone, and its
      instruction carries the arguments its operation declares. */
  lemma LegalFollowUp(name: string, i: nat, ts: seq<Token>, symbols: Symbols)
    requires i < |Alternatives(name)| && Succeeds(Alternatives(name)[i], ts, symbols)
    requires LegalStart(ts[|Pattern(Alternatives(name)[i].shape)|..])
    ensures var a := Alternatives(name)[i];
      && RunAll(Alternatives(name), ts, symbols) == Runs([Built(a, ts, symbols)], ts[|Pattern(a.shape)|..])
      && WellShaped(Built(a, ts, symbols))
  {
    hide Alternatives, Pattern, Clash, WellShaped, Fits, RunAll, Dead, Build, NumberAt, ValueOf;
    var alts := Alternatives(name);
    var rest := ts[|Pattern(alts[i].shape)|..];
    AlternativesGood(name);
    LegalIsDead(rest);
    forall j | i < j < |alts| ensures !Fits(Pattern(alts[j].shape), rest) {
      DeadFails(alts[j].shape, rest);
    }
    OneLine(name, i, ts, symbols);
    TryBuilds(alts[i].shape, alts[i].op, ts, symbols);
  }

  lemma TryBuilds(s: Shape, op: Op, ts: seq<Token>, symbols: Symbols)
    requires Try(s, op, ts, symbols).r.Some?
    ensures |Pattern(s)| <= |ts| && Try(s, op, ts, symbols).rest == ts[|Pattern(s)|..]
    ensures exists w :: Try(s, op, ts, symbols).r.value == Build(s, op, ts, w)
  {
  }

  /** Two lines for POP, the second one without a mnemonic. */
  const POP_LINES: seq<Token> := [Identifier("r0"), Eol, Identifier("r1"), Comma, Identifier("r2"), Eol]

  lemma PopLines()
    ensures Try(OneR, PopR, POP_LINES, map[]) == Outcome(Some(IR(PopR, "r0")), POP_LINES[2..])
    ensures Try(TwoR, PopRR, POP_LINES[2..], map[]) == Outcome(Some(IRR(PopRR, "r1", "r2")), [])
    ensures Try(ThreeR, PopRRR, [], map[]) == Outcome(None, [])
  {
    assert Fits(Pattern(OneR), POP_LINES) && Fits(Pattern(TwoR), POP_LINES[2..]);
  }

  lemma PopAlternatives()
    ensures Alternatives("POP") == POPS
  {
  }

  /** Operands behind the line can be taken for another line: two alternatives of POP take one
      each, and the parser reports that there is no unique one. */
  lemma TwoSuccesses()
    ensures |RunAll(Alternatives("POP"), POP_LINES, map[]).successes| == 2
  {
    hide Try, Pattern, Alternatives;
    PopLines();
    PopAlternatives();
    RunOne(Alternative(PopRRR, ThreeR), [], map[]);
    assert POPS[1..][1..] == [Alternative(PopRRR, ThreeR)];
    assert RunAll(POPS[1..], POP_LINES[2..], map[]).successes == [IRR(PopRR, "r1", "r2")];
  }

  /** A line for PUSH and a line that is only the name of an unknown variable. */
  const PUSH_LINES: seq<Token> := [Identifier("r0"), Eol, Variable("u"), Eol]

  lemma PushAlternatives()
    ensures Alternatives("PUSH") == PUSHES
  {
  }

  lemma PushLines()
    ensures Try(OneR, PushR, PUSH_LINES, map[]) == Outcome(Some(IR(PushR, "r0")), PUSH_LINES[2..])
    ensures Try(TwoR, PushRR, PUSH_LINES[2..], map[]) == Outcome(None, PUSH_LINES[2..])
    ensures Try(ThreeR, PushRRR, PUSH_LINES[2..], map[]) == Outcome(None, PUSH_LINES[2..])
    ensures Try(N, PushW, PUSH_LINES[2..], map[]) == Outcome(None, [Eol])
  {
    assert Fits(Pattern(OneR), PUSH_LINES) && Fits(Pattern(N), PUSH_LINES[2..]);
    assert PUSH_LINES[2..][1..] == [Eol];
  }

  /** A success does not mean that one line was taken: PUSH accepts its line, and its last
      alternative takes the unknown variable on the next line before it gives up. */
  lemma SwallowedLine()
    ensures RunAll(Alternatives("PUSH"), PUSH_LINES, map[]) == Runs([IR(PushR, "r0")], [Eol])
  {
    hide Try, Pattern, Alternatives, RunAll;
    PushLines();
    PushAlternatives();
    var rest := PUSH_LINES[2..];
    RunOne(Alternative(PushW, N), rest, map[]);
    RunNext([Alternative(PushRRR, ThreeR), Alternative(PushW, N)], rest, map[]);
    RunNext(PUSHES[1..], rest, map[]);
    RunNext(PUSHES, PUSH_LINES, map[]);
  }

  lemma RunNext(alts: seq<Alternative>, ts: seq<Token>, symbols: Symbols)
    requires |alts| > 1
    ensures var o := Try(alts[0].shape, alts[0].op, ts, symbols);
      var r := RunAll(alts[1..], o.rest, symbols);
      RunAll(alts, ts, symbols) == Runs((if o.r.Some? then [o.r.value] else []) + r.successes, r.rest)
  {
    hide Try;
  }

  lemma LoadAlternatives()
    ensures Alternatives("LOAD") == LOADS
  {
  }

  /** `[r + $var]` is never accepted: no alternative of LOAD takes a variable after the plus. */
  lemma IndexedNeedsLiteral(ts: seq<Token>, symbols: Symbols)
    requires |ts| > 5 && ts[2].LBracket? && ts[5].Variable?
    ensures RunAll(Alternatives("LOAD"), ts, symbols).successes == []
  {
    hide Alternatives, RunAll, Try;
    LoadAlternatives();
    assert !SlotFits(Pattern(TwoR)[2], ts[2]) && !SlotFits(Pattern(RN)[2], ts[2]) && !SlotFits(Pattern(RA)[2], ts[2]);
    assert !SlotFits(Pattern(Indexed)[5], ts[5]);
    forall i | 0 <= i < |LOADS| ensures !Succeeds(LOADS[i], ts, symbols) {
      FitsIfSucceeds(LOADS[i], ts, symbols);
    }
    Unambiguous("LOAD", ts, symbols);
  }
}
