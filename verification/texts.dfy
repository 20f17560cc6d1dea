/** What lines of assembly text do to the machine they are loaded into, and what the assembler
    makes of them, in plain terms: registers, addresses, bytes and labels. */
module Texts {
  import opened Words
  import opened Isa
  import opened FlatMemory
  import opened Interrupts
  import opened Machine
  import opened Assembler
  import opened Symbolic
  import opened Simulation
  import opened Loader
  import opened Meaning

  // ---------------------------------------------------------------- registers by name

  function DigitChar(d: nat): char
    requires d < 10
  {
    "0123456789"[d]
  }

  /** The name a register number has in assembly text. */
  function RegisterName(b: Byte): string
    requires b < 32 || b >= 250
  {
    match b
    case 250 => "idt"
    case 251 => "ir"
    case 252 => "sp"
    case 253 => "bp"
    case 254 => "cp"
    case 255 => "cs"
    case _ => if b < 10 then ['r', DigitChar(b)] else ['r', DigitChar(b / 10), DigitChar(b % 10)]
  }

  /** The register table: these names, each with its number, and no other. */
  lemma RegisterTable(name: string, b: Byte)
    ensures RegisterId(name) == Some(b) <==> (b < 32 || b >= 250) && name == RegisterName(b)
  {
    if (b < 32 || b >= 250) && name == RegisterName(b) {
      NameFound(b);
    }
    if RegisterId(name) == Some(b) {
      FoundName(name);
    }
  }

  lemma NameFound(b: Byte)
    requires b < 32 || b >= 250
    ensures RegisterId(RegisterName(b)) == Some(b)
  {
  }

  lemma FoundName(name: string)
    requires RegisterId(name).Some?
    ensures var b := RegisterId(name).value; (b < 32 || b >= 250) && name == RegisterName(b)
  {
  }

  // ---------------------------------------------------------------- bytes by instruction

  /** A register operand is the number of its name. */
  predicate Names(b: Byte, name: string) {
    (b < 32 || b >= 250) && name == RegisterName(b)
  }

  lemma NameIsNumber(name: string, b: Byte)
    requires Names(b, name)
    ensures RegisterId(name) == Some(b)
  {
    RegisterTable(name, b);
  }

  function BigEndian(w: Word): seq<Byte> {
    [w / 0x100_0000, w / 0x1_0000 % 0x100, w / 0x100 % 0x100, w % 0x100]
  }

  /** The words of an encoded instruction: code and operand bytes, and perhaps a number. */
  function TwoWords(code: Byte, a: Byte, b: Byte, c: Byte, second: Option<Word>): seq<Byte> {
    [code, a, b, c] + (if second.Some? then BigEndian(second.value) else [])
  }

  lemma Encoded(i: Instruction, labels: Labels, base: Word, a: Byte, b: Byte, c: Byte, second: Option<Word>)
    requires OperandBytes(i) == Ok([a, b, c]) && Immediate(i, labels, base) == Ok(second)
    ensures EncodeIns(i, labels, base) == Ok(TwoWords(Code(i.op), a, b, c, second))
  {
    hide OperandBytes, Immediate, Code;
    assert [Code(i.op)] + [a, b, c] == [Code(i.op), a, b, c];
  }

  lemma NoRegister()
    ensures RegisterBytes([]) == Ok([0, 0, 0])
  {
  }

  lemma OneRegister(r: string, a: Byte)
    requires Names(a, r)
    ensures RegisterBytes([r]) == Ok([a, 0, 0])
  {
    hide RegisterId, Names;
    NameIsNumber(r, a);
    NoRegister();
    assert [r][1..] == [];
  }

  lemma TwoRegisters(r: string, s: string, a: Byte, b: Byte)
    requires Names(a, r) && Names(b, s)
    ensures RegisterBytes([r, s]) == Ok([a, b, 0])
  {
    hide RegisterId, Names;
    NameIsNumber(r, a);
    OneRegister(s, b);
    assert [r, s][1..] == [s];
  }

  lemma ThreeRegisters(r: string, s: string, t: string, a: Byte, b: Byte, c: Byte)
    requires Names(a, r) && Names(b, s) && Names(c, t)
    ensures RegisterBytes([r, s, t]) == Ok([a, b, c])
  {
    hide RegisterId, Names;
    NameIsNumber(r, a);
    TwoRegisters(s, t, b, c);
    assert [r, s, t][1..] == [s, t];
  }

  /** Register operands stand in the order they are written, behind the code. */
  lemma RegistersInOrder(op: Op, a: Byte, b: Byte, c: Byte, r: string, s: string, t: string,
                         labels: Labels, base: Word)
    requires Names(a, r) && Names(b, s) && Names(c, t)
    ensures EncodeIns(IR(op, r), labels, base) == Ok(TwoWords(Code(op), a, 0, 0, None))
    ensures EncodeIns(IRR(op, r, s), labels, base) == Ok(TwoWords(Code(op), a, b, 0, None))
    ensures EncodeIns(IRRR(op, r, s, t), labels, base) == Ok(TwoWords(Code(op), a, b, c, None))
  {
    hide RegisterBytes, Names, Code, EncodeIns, TwoWords;
    OneRegister(r, a);
    TwoRegisters(r, s, a, b);
    ThreeRegisters(r, s, t, a, b, c);
    Encoded(IR(op, r), labels, base, a, 0, 0, None);
    Encoded(IRR(op, r, s), labels, base, a, b, 0, None);
    Encoded(IRRR(op, r, s, t), labels, base, a, b, c, None);
  }

  /** A number operand is the second word, high byte first; a byte operand stands where a register
      would. */
  lemma NumbersBehind(op: Op, a: Byte, b: Byte, r: string, s: string, w: Word, labels: Labels, base: Word)
    requires Names(a, r) && Names(b, s)
    ensures EncodeIns(IRW(op, r, w), labels, base) == Ok(TwoWords(Code(op), a, 0, 0, Some(w)))
    ensures EncodeIns(IRRW(op, r, s, w), labels, base) == Ok(TwoWords(Code(op), a, b, 0, Some(w)))
    ensures EncodeIns(IW(op, w), labels, base) == Ok(TwoWords(Code(op), 0, 0, 0, Some(w)))
    ensures EncodeIns(IB(op, a), labels, base) == Ok(TwoWords(Code(op), a, 0, 0, None))
    ensures EncodeIns(I(op), labels, base) == Ok(TwoWords(Code(op), 0, 0, 0, None))
  {
    hide RegisterBytes, Names, Code, EncodeIns, TwoWords;
    NoRegister();
    OneRegister(r, a);
    TwoRegisters(r, s, a, b);
    Encoded(IRW(op, r, w), labels, base, a, 0, 0, Some(w));
    Encoded(IRRW(op, r, s, w), labels, base, a, b, 0, Some(w));
    Encoded(IW(op, w), labels, base, 0, 0, 0, Some(w));
    Encoded(IB(op, a), labels, base, a, 0, 0, None);
    Encoded(I(op), labels, base, 0, 0, 0, None);
  }

  /** An `@` operand is the number of bytes in front of its label, an `&` operand that number and the
      base in force. */
  lemma AddressesBehind(op: Op, kind: AddressKind, a: Byte, r: string, name: string, labels: Labels, base: Word)
    requires name in labels && base as int + labels[name] < 0x1_0000_0000 && Names(a, r)
    ensures var address := if kind.Segment? then labels[name] else base + labels[name];
      && EncodeIns(IA(op, name, kind), labels, base) == Ok(TwoWords(Code(op), 0, 0, 0, Some(address)))
      && EncodeIns(IRA(op, r, name, kind), labels, base) == Ok(TwoWords(Code(op), a, 0, 0, Some(address)))
  {
    hide RegisterBytes, Names, Code, EncodeIns, TwoWords;
    NoRegister();
    OneRegister(r, a);
    var address := if kind.Segment? then labels[name] else base + labels[name];
    Encoded(IA(op, name, kind), labels, base, 0, 0, 0, Some(address));
    Encoded(IRA(op, r, name, kind), labels, base, a, 0, 0, Some(address));
  }

  predicate NoBase(nodes: seq<Node>, j: nat, k: nat)
    requires j <= k <= |nodes|
  {
    forall i :: j <= i < k ==> !nodes[i].Base?
  }

  /** The base in force is the one of the last `#base` before, and 0 in front of the first. */
  lemma {:induction false} BaseInForce(nodes: seq<Node>, j: nat, k: nat)
    requires j <= k <= |nodes|
    ensures NoBase(nodes, 0, k) ==> BaseAt(nodes, k) == 0
    ensures j < k && nodes[j].Base? && NoBase(nodes, j + 1, k) ==> BaseAt(nodes, k) == nodes[j].address
  {
    if 0 < k && j < k {
      BaseInForce(nodes, j, k - 1);
    } else if 0 < k {
      BaseInForce(nodes, k - 1, k - 1);
    }
  }

  // ---------------------------------------------------------------- words of data

  /** What `#word` emits: the number as four bytes, high byte first. */
  lemma DataBytes(p: Program, k: nat)
    requires Valid(p) && k < |p.nodes| && p.nodes[k].Data?
    ensures Offset(p.nodes, k) + 4 <= |ImageOf(p)|
    ensures ImageOf(p)[Offset(p.nodes, k)..Offset(p.nodes, k) + 4]
         == BigEndian(p.nodes[k].value as int % 0x1_0000_0000)
  {
    hide Resolvable, MapsPrefix, AllWellShaped, NodeFits, Image;
    ImageSlice(p.nodes, k, |p.nodes|, p.labels);
  }

  /** In memory that shows the image the word at the node's address is the declared number. */
  lemma DataWord(p: Program, f: Flat, k: nat)
    requires Valid(p) && k < |p.nodes| && p.nodes[k].Data? && Shows(f, ImageOf(p), p.origin)
    ensures AddressOf(p, k) in f.cells && f.cells[AddressOf(p, k)] == p.nodes[k].value as int % 0x1_0000_0000
  {
    hide Resolvable, MapsPrefix, AllWellShaped, NodeFits, Shows, ImageOf, ToBe, FromBe;
    var v := Wrap(p.nodes[k].value);
    assert EncodeNode(p.nodes, k, p.labels) == Ok(ToBe(v));
    NodeShown(p, f, k, 0);
    assert ToBe(v)[0..4] == ToBe(v);
    BeInverseWord(v);
  }

  // ---------------------------------------------------------------- one turn at an instruction

  /** The machine stands at instruction k of the loaded text and goes on with it. */
  ghost predicate StandsAt(p: Program, k: nat, m: State)
    requires Valid(p)
  {
    && k < |p.nodes| && p.nodes[k].Ins? && Live(m) && !Interrupted(m) && Loaded(p, m.mem)
    && m.pc == AddressOf(p, k)
  }

  /** That turn executes the operation on its operand bytes, with the number behind it at pc. */
  lemma TurnAt(p: Program, k: nat, m: State)
    requires Valid(p) && StandsAt(p, k, m)
    ensures var i := p.nodes[k].i;
      && Past(m) == m.(pc := (AddressOf(p, k) as int + 4) % 0x1_0000_0000) && m.panic == ErrOk
      && Step(m) == Exec(Past(m), i.op, FirstWord(i))
      && Operands(FirstWord(i), Operand(i, 0), Operand(i, 1), Operand(i, 2))
      && (ImmediateOf(p, k).Some? ==> Follows(Past(m), ImmediateOf(p, k).value))
      && AddressOf(p, Next(p, k)) == m.pc + (if HasImmediate(i.op) then 8 else 4)
  {
    hide Exec, FirstWord, Operand, ImmediateOf, HasImmediate, Active, Masks, AddressOf, Resolvable, Encodable,
      MapsPrefix, AllWellShaped, NodeFits, Operands, Cycle;
    var i := p.nodes[k].i;
    assert NodeLoaded(p, m.mem, k);
    CycleAt(p, k, m);
    Layout(p, k);
    WrapIs(m.pc + 4);
    OwnOperands(i);
  }

  lemma OwnOperands(i: Instruction)
    ensures Operands(FirstWord(i), Operand(i, 0), Operand(i, 1), Operand(i, 2))
  {
    hide FirstWord, Operand, Operands;
    FirstBytes(i);
    BytesAreOperands(FirstWord(i), Operand(i, 0), Operand(i, 1), Operand(i, 2));
  }

  lemma BytesAreOperands(w: Word, a: Byte, b: Byte, c: Byte)
    requires ToBe(w)[1] == a && ToBe(w)[2] == b && ToBe(w)[3] == c
    ensures Operands(w, a, b, c)
  {
  }

  lemma OneOperand(i: Instruction, a: Byte)
    requires |RegistersOf(i)| == 1 && Names(a, RegistersOf(i)[0])
    ensures Operand(i, 0) == a && Operand(i, 1) == 0 && Operand(i, 2) == 0
  {
    hide RegisterId, Names;
    NameIsNumber(RegistersOf(i)[0], a);
  }

  lemma TwoOperands(i: Instruction, a: Byte, b: Byte)
    requires |RegistersOf(i)| == 2 && Names(a, RegistersOf(i)[0]) && Names(b, RegistersOf(i)[1])
    ensures Operand(i, 0) == a && Operand(i, 1) == b && Operand(i, 2) == 0
  {
    hide RegisterId, Names;
    NameIsNumber(RegistersOf(i)[0], a);
    NameIsNumber(RegistersOf(i)[1], b);
  }

  /** `LOAD r, &name` of a `#word`: the register gets the declared number. */
  lemma LoadsDeclared(p: Program, k: nat, d: nat, m: State, a: Byte)
    requires Valid(p) && StandsAt(p, k, m) && Shows(m.mem, ImageOf(p), p.origin)
    requires k < |p.nodes| && p.nodes[k].Ins? && p.nodes[k].i.IRA? && p.nodes[k].i.op == LoadRW
    requires p.nodes[k].i.kind.Absolute? && BaseAt(p.nodes, k) == p.origin
    requires d < |p.nodes| && p.nodes[d].Data? && p.nodes[d].name == p.nodes[k].i.name
    requires Names(a, p.nodes[k].i.r) && Known(m, a)
    ensures Step(m) == Holding(m.(pc := AddressOf(p, Next(p, k))), a, p.nodes[d].value as int % 0x1_0000_0000)
  {
    hide Exec, FirstWord, Operand, ImmediateOf, Shows, ImageOf, AddressOf, Encodable, Names, MapsPrefix,
      AllWellShaped, NodeFits, Operands, Holding, BaseAt, Loaded, Offset, Resolvable, StandsAt, Step;
    var i := p.nodes[k].i;
    TurnAt(p, k, m);
    AddressImmediate(p, k);
    DataAddress(p, d, i.name);
    DataWord(p, m.mem, d);
    OneOperand(i, a);
    LoadMeans(Past(m), FirstWord(i), a, 0, AddressOf(p, d));
  }

  lemma DataAddress(p: Program, d: nat, name: string)
    requires Valid(p) && DefinesAt(p.nodes, d, name)
    ensures name in p.labels && p.origin + p.labels[name] == AddressOf(p, d)
  {
  }

  // ---------------------------------------------------------------- comparison and jump

  /** The named register of m holds v. */
  ghost predicate Holds(m: State, name: string, v: Word) {
    exists a: Byte :: Names(a, name) && Known(m, a) && Value(m, a) == v
  }

  /** Node k is a CMP, and in m its operands have the values x and y; pc is behind the code by then. */
  ghost predicate Compares(p: Program, k: nat, m: State, x: Word, y: Word)
    requires Valid(p)
  {
    && k < |p.nodes| && p.nodes[k].Ins?
    && var seen := m.(pc := (AddressOf(p, k) as int + 4) % 0x1_0000_0000);
      match p.nodes[k].i
      case IRR(op, r, s) => op == Cmp(Reg) && Holds(seen, r, x) && Holds(seen, s, y)
      case IRW(op, r, w) => op == Cmp(Imm) && Holds(seen, r, x) && w == y
      case _ => false
  }

  /** A turn at a CMP sets the flags for its operands and goes on behind it. */
  lemma ComparesAt(p: Program, k: nat, m: State, x: Word, y: Word)
    requires Valid(p) && StandsAt(p, k, m) && Compares(p, k, m, x, y)
    ensures Step(m) == Compared(m.(pc := AddressOf(p, Next(p, k))), x, y)
  {
    hide Exec, FirstWord, Operand, AddressOf, Loaded, Interrupted, Operands, BaseAt, Encodable, Resolvable,
      MapsPrefix, AllWellShaped, NodeFits, StandsAt, Holds, Step, Compared;
    var i, seen := p.nodes[k].i, Past(m);
    TurnAt(p, k, m);
    assert seen == m.(pc := (AddressOf(p, k) as int + 4) % 0x1_0000_0000);
    if i.IRR? {
      ComparesRegisters(p, k, seen, x, y);
    } else {
      ComparesNumber(p, k, seen, x, y);
    }
  }

  lemma ComparesRegisters(p: Program, k: nat, m: State, x: Word, y: Word)
    requires k < |p.nodes| && p.nodes[k].Ins? && p.nodes[k].i.IRR? && m.panic == ErrOk
    requires Holds(m, p.nodes[k].i.r, x) && Holds(m, p.nodes[k].i.r2, y)
    ensures Exec(m, Cmp(Reg), FirstWord(p.nodes[k].i)) == Compared(m, x, y)
  {
    hide Exec, Names, Value, Compared;
    var i := p.nodes[k].i;
    var a: Byte :| Names(a, i.r) && Known(m, a) && Value(m, a) == x;
    var b: Byte :| Names(b, i.r2) && Known(m, b) && Value(m, b) == y;
    TwoOperands(i, a, b);
    OwnOperands(i);
    CmpMeans(m, FirstWord(i), a, b);
  }

  lemma ComparesNumber(p: Program, k: nat, m: State, x: Word, y: Word)
    requires k < |p.nodes| && p.nodes[k].Ins? && p.nodes[k].i.IRW?
    requires Holds(m, p.nodes[k].i.r, x) && Follows(m, y)
    ensures Exec(m, Cmp(Imm), FirstWord(p.nodes[k].i)) == Compared(Past(m), x, y)
  {
    hide Exec, Names, Value, Compared;
    var i := p.nodes[k].i;
    var a: Byte :| Names(a, i.r) && Known(m, a) && Value(m, a) == x;
    OneOperand(i, a);
    OwnOperands(i);
    CmpImmMeans(m, FirstWord(i), a, 0, y);
  }

  /** Node j is a jump to the label that node d defines. */
  predicate JumpNode(p: Program, j: nat, d: nat) {
    && j < |p.nodes| && p.nodes[j].Ins? && p.nodes[j].i.IA? && p.nodes[j].i.op.Jump?
    && DefinesAt(p.nodes, d, p.nodes[j].i.name)
  }

  /** The address of the label's node when the jump is made, and the one behind the jump when not. */
  ghost function Branch(p: Program, j: nat, d: nat, jumps: bool): Word
    requires Valid(p) && JumpNode(p, j, d)
  {
    AddressOf(p, if jumps then Skip(p.nodes, d) else Next(p, j))
  }

  lemma JumpOperand(p: Program, j: nat, m: State, d: nat) returns (address: Word)
    requires Valid(p) && StandsAt(p, j, m) && JumpNode(p, j, d)
    requires p.nodes[j].i.kind.Segment? ==> m.cs == p.origin
    ensures var i := p.nodes[j].i;
      && i.op == Jump(i.op.cond, i.kind) && Step(m) == Exec(Past(m), i.op, FirstWord(i))
      && Follows(Past(m), address) && Goal(m, i.kind, address) == Branch(p, j, d, true)
      && Past(Past(m)).pc == Branch(p, j, d, false)
  {
    hide Exec, FirstWord, Operand, AddressOf, Loaded, Interrupted, Operands, Encodable, Resolvable, MapsPrefix,
      AllWellShaped, NodeFits, ImmediateOf, Step, Target;
    var i := p.nodes[j].i;
    Layout(p, j);
    TurnAt(p, j, m);
    TargetIs(p, i.name, d);
    JumpTarget(p, j, m);
    address := ImmediateOf(p, j).value;
    WrapIs(m.cs + address);
  }

  /** A turn at a jump, in a state whose flags compare x with y: JEQ leads to its label exactly
      when they are equal, JNE exactly when they are not. */
  lemma JumpsAt(p: Program, j: nat, m: State, x: Word, y: Word, d: nat)
    requires Valid(p) && StandsAt(p, j, m) && m == Compared(m, x, y) && JumpNode(p, j, d)
    requires p.nodes[j].i.kind.Segment? ==> m.cs == p.origin
    ensures var cond := p.nodes[j].i.op.cond;
      && (cond == IfZero ==> Step(m) == m.(pc := Branch(p, j, d, x == y)))
      && (cond == IfNotZero ==> Step(m) == m.(pc := Branch(p, j, d, x != y)))
      && (cond == Always ==> Step(m) == m.(pc := Branch(p, j, d, true)))
  {
    hide Exec, FirstWord, Branch, StandsAt, Valid, Step;
    var i := p.nodes[j].i;
    var address := JumpOperand(p, j, m, d);
    assert Compared(Past(m), x, y) == Past(m);
    JumpMeans(Past(m), x, y, FirstWord(i), i.kind, address);
  }

  /** CMP at node k with a jump behind it: two turns lead from the comparison to the label's node, or
      behind the jump, as the operands are equal or not, and change nothing but the flags. */
  lemma ComparesAndJumps(p: Program, k: nat, j: nat, m: State, x: Word, y: Word, d: nat)
    requires Valid(p) && StandsAt(p, k, m) && Compares(p, k, m, x, y)
    requires JumpNode(p, j, d) && j == Next(p, k) && (p.nodes[j].i.kind.Segment? ==> m.cs == p.origin)
    ensures var cond := p.nodes[j].i.op.cond;
      && (cond == IfZero ==> Run(m, 2) == Compared(m, x, y).(pc := Branch(p, j, d, x == y)))
      && (cond == IfNotZero ==> Run(m, 2) == Compared(m, x, y).(pc := Branch(p, j, d, x != y)))
  {
    hide Compares, AddressOf, Loaded, Encodable, Resolvable, MapsPrefix, AllWellShaped, NodeFits, Step, Masks, Branch;
    ComparesAt(p, k, m, x, y);
    var t := Step(m);
    assert t == Compared(t, x, y);
    JumpsAt(p, j, t, x, y, d);
    assert Run(m, 2) == Run(t, 1) == Run(Step(t), 0);
  }

  // ---------------------------------------------------------------- the same on the text itself

  lemma ValIsValue(m: State, name: string, v: Word)
    requires Holds(m, name, v)
    ensures RegisterId(name).Some? && Val(m, RegisterId(name).value) == v
  {
    hide RegisterId, Names, Value;
    var a: Byte :| Names(a, name) && Known(m, a) && Value(m, a) == v;
    NameIsNumber(name, a);
    ReadsRegister(m, a);
  }

  lemma CompareEffect(p: Program, k: nat, m: State, x: Word, y: Word)
    requires Valid(p) && Compares(p, k, m, x, y)
    ensures Execute(p, k, m) == Some(Sym(At(Next(p, k)), Compared(m, x, y)))
  {
    hide RegisterId, Val, AddressOf, Encodable, Resolvable, MapsPrefix, AllWellShaped, NodeFits, Holds, Compare, Next;
    var i, seen := p.nodes[k].i, m.(pc := PcSeen(p, k));
    ValIsValue(seen, RegistersOf(i)[0], x);
    if i.IRR? {
      ValIsValue(seen, RegistersOf(i)[1], y);
    }
    CompareIs(seen, x, y);
    assert Effect(i.op, Operand(i, 0), Operand(i, 1), Operand(i, 2),
        if ImmediateOf(p, k).Some? then ImmediateOf(p, k).value else 0, seen) == Compare(seen, x, y);
  }

  lemma JumpEffect(p: Program, j: nat, m: State, d: nat)
    requires Valid(p) && JumpNode(p, j, d)
    requires p.nodes[j].i.kind == p.nodes[j].i.op.kind && (p.nodes[j].i.kind.Segment? ==> m.cs == p.origin)
    ensures var cond, there, behind := p.nodes[j].i.op.cond, At(Skip(p.nodes, d)), At(Next(p, j));
      && (cond == IfZero ==> Execute(p, j, m) == Some(Sym(if m.zero then there else behind, m)))
      && (cond == IfNotZero ==> Execute(p, j, m) == Some(Sym(if m.zero then behind else there, m)))
      && (cond == Always ==> Execute(p, j, m) == Some(Sym(there, m)))
  {
    hide AddressOf, Encodable, Resolvable, MapsPrefix, AllWellShaped, NodeFits, Next, Target;
    TargetIs(p, p.nodes[j].i.name, d);
  }

  /** Two steps of the text lead from CMP to the label's node exactly on equality or inequality. */
  lemma TextComparesAndJumps(p: Program, k: nat, j: nat, m: State, x: Word, y: Word, d: nat)
    requires Valid(p) && Live(m) && !Interrupted(m) && Loaded(p, m.mem) && Compares(p, k, m, x, y)
    requires JumpNode(p, j, d) && j == Next(p, k) && (p.nodes[j].i.kind.Segment? ==> m.cs == p.origin)
    ensures var cond, there, behind := p.nodes[j].i.op.cond, At(Skip(p.nodes, d)), At(Next(p, j));
      var after := SymRun(p, Sym(At(k), m), 2);
      && (cond == IfZero ==> after == Some(Sym(if x == y then there else behind, Compared(m, x, y))))
      && (cond == IfNotZero ==> after == Some(Sym(if x != y then there else behind, Compared(m, x, y))))
  {
    hide Execute, Loaded, Valid, Masks;
    CompareEffect(p, k, m, x, y);
    Layout(p, j);
    var t := Compared(m, x, y);
    JumpEffect(p, j, t, d);
    var s := Sym(At(j), t);
    assert SymStep(p, Sym(At(k), m)) == Some(s);
    assert SymRun(p, Sym(At(k), m), 2) == SymRun(p, s, 1);
    assert SymStep(p, s).Some? ==> SymRun(p, s, 1) == SymRun(p, SymStep(p, s).value, 0);
  }
}
