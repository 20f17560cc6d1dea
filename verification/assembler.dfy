/** The assembler's two passes over the node list: pass 1 assigns an offset to every label,
    pass 2 emits the bytes. */
module Assembler {
  import opened Words
  import opened Isa

  datatype Instruction =
    | I(op: Op)
    | IA(op: Op, name: string, kind: AddressKind)
    | IB(op: Op, b: Byte)
    | IR(op: Op, r: string)
    | IRA(op: Op, r: string, name: string, kind: AddressKind)
    | IRW(op: Op, r: string, w: Word)
    | IRR(op: Op, r: string, r2: string)
    | IRRR(op: Op, r: string, r2: string, r3: string)
    | IRRW(op: Op, r: string, r2: string, w: Word)
    | IW(op: Op, w: Word)

  datatype Node =
    | Base(address: Word)
    | Data(name: string, value: SWord)
    | Ins(i: Instruction)
    | Label(name: string)

  datatype AsmError =
    | DuplicateLabel(name: string)
    | MissingLabel(name: string)
    | UnknownRegister(name: string)
    | UnknownLabel(name: string)
    | Overflow

  datatype Result<+T> = Ok(value: T) | Err(error: AsmError)

  type Labels = map<string, Word>

  // ---------------------------------------------------------------- pass 1

  function NodeLength(n: Node): nat {
    match n
    case Ins(i) => Length(i.op)
    case Data(_, _) => 4
    case _ => 0
  }

  /** Bytes that belong to the first k nodes. */
  function Offset(nodes: seq<Node>, k: nat): nat
    requires k <= |nodes|
  {
    if k == 0 then 0 else Offset(nodes, k - 1) + NodeLength(nodes[k - 1])
  }

  /** The length of a node in plain numbers. */
  lemma LengthOf(n: Node)
    ensures NodeLength(n) == match n
                             case Ins(i) => if HasImmediate(i.op) then 8 else 4
                             case Data(_, _) => 4
                             case _ => 0
  {
    hide Length, HasImmediate;
    if n.Ins? {
      LengthIsWords(n.i.op);
    }
  }

  function Defines(n: Node): Option<string> {
    match n
    case Data(name, _) => Some(name)
    case Label(name) => Some(name)
    case _ => None
  }

  predicate DefinesAt(nodes: seq<Node>, k: nat, name: string) {
    k < |nodes| && Defines(nodes[k]) == Some(name)
  }

  ghost predicate Unique(nodes: seq<Node>, n: nat)
    requires n <= |nodes|
  {
    forall i, j, l :: 0 <= i < j < n && DefinesAt(nodes, i, l) ==> !DefinesAt(nodes, j, l)
  }

  ghost predicate Defined(nodes: seq<Node>, name: string) {
    exists k :: 0 <= k < |nodes| && DefinesAt(nodes, k, name)
  }

  predicate UsesAt(nodes: seq<Node>, k: nat, name: string) {
    k < |nodes| && nodes[k].Ins? && nodes[k].i.IA? && nodes[k].i.name == name
  }

  /** What pass 1 accepts: unique labels, an image below 4 GB, and jump targets that exist. */
  ghost predicate Resolvable(nodes: seq<Node>) {
    && Unique(nodes, |nodes|)
    && Offset(nodes, |nodes|) < WORD_LIMIT
    && (forall k, l :: 0 <= k < |nodes| && UsesAt(nodes, k, l) ==> Defined(nodes, l))
  }

  /** labels maps exactly the labels defined in the first n nodes, each to the bytes before it. */
  ghost predicate MapsPrefix(nodes: seq<Node>, n: nat, labels: Labels)
    requires n <= |nodes|
  {
    && (forall k, l :: 0 <= k < n && DefinesAt(nodes, k, l) ==> l in labels && labels[l] == Offset(nodes, k))
    && (forall l :: l in labels ==> exists k :: 0 <= k < n && DefinesAt(nodes, k, l))
  }

  lemma {:induction false} OffsetMonotone(nodes: seq<Node>, i: nat, j: nat)
    requires i <= j <= |nodes|
    ensures Offset(nodes, i) <= Offset(nodes, j)
  {
    if i < j {
      OffsetMonotone(nodes, i, j - 1);
    }
  }

  /** The first loop of pass 1: offsets for the labels, as long as they are unique and the
      position fits 32 bits. */
  method AssignOffsets(nodes: seq<Node>) returns (r: Result<Labels>)
    ensures r.Ok? <==> Unique(nodes, |nodes|) && Offset(nodes, |nodes|) < WORD_LIMIT
    ensures r.Ok? ==> MapsPrefix(nodes, |nodes|, r.value)
    ensures r.Err? ==> r.error.Overflow? || r.error.DuplicateLabel?
    ensures r.Err? && r.error.Overflow? ==> Offset(nodes, |nodes|) >= WORD_LIMIT
    ensures r.Err? && r.error.DuplicateLabel? ==>
              exists i, j :: 0 <= i < j < |nodes| && DefinesAt(nodes, i, r.error.name)
                  && DefinesAt(nodes, j, r.error.name)
  {
    hide Length;
    var labels: Labels := map[];
    var position: Word := 0;
    for k := 0 to |nodes|
      invariant position == Offset(nodes, k)
      invariant Unique(nodes, k)
      invariant MapsPrefix(nodes, k, labels)
    {
      OffsetMonotone(nodes, k + 1, |nodes|);
      match nodes[k]
      case Data(name, _) =>
        assert DefinesAt(nodes, k, name);
        if name in labels {
          return Err(DuplicateLabel(name));
        }
        labels := labels[name := position];
        if position + 4 >= WORD_LIMIT {
          return Err(Overflow);
        }
        position := position + 4;
      case Ins(i) =>
        if position + Length(i.op) >= WORD_LIMIT {
          return Err(Overflow);
        }
        position := position + Length(i.op);
      case Label(name) =>
        assert DefinesAt(nodes, k, name);
        if name in labels {
          return Err(DuplicateLabel(name));
        }
        labels := labels[name := position];
      case Base(_) =>
    }
    return Ok(labels);
  }

  /** The second loop of pass 1: a jump target that is no label, if there is one. */
  method MissingTarget(nodes: seq<Node>, labels: Labels) returns (r: Option<string>)
    requires MapsPrefix(nodes, |nodes|, labels)
    ensures r.None? <==> forall k, l :: 0 <= k < |nodes| && UsesAt(nodes, k, l) ==> Defined(nodes, l)
    ensures r.Some? ==> (exists k :: 0 <= k < |nodes| && UsesAt(nodes, k, r.value)) && !Defined(nodes, r.value)
  {
    hide Offset;
    for k := 0 to |nodes|
      invariant forall j, l :: 0 <= j < k && UsesAt(nodes, j, l) ==> Defined(nodes, l)
    {
      match nodes[k]
      case Ins(IA(_, name, _)) =>
        if name !in labels {
          assert UsesAt(nodes, k, name);
          return Some(name);
        }
      case _ =>
    }
    return None;
  }

  /** Pass 1: offsets for all labels, and a label for every jump target. */
  method Resolve(nodes: seq<Node>) returns (r: Result<Labels>)
    ensures r.Ok? <==> Resolvable(nodes)
    ensures r.Ok? ==> MapsPrefix(nodes, |nodes|, r.value)
    ensures r.Err? ==> r.error.Overflow? || r.error.DuplicateLabel? || r.error.MissingLabel?
    ensures r.Err? && r.error.Overflow? ==> Offset(nodes, |nodes|) >= WORD_LIMIT
    ensures r.Err? && r.error.DuplicateLabel? ==>
              exists i, j :: 0 <= i < j < |nodes| && DefinesAt(nodes, i, r.error.name)
                  && DefinesAt(nodes, j, r.error.name)
    ensures r.Err? && r.error.MissingLabel? ==>
              (exists k :: 0 <= k < |nodes| && UsesAt(nodes, k, r.error.name)) && !Defined(nodes, r.error.name)
  {
    hide Offset, MapsPrefix, Unique, DefinesAt, UsesAt, Defined;
    r := AssignOffsets(nodes);
    if r.Err? {
      return;
    }
    var missing := MissingTarget(nodes, r.value);
    if missing.Some? {
      return Err(MissingLabel(missing.value));
    }
  }

  // ---------------------------------------------------------------- pass 2

  predicate IsDigit(c: char) {
    '0' <= c <= '9'
  }

  function Digit(c: char): nat
    requires IsDigit(c)
  {
    c as int - '0' as int
  }

  /** The emitter's register table: six special names (its name for the program counter
      is `cp`) and r0 to r31. */
  function RegisterId(name: string): Option<Byte> {
    if name == "cp" then Some(REG_PC)
    else if name == "sp" then Some(REG_SP)
    else if name == "bp" then Some(REG_BP)
    else if name == "cs" then Some(REG_CS)
    else if name == "ir" then Some(REG_IR)
    else if name == "idt" then Some(REG_IDT)
    else if |name| == 2 && name[0] == 'r' && IsDigit(name[1]) then Some(Digit(name[1]))
    else if |name| == 3 && name[0] == 'r' && '1' <= name[1] <= '3' && IsDigit(name[2])
            && Digit(name[1]) * 10 + Digit(name[2]) <= 31
    then Some(Digit(name[1]) * 10 + Digit(name[2]))
    else None
  }

  function BaseAt(nodes: seq<Node>, k: nat): Word
    requires k <= |nodes|
  {
    if k == 0 then 0
    else if nodes[k - 1].Base? then nodes[k - 1].address
    else BaseAt(nodes, k - 1)
  }

  /** The word an address operand stands for; the sum traps when it leaves 32 bits. */
  function AddressValue(labels: Labels, base: Word, name: string, kind: AddressKind): Result<Word> {
    if name !in labels then Err(UnknownLabel(name))
    else if kind.Segment? then Ok(labels[name])
    else if base + labels[name] >= WORD_LIMIT then Err(Overflow)
    else Ok(base + labels[name])
  }

  function RegistersOf(i: Instruction): seq<string> {
    match i
    case IR(_, r) => [r]
    case IRA(_, r, _, _) => [r]
    case IRW(_, r, _) => [r]
    case IRR(_, r, r2) => [r, r2]
    case IRRR(_, r, r2, r3) => [r, r2, r3]
    case IRRW(_, r, r2, _) => [r, r2]
    case _ => []
  }

  /** Up to three register numbers, padded with zeros. */
  function RegisterBytes(rs: seq<string>): (r: Result<seq<Byte>>)
    requires |rs| <= 3
    ensures r.Ok? ==> |r.value| == 3
    ensures r.Ok? <==> forall k :: 0 <= k < |rs| ==> RegisterId(rs[k]).Some?
  {
    if rs == [] then Ok([0, 0, 0])
    else
      var rest := RegisterBytes(rs[1..]);
      if RegisterId(rs[0]).None? then Err(UnknownRegister(rs[0]))
      else if rest.Err? then
        assert exists k :: 0 <= k < |rs[1..]| && RegisterId(rs[1..][k]).None? && RegisterId(rs[k + 1]).None?;
        rest
      else
        assert forall k :: 1 <= k < |rs| ==> rs[k] == rs[1..][k - 1];
        Ok([RegisterId(rs[0]).value, rest.value[0], rest.value[1]])
  }

  /** The operand bytes of the first word: register numbers or a byte. */
  function OperandBytes(i: Instruction): (r: Result<seq<Byte>>)
    ensures r.Ok? ==> |r.value| == 3
    ensures r.Ok? <==> forall k :: 0 <= k < |RegistersOf(i)| ==> RegisterId(RegistersOf(i)[k]).Some?
  {
    if i.IB? then Ok([i.b, 0, 0]) else RegisterBytes(RegistersOf(i))
  }

  /** The second word of an instruction, if it has one. */
  function Immediate(i: Instruction, labels: Labels, base: Word): Result<Option<Word>> {
    match i
    case IA(_, name, kind) =>
      var a := AddressValue(labels, base, name, kind);
      if a.Ok? then Ok(Some(a.value)) else Err(a.error)
    case IRA(_, _, name, kind) =>
      var a := AddressValue(labels, base, name, kind);
      if a.Ok? then Ok(Some(a.value)) else Err(a.error)
    case IRW(_, _, w) => Ok(Some(w))
    case IRRW(_, _, _, w) => Ok(Some(w))
    case IW(_, w) => Ok(Some(w))
    case _ => Ok(None)
  }

  function EncodeIns(i: Instruction, labels: Labels, base: Word): Result<seq<Byte>> {
    var ops := OperandBytes(i);
    if ops.Err? then Err(ops.error)
    else
      var imm := Immediate(i, labels, base);
      if imm.Err? then Err(imm.error)
      else Ok([Code(i.op)] + ops.value + (if imm.value.Some? then ToBe(imm.value.value) else []))
  }

  predicate RegistersKnown(i: Instruction) {
    forall k :: 0 <= k < |RegistersOf(i)| ==> RegisterId(RegistersOf(i)[k]).Some?
  }

  predicate AddressKnown(i: Instruction, labels: Labels, base: Word) {
    i.IA? || i.IRA? ==> i.name in labels && (i.kind.Absolute? ==> base + labels[i.name] < WORD_LIMIT)
  }

  /** Emission of an instruction succeeds exactly when its registers and its label are known
      and an `&` address stays below 4 GB. */
  lemma EncodeSucceeds(i: Instruction, labels: Labels, base: Word)
    ensures EncodeIns(i, labels, base).Ok? <==> RegistersKnown(i) && AddressKnown(i, labels, base)
  {
    hide RegisterBytes, RegisterId;
  }

  function EncodeNode(nodes: seq<Node>, k: nat, labels: Labels): Result<seq<Byte>>
    requires k < |nodes|
  {
    match nodes[k]
    case Ins(i) => EncodeIns(i, labels, BaseAt(nodes, k))
    case Data(_, value) => Ok(ToBe(Wrap(value)))
    case _ => Ok([])
  }

  predicate Encodable(nodes: seq<Node>, labels: Labels) {
    forall k :: 0 <= k < |nodes| ==> EncodeNode(nodes, k, labels).Ok?
  }

  /** The bytes of the first k nodes. */
  function Image(nodes: seq<Node>, k: nat, labels: Labels): seq<Byte>
    requires k <= |nodes| && Encodable(nodes, labels)
  {
    if k == 0 then [] else Image(nodes, k - 1, labels) + EncodeNode(nodes, k - 1, labels).value
  }

  /** The bytes one instruction contributes; an error is a failed lookup in a table. */
  method EmitIns(i: Instruction, labels: Labels, base: Word) returns (r: Result<seq<Byte>>)
    ensures r == EncodeIns(i, labels, base)
  {
    var ops := OperandBytes(i);
    if ops.Err? {
      return Err(ops.error);
    }
    var bytes := [Code(i.op)] + ops.value;
    match i {
    case IRW(_, _, w) => bytes := bytes + ToBe(w);
    case IRRW(_, _, _, w) => bytes := bytes + ToBe(w);
    case IW(_, w) => bytes := bytes + ToBe(w);
    case IA(_, name, kind) =>
      var a := AddressValue(labels, base, name, kind);
      if a.Err? {
        return Err(a.error);
      }
      bytes := bytes + ToBe(a.value);
    case IRA(_, _, name, kind) =>
      var a := AddressValue(labels, base, name, kind);
      if a.Err? {
        return Err(a.error);
      }
      bytes := bytes + ToBe(a.value);
    case _ =>
      assert bytes + [] == bytes;
    }
    return Ok(bytes);
  }

  method Emit(nodes: seq<Node>, labels: Labels) returns (r: Result<seq<Byte>>)
    ensures r.Ok? <==> Encodable(nodes, labels)
    ensures r.Ok? ==> r.value == Image(nodes, |nodes|, labels)
  {
    hide EncodeIns, ToBe;
    var bytes: seq<Byte> := [];
    var base: Word := 0;
    for k := 0 to |nodes|
      invariant base == BaseAt(nodes, k)
      invariant forall j :: 0 <= j < k ==> EncodeNode(nodes, j, labels).Ok?
      invariant Encodable(nodes, labels) ==> bytes == Image(nodes, k, labels)
    {
      match nodes[k]
      case Base(address) => base := address;
      case Data(_, value) => bytes := bytes + ToBe(Wrap(value));
      case Ins(i) =>
        var e := EmitIns(i, labels, base);
        if e.Err? {
          assert EncodeNode(nodes, k, labels).Err?;
          return Err(e.error);
        }
        bytes := bytes + e.value;
      case Label(_) =>
    }
    return Ok(bytes);
  }

  // ---------------------------------------------------------------- agreement of the passes

  function Letters(i: Instruction): seq<Arg> {
    match i
    case I(_) => []
    case IA(_, _, kind) => KindArgs(kind)
    case IB(_, _) => [B]
    case IR(_, _) => [R]
    case IRA(_, _, _, _) => [R, W]
    case IRW(_, _, _) => [R, W]
    case IRR(_, _, _) => [R, R]
    case IRRR(_, _, _, _) => [R, R, R]
    case IRRW(_, _, _, _) => [R, R, W]
    case IW(_, _) => [W]
  }

  /** The operation declares the arguments the instruction carries. The one exception the
      parser makes is XBM, which it gives a byte the declaration does not mention. */
  predicate WellShaped(i: Instruction) {
    Letters(i) == Args(i.op) || (i.IB? && i.op == Xbm)
  }

  predicate AllWellShaped(nodes: seq<Node>) {
    forall k :: 0 <= k < |nodes| && nodes[k].Ins? ==> WellShaped(nodes[k].i)
  }

  /** Emission takes exactly the bytes pass 1 counted for a node. */
  lemma EncodedLength(nodes: seq<Node>, k: nat, labels: Labels)
    requires k < |nodes| && EncodeNode(nodes, k, labels).Ok?
    requires nodes[k].Ins? ==> WellShaped(nodes[k].i)
    ensures |EncodeNode(nodes, k, labels).value| == NodeLength(nodes[k])
  {
    if nodes[k].Ins? {
      LengthIsWords(nodes[k].i.op);
    }
  }

  /** The two passes agree: the bytes emitted for the first k nodes are as many as the
      offset pass 1 gave the label in front of node k. */
  lemma {:induction false} ImageLength(nodes: seq<Node>, k: nat, labels: Labels)
    requires k <= |nodes| && Encodable(nodes, labels) && AllWellShaped(nodes)
    ensures |Image(nodes, k, labels)| == Offset(nodes, k)
  {
    if k > 0 {
      ImageLength(nodes, k - 1, labels);
      EncodedLength(nodes, k - 1, labels);
    }
  }

  /** The bytes of node k sit in the image between its offset and the next one. */
  lemma {:induction false} ImageSlice(nodes: seq<Node>, k: nat, n: nat, labels: Labels)
    requires k < n <= |nodes| && Encodable(nodes, labels) && AllWellShaped(nodes)
    ensures |Image(nodes, n, labels)| == Offset(nodes, n)
    ensures Offset(nodes, k) <= Offset(nodes, k + 1) <= Offset(nodes, n)
    ensures Image(nodes, n, labels)[Offset(nodes, k)..Offset(nodes, k + 1)] == EncodeNode(nodes, k, labels).value
  {
    hide EncodeNode, NodeLength;
    ImageLength(nodes, n, labels);
    ImageLength(nodes, n - 1, labels);
    OffsetMonotone(nodes, k + 1, n);
    EncodedLength(nodes, k, labels);
    if k + 1 < n {
      ImageSlice(nodes, k, n - 1, labels);
      var a, b := Offset(nodes, k), Offset(nodes, k + 1);
      assert Image(nodes, n, labels)[a..b] == Image(nodes, n - 1, labels)[a..b];
    }
  }
}
