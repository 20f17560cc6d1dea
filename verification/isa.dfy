/** The instruction set: the operations, their codes and their encoded lengths, as the
    instruction table generator numbers them from the declaration file. */
module Isa {
  import opened Words

  /** The argument letters of a declaration: register, word, byte, segment address, absolute address. */
  datatype Arg = R | W | B | S | A

  datatype AluFn = Add | Sub | Mul | Band | Bor | Bxor
  /** The second operand of a two-operand instruction. */
  datatype Src = Reg | Imm
  datatype Cond = Always | IfZero | IfNotZero
  datatype AddressKind = Absolute | Segment

  /** One constructor per family; `Alu(Add, Reg)` is the assembler's AddRR and the VM's op_add_rr. */
  datatype Op =
    | Nop | Halt | Panic
    | Mov(src: Src)
    | Alu(f: AluFn, src: Src)
    | Inc | Dec
    | Cmp(src: Src)
    | PushR | PushRR | PushRRR | PushW | Pusha
    | PopR | PopRR | PopRRR | Popa
    | Jump(cond: Cond, kind: AddressKind)
    | Call(kind: AddressKind) | CallR
    | Ret | Int | Iret
    | Stor(src: Src)
    | LoadRR | LoadRRW | LoadRW
    | Mi | Umi
    | Ind | Ine | Wfi
    | Xbm | Xdbg | Xpse | Xpsd | Xbrk

  function AluCode(f: AluFn): Byte {
    match f
    case Add => 5
    case Sub => 7
    case Mul => 9
    case Band => 13
    case Bor => 15
    case Bxor => 17
  }

  function JumpCode(cond: Cond): Byte {
    match cond
    case IfZero => 30
    case IfNotZero => 32
    case Always => 34
  }

  /** The opcode byte of an operation. */
  function Code(op: Op): Byte {
    match op
    case Nop => 0
    case Halt => 1
    case Panic => 2
    case Mov(src) => if src.Imm? then 3 else 4
    case Alu(f, src) => AluCode(f) + (if src.Imm? then 1 else 0)
    case Inc => 11
    case Dec => 12
    case Cmp(src) => if src.Reg? then 19 else 20
    case PushR => 21
    case PushRR => 22
    case PushRRR => 23
    case PushW => 24
    case Pusha => 25
    case PopR => 26
    case PopRR => 27
    case PopRRR => 28
    case Popa => 29
    case Jump(cond, kind) => JumpCode(cond) + (if kind.Absolute? then 1 else 0)
    case Call(kind) => if kind.Segment? then 36 else 37
    case CallR => 38
    case Ret => 39
    case Int => 40
    case Iret => 41
    case Stor(src) => if src.Reg? then 42 else 43
    case LoadRR => 44
    case LoadRRW => 45
    case LoadRW => 46
    case Mi => 47
    case Umi => 48
    case Ind => 49
    case Ine => 50
    case Wfi => 51
    case Xbm => 240
    case Xdbg => 241
    case Xpse => 242
    case Xpsd => 243
    case Xbrk => 244
  }

  /** The declared arguments of an operation. */
  function Args(op: Op): seq<Arg> {
    match op
    case Mov(src) => SrcArgs(src)
    case Alu(_, src) => SrcArgs(src)
    case Cmp(src) => SrcArgs(src)
    case Stor(src) => SrcArgs(src)
    case Inc | Dec | PushR | PopR | CallR => [R]
    case PushRR | PopRR | LoadRR => [R, R]
    case PushRRR | PopRRR => [R, R, R]
    case PushW => [W]
    case Jump(_, kind) => KindArgs(kind)
    case Call(kind) => KindArgs(kind)
    case Int | Mi | Umi => [B]
    case LoadRRW => [R, R, W]
    case LoadRW => [R, W]
    case _ => []
  }

  function SrcArgs(src: Src): seq<Arg> {
    if src.Reg? then [R, R] else [R, W]
  }

  function KindArgs(kind: AddressKind): seq<Arg> {
    if kind.Segment? then [S] else [A]
  }

  function ArgSize(a: Arg): nat {
    match a
    case R => 1
    case B => 1
    case W => 4
    case S => 4
    case A => 4
  }

  function ArgsSize(args: seq<Arg>): nat {
    if args == [] then 0 else ArgSize(args[0]) + ArgsSize(args[1..])
  }

  /** The encoded length: one opcode byte and the arguments, rounded up to whole words. */
  function Length(op: Op): nat {
    (1 + ArgsSize(Args(op)) + 3) / 4 * 4
  }

  predicate HasImmediate(op: Op) {
    match op
    case Mov(src) => src.Imm?
    case Alu(_, src) => src.Imm?
    case Cmp(src) => src.Imm?
    case Stor(src) => src.Imm?
    case PushW => true
    case Jump(_, _) => true
    case Call(_) => true
    case LoadRRW => true
    case LoadRW => true
    case _ => false
  }

  lemma ArgsSizeOfFew(a: seq<Arg>)
    requires |a| <= 3
    ensures ArgsSize(a) == (if |a| > 0 then ArgSize(a[0]) else 0) + (if |a| > 1 then ArgSize(a[1]) else 0)
                           + (if |a| > 2 then ArgSize(a[2]) else 0)
  {
    if |a| > 0 {
      ArgsSizeOfFew(a[1..]);
    }
  }

  /** Every instruction takes one word, and a second one exactly when it carries an immediate. */
  lemma LengthIsWords(op: Op)
    ensures Length(op) == if HasImmediate(op) then 8 else 4
  {
    hide ArgsSize;
    FewArgs(op);
    ArgsSizeOfFew(Args(op));
  }

  lemma FewArgs(op: Op)
    ensures |Args(op)| <= 3
    ensures var a := Args(op);
      (if |a| > 0 then ArgSize(a[0]) else 0) + (if |a| > 1 then ArgSize(a[1]) else 0)
          + (if |a| > 2 then ArgSize(a[2]) else 0)
      in (if HasImmediate(op) then {4, 5, 6} else {0, 1, 2, 3})
  {
  }

  /** The decoding table: the operation a code byte selects, if any. */
  function Decode(code: Byte): Option<Op> {
    match code
    case 0 => Some(Nop)
    case 1 => Some(Halt)
    case 2 => Some(Panic)
    case 3 => Some(Mov(Imm))
    case 4 => Some(Mov(Reg))
    case 5 => Some(Alu(Add, Reg))
    case 6 => Some(Alu(Add, Imm))
    case 7 => Some(Alu(Sub, Reg))
    case 8 => Some(Alu(Sub, Imm))
    case 9 => Some(Alu(Mul, Reg))
    case 10 => Some(Alu(Mul, Imm))
    case 11 => Some(Inc)
    case 12 => Some(Dec)
    case 13 => Some(Alu(Band, Reg))
    case 14 => Some(Alu(Band, Imm))
    case 15 => Some(Alu(Bor, Reg))
    case 16 => Some(Alu(Bor, Imm))
    case 17 => Some(Alu(Bxor, Reg))
    case 18 => Some(Alu(Bxor, Imm))
    case 19 => Some(Cmp(Reg))
    case 20 => Some(Cmp(Imm))
    case 21 => Some(PushR)
    case 22 => Some(PushRR)
    case 23 => Some(PushRRR)
    case 24 => Some(PushW)
    case 25 => Some(Pusha)
    case 26 => Some(PopR)
    case 27 => Some(PopRR)
    case 28 => Some(PopRRR)
    case 29 => Some(Popa)
    case 30 => Some(Jump(IfZero, Segment))
    case 31 => Some(Jump(IfZero, Absolute))
    case 32 => Some(Jump(IfNotZero, Segment))
    case 33 => Some(Jump(IfNotZero, Absolute))
    case 34 => Some(Jump(Always, Segment))
    case 35 => Some(Jump(Always, Absolute))
    case 36 => Some(Call(Segment))
    case 37 => Some(Call(Absolute))
    case 38 => Some(CallR)
    case 39 => Some(Ret)
    case 40 => Some(Int)
    case 41 => Some(Iret)
    case 42 => Some(Stor(Reg))
    case 43 => Some(Stor(Imm))
    case 44 => Some(LoadRR)
    case 45 => Some(LoadRRW)
    case 46 => Some(LoadRW)
    case 47 => Some(Mi)
    case 48 => Some(Umi)
    case 49 => Some(Ind)
    case 50 => Some(Ine)
    case 51 => Some(Wfi)
    case 240 => Some(Xbm)
    case 241 => Some(Xdbg)
    case 242 => Some(Xpse)
    case 243 => Some(Xpsd)
    case 244 => Some(Xbrk)
    case _ => None
  }

  /** Decoding the code of an operation gives the operation. */
  lemma DecodeInvertsCode(op: Op)
    ensures Decode(Code(op)) == Some(op)
  {
    hide Decode, Code;
    if op.Alu? || op.Jump? || op.Call? || op.Mov? || op.Cmp? || op.Stor? {
      FamilyDecodes(op);
    } else {
      SingleDecodes(op);
    }
  }

  lemma FamilyDecodes(op: Op)
    requires op.Alu? || op.Jump? || op.Call? || op.Mov? || op.Cmp? || op.Stor?
    ensures Decode(Code(op)) == Some(op)
  {
  }

  lemma SingleDecodes(op: Op)
    requires !op.Alu? && !op.Jump? && !op.Call? && !op.Mov? && !op.Cmp? && !op.Stor?
    ensures Decode(Code(op)) == Some(op)
  {
  }

  /** A code that decodes is the code of what it decodes to. */
  lemma CodeInvertsDecode(c: Byte)
    ensures Decode(c).Some? ==> Code(Decode(c).value) == c
  {
    hide Decode, Code;
    if c < 19 {
      FirstCodes(c);
    } else if c < 36 {
      MiddleCodes(c);
    } else if c < 240 {
      LastCodes(c);
    } else {
      ExtraCodes(c);
    }
  }

  lemma FirstCodes(c: Byte)
    requires c < 19
    ensures Decode(c).Some? ==> Code(Decode(c).value) == c
  {
  }

  lemma MiddleCodes(c: Byte)
    requires 19 <= c < 36
    ensures Decode(c).Some? ==> Code(Decode(c).value) == c
  {
  }

  lemma LastCodes(c: Byte)
    requires 36 <= c < 240
    ensures Decode(c).Some? ==> Code(Decode(c).value) == c
  {
  }

  lemma ExtraCodes(c: Byte)
    requires 240 <= c
    ensures Decode(c).Some? ==> Code(Decode(c).value) == c
  {
  }

  // ---------------------------------------------------------------- registers

  const REG_IDT: Byte := 250
  const REG_IR: Byte := 251
  const REG_SP: Byte := 252
  const REG_BP: Byte := 253
  const REG_PC: Byte := 254
  const REG_CS: Byte := 255
}
