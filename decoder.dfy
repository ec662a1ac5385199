/**
 * The instruction decoder of cip8.h: a 16-bit opcode becomes an operation
 * tag and the 12-bit operand that every operation reads its fields from.
 */
module Decoder {
  import opened Results
  import opened Bits

  /**
   * The operations the decoder can produce, under the source's mnemonics.
   * (The source's enum also lists CALL, which no opcode decodes to.)
   */
  datatype Op =
    | CLD | RET | GOTO | CALLS | JEQ | JNEQ | JVEQ | JVNEQ
    | MOV | ADD | ASS | OR | AND | XOR | ADDC | SUBC | SHR | SUBR | SHL
    | SETI | JMV0 | RND | DRW | KEYD | KEYU
    | GETDT | GETK | SETDT | SETST | ADDI | SETISPR | BCD | DUMP | LOAD

  /** The low 12 bits of an opcode. */
  type Operand = x: int | 0 <= x < 0x1000

  datatype Inst = Inst(op: Op, operand: Operand)

  /** Register index `x`: bits 8-11 (`operand >> 8`). */
  function RegX(inst: Inst): (r: nat)
    ensures r < 16
  {
    inst.operand / 0x100
  }

  /** Register index `y`: bits 4-7 (`(operand >> 4) & 0x0F`). */
  function RegY(inst: Inst): (r: nat)
    ensures r < 16
  {
    (inst.operand / 0x10) % 0x10
  }

  /** Immediate byte `nn`: bits 0-7 (`operand & 0xFF`). */
  function Imm8(inst: Inst): (r: byte) {
    inst.operand % 0x100
  }

  /** Nibble `n`: bits 0-3 (`operand & 0x0F`). */
  function Imm4(inst: Inst): (r: nat)
    ensures r < 16
  {
    inst.operand % 0x10
  }

  /** The value of the top nibble that selects each operation. */
  function Family(op: Op): (r: nat)
    ensures r < 16
  {
    match op
    case CLD | RET => 0x0
    case GOTO => 0x1
    case CALLS => 0x2
    case JEQ => 0x3
    case JNEQ => 0x4
    case JVEQ => 0x5
    case MOV => 0x6
    case ADD => 0x7
    case ASS | OR | AND | XOR | ADDC | SUBC | SHR | SUBR | SHL => 0x8
    case JVNEQ => 0x9
    case SETI => 0xA
    case JMV0 => 0xB
    case RND => 0xC
    case DRW => 0xD
    case KEYD | KEYU => 0xE
    case GETDT | GETK | SETDT | SETST | ADDI | SETISPR | BCD | DUMP | LOAD => 0xF
  }

  /**
   * The opcodes the decoder accepts, stated as the selector values each of
   * the four two-level families admits.
   */
  predicate Known(code: word) {
    var top, operand := code / 0x1000, code % 0x1000;
    && (top == 0x0 ==> operand % 0x100 in {0xE0, 0xEE})
    && (top == 0x8 ==> operand % 0x10 <= 7 || operand % 0x10 == 0xE)
    && (top == 0xE ==> operand % 0x100 in {0x9E, 0xA1})
    && (top == 0xF ==> operand % 0x100 in {0x07, 0x0A, 0x15, 0x18, 0x1E, 0x29, 0x33, 0x55, 0x65})
  }

  /** The secondary selector an operation fixes inside its family, if any. */
  predicate SelectorMatches(op: Op, operand: Operand) {
    match op
    case CLD => operand % 0x100 == 0xE0
    case RET => operand % 0x100 == 0xEE
    case ASS => operand % 0x10 == 0x0
    case OR => operand % 0x10 == 0x1
    case AND => operand % 0x10 == 0x2
    case XOR => operand % 0x10 == 0x3
    case ADDC => operand % 0x10 == 0x4
    case SUBC => operand % 0x10 == 0x5
    case SHR => operand % 0x10 == 0x6
    case SUBR => operand % 0x10 == 0x7
    case SHL => operand % 0x10 == 0xE
    case KEYD => operand % 0x100 == 0x9E
    case KEYU => operand % 0x100 == 0xA1
    case GETDT => operand % 0x100 == 0x07
    case GETK => operand % 0x100 == 0x0A
    case SETDT => operand % 0x100 == 0x15
    case SETST => operand % 0x100 == 0x18
    case ADDI => operand % 0x100 == 0x1E
    case SETISPR => operand % 0x100 == 0x29
    case BCD => operand % 0x100 == 0x33
    case DUMP => operand % 0x100 == 0x55
    case LOAD => operand % 0x100 == 0x65
    case _ => true
  }

  /** `cip8_get_inst`; `None` stands for the source's "unknown op-code" assertion failures. */
  function Decode(code: word): (r: Option<Inst>)
    ensures r.Some? <==> Known(code)
    ensures r.Some? ==> r.value.operand == code % 0x1000
  {
    var operand: Operand := code % 0x1000;
    match code / 0x1000
    case 0x0 => DecodeSystem(operand)
    case 0x1 => Some(Inst(GOTO, operand))
    case 0x2 => Some(Inst(CALLS, operand))
    case 0x3 => Some(Inst(JEQ, operand))
    case 0x4 => Some(Inst(JNEQ, operand))
    case 0x5 => Some(Inst(JVEQ, operand))
    case 0x6 => Some(Inst(MOV, operand))
    case 0x7 => Some(Inst(ADD, operand))
    case 0x8 => DecodeArith(operand)
    case 0x9 => Some(Inst(JVNEQ, operand))
    case 0xA => Some(Inst(SETI, operand))
    case 0xB => Some(Inst(JMV0, operand))
    case 0xC => Some(Inst(RND, operand))
    case 0xD => Some(Inst(DRW, operand))
    case 0xE => DecodeKeys(operand)
    case _ => DecodeMisc(operand)
  }

  /** Family 0x0: the low byte selects CLD or RET. */
  function DecodeSystem(operand: Operand): (r: Option<Inst>)
    ensures r.Some? <==> operand % 0x100 in {0xE0, 0xEE}
    ensures r.Some? ==> r.value.operand == operand && Family(r.value.op) == 0x0 && SelectorMatches(r.value.op, operand)
  {
    match operand % 0x100
    case 0xEE => Some(Inst(RET, operand))
    case 0xE0 => Some(Inst(CLD, operand))
    case _ => None
  }

  /** Family 0x8: the low nibble selects the register-to-register operation. */
  function DecodeArith(operand: Operand): (r: Option<Inst>)
    ensures r.Some? <==> operand % 0x10 <= 7 || operand % 0x10 == 0xE
    ensures r.Some? ==> r.value.operand == operand && Family(r.value.op) == 0x8 && SelectorMatches(r.value.op, operand)
  {
    match operand % 0x10
    case 0x0 => Some(Inst(ASS, operand))
    case 0x1 => Some(Inst(OR, operand))
    case 0x2 => Some(Inst(AND, operand))
    case 0x3 => Some(Inst(XOR, operand))
    case 0x4 => Some(Inst(ADDC, operand))
    case 0x5 => Some(Inst(SUBC, operand))
    case 0x6 => Some(Inst(SHR, operand))
    case 0x7 => Some(Inst(SUBR, operand))
    case 0xE => Some(Inst(SHL, operand))
    case _ => None
  }

  /** Family 0xE: the low byte selects KEYD or KEYU. */
  function DecodeKeys(operand: Operand): (r: Option<Inst>)
    ensures r.Some? <==> operand % 0x100 in {0x9E, 0xA1}
    ensures r.Some? ==> r.value.operand == operand && Family(r.value.op) == 0xE && SelectorMatches(r.value.op, operand)
  {
    match operand % 0x100
    case 0x9E => Some(Inst(KEYD, operand))
    case 0xA1 => Some(Inst(KEYU, operand))
    case _ => None
  }

  /** Family 0xF: the low byte selects the timer, key, index and memory operations. */
  function DecodeMisc(operand: Operand): (r: Option<Inst>)
    ensures r.Some? <==> operand % 0x100 in {0x07, 0x0A, 0x15, 0x18, 0x1E, 0x29, 0x33, 0x55, 0x65}
    ensures r.Some? ==> r.value.operand == operand && Family(r.value.op) == 0xF && SelectorMatches(r.value.op, operand)
  {
    match operand % 0x100
    case 0x07 => Some(Inst(GETDT, operand))
    case 0x0A => Some(Inst(GETK, operand))
    case 0x15 => Some(Inst(SETDT, operand))
    case 0x18 => Some(Inst(SETST, operand))
    case 0x1E => Some(Inst(ADDI, operand))
    case 0x29 => Some(Inst(SETISPR, operand))
    case 0x33 => Some(Inst(BCD, operand))
    case 0x55 => Some(Inst(DUMP, operand))
    case 0x65 => Some(Inst(LOAD, operand))
    case _ => None
  }

  /** A decoded operation belongs to the family of the opcode's top nibble and its selector matches. */
  lemma DecodeFamily(code: word)
    requires Decode(code).Some?
    ensures Family(Decode(code).value.op) == code / 0x1000
    ensures SelectorMatches(Decode(code).value.op, Decode(code).value.operand)
  {
  }

  /** The opcode that spells an instruction: its family nibble above its operand. */
  function Encode(inst: Inst): (code: word) {
    Family(inst.op) * 0x1000 + inst.operand
  }

  /** Decoding loses nothing: a decoded opcode is re-encoded to itself. */
  lemma EncodeDecoded(code: word)
    requires Decode(code).Some?
    ensures Encode(Decode(code).value) == code
  {
    DecodeFamily(code);
  }

  /** Every instruction whose operand carries its operation's selector decodes back to itself. */
  lemma DecodeEncoded(inst: Inst)
    requires SelectorMatches(inst.op, inst.operand)
    ensures Decode(Encode(inst)) == Some(inst)
  {
    var code := Encode(inst);
    assert code / 0x1000 == Family(inst.op) && code % 0x1000 == inst.operand;
    assert code % 0x100 == inst.operand % 0x100 && code % 0x10 == inst.operand % 0x10;
  }

  /** The register-compare skips do not look at their low nibble. */
  lemma CompareSkipsIgnoreLowNibble(code: word, n: nat)
    requires code / 0x1000 == 0x5 || code / 0x1000 == 0x9
    requires n < 16 && code - code % 0x10 + n < 0x1_0000
    ensures Decode(code).Some? && Decode(code - code % 0x10 + n).Some?
    ensures Decode(code).value.op == Decode(code - code % 0x10 + n).value.op
  {
    var other := code - code % 0x10 + n;
    assert other / 0x1000 == code / 0x1000;
  }
}
