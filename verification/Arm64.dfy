/** AArch64 branches: their encodings (Arm Architecture Reference Manual DDI 0487, section C6.2, entries B,
    B.cond, CBZ, CBNZ) and the relaxation of those that cannot reach. */
module Arm64 {
  datatype Option<T> = None | Some(value: T)

  type Byte = x: int | 0 <= x < 256

  datatype Reg = Reg(id: int, wide: bool)

  /** Conditions are named by their four-bit code; Use is a pseudo-instruction that occupies no bytes;
      every other instruction is one word, or cannot be encoded. */
  datatype Op = B | BL | Cond(code: int) | CBZ | CBNZ | Use | Other(word: Option<int>)

  datatype Operand = Imm(v: int) | Label(id: int) | Nothing

  datatype Inst = Inst(op: Op, reg: Option<Reg>, src2: Operand)

  predicate WellFormed(i: Inst) {
    && (i.op.Cond? ==> 0 <= i.op.code < 14)
    && (i.reg.Some? ==> 0 <= i.reg.value.id < 32)
    && (i.op.Other? && i.op.word.Some? ==> 0 <= i.op.word.value < 0x1_0000_0000)
  }

  /** The offset is whole instructions and fits a signed field of 2 * half values. */
  predicate Reaches(offset: int, half: int) {
    offset % 4 == 0 && -half <= offset / 4 < half
  }

  const HALF19 := 0x4_0000
  const HALF26 := 0x200_0000

  function Field(offset: int, size: int): int
    requires size > 0
  {
    offset / 4 % size
  }

  function Bytes(w: int): seq<Byte> {
    [w % 256, w / 256 % 256, w / 65536 % 256, w / 16777216 % 256]
  }

  function WordOf(b: seq<Byte>): int
    requires |b| == 4
  {
    var b0: int, b1: int, b2: int, b3: int := b[0], b[1], b[2], b[3];
    b0 + 256 * b1 + 65536 * b2 + 16777216 * b3
  }

  /** The word for an instruction. Branches need an immediate that reaches. */
  function Word(i: Inst): Option<int> {
    match i.op
    case B => if i.src2.Imm? && Reaches(i.src2.v, HALF26) then Some(0x1400_0000 + Field(i.src2.v, 0x400_0000)) else None
    case BL => if i.src2.Imm? && Reaches(i.src2.v, HALF26) then Some(0x9400_0000 + Field(i.src2.v, 0x400_0000))
        else None
    case Cond(c) => if i.src2.Imm? && Reaches(i.src2.v, HALF19)
        then Some(0x5400_0000 + 32 * Field(i.src2.v, 0x8_0000) + c) else None
    case CBZ => Compare(0x3400_0000, i)
    case CBNZ => Compare(0x3500_0000, i)
    case Use => None
    case Other(w) => w
  }

  function Compare(base: int, i: Inst): Option<int> {
    if i.reg.Some? && i.src2.Imm? && Reaches(i.src2.v, HALF19) then
      Some(base + (if i.reg.value.wide then 0x8000_0000 else 0) + 32 * Field(i.src2.v, 0x8_0000) + i.reg.value.id)
    else None
  }

  function Encode(i: Inst): (r: Option<seq<Byte>>)
    ensures r.Some? ==> |r.value| == 4
  {
    match Word(i) case None => None case Some(w) => Some(Bytes(w))
  }

  function Signed(f: int, half: int): int {
    if f < half then f else f - 2 * half
  }

  /** Reads a branch back from its word. */
  function Decode(w: int): Option<Inst> {
    if w / 0x400_0000 == 5 then Some(Inst(B, None, Imm(4 * Signed(w % 0x400_0000, HALF26))))
    else if w / 0x400_0000 == 0x25 then Some(Inst(BL, None, Imm(4 * Signed(w % 0x400_0000, HALF26))))
    else if w / 0x100_0000 == 0x54 then Some(Inst(Cond(w % 32), None, Imm(4 * Signed(w / 32 % 0x8_0000, HALF19))))
    else if w / 0x100_0000 == 0x34 || w / 0x100_0000 == 0xB4 then
      Some(Inst(CBZ, Some(Reg(w % 32, w / 0x100_0000 == 0xB4)), Imm(4 * Signed(w / 32 % 0x8_0000, HALF19))))
    else if w / 0x100_0000 == 0x35 || w / 0x100_0000 == 0xB5 then
      Some(Inst(CBNZ, Some(Reg(w % 32, w / 0x100_0000 == 0xB5)), Imm(4 * Signed(w / 32 % 0x8_0000, HALF19))))
    else None
  }

  predicate IsBranch(op: Op) {
    op == B || op == BL || op.Cond? || op == CBZ || op == CBNZ
  }

  lemma Field26(v: int)
    requires Reaches(v, HALF26)
    ensures 0 <= Field(v, 0x400_0000) < 0x400_0000 && 4 * Signed(Field(v, 0x400_0000), HALF26) == v
  {
    assert v / 4 < 0 ==> Field(v, 0x400_0000) == v / 4 + 0x400_0000;
  }

  lemma Field19(v: int)
    requires Reaches(v, HALF19)
    ensures 0 <= Field(v, 0x8_0000) < 0x8_0000 && 4 * Signed(Field(v, 0x8_0000), HALF19) == v
  {
    assert v / 4 < 0 ==> Field(v, 0x8_0000) == v / 4 + 0x8_0000;
  }

  lemma Parts26(base: int, f: int)
    requires 0 <= f < 0x400_0000
    ensures (base * 0x400_0000 + f) / 0x400_0000 == base && (base * 0x400_0000 + f) % 0x400_0000 == f
  {
  }

  lemma Parts19(base: int, f: int, low: int)
    requires 0 <= f < 0x8_0000 && 0 <= low < 32
    ensures var w := base * 0x100_0000 + 32 * f + low;
            w / 0x100_0000 == base && w % 32 == low && w / 32 % 0x8_0000 == f && w / 0x400_0000 == base / 4
  {
    var w := base * 0x100_0000 + 32 * f + low;
    assert w / 32 == base * 0x8_0000 + f;
    assert w / 0x400_0000 == (w / 0x100_0000) / 4;
  }

  lemma BytesWord(w: int)
    requires 0 <= w < 0x1_0000_0000
    ensures WordOf(Bytes(w)) == w
  {
  }

  /** An encoded branch reads back as itself: the field holds the displacement exactly. */
  lemma EncodeDecodes(i: Inst)
    requires WellFormed(i) && IsBranch(i.op) && Encode(i).Some?
    ensures var d := Decode(WordOf(Encode(i).value));
            d.Some? && d.value.op == i.op && d.value.src2 == i.src2 &&
                (i.op == CBZ || i.op == CBNZ ==> d.value.reg == i.reg)
  {
    hide Bytes, WordOf, Field, Signed;
    var w := Word(i).value;
    var v := i.src2.v;
    match i.op
    case B =>
      Field26(v);
      Parts26(5, Field(v, 0x400_0000));
      BytesWord(w);
    case BL =>
      Field26(v);
      Parts26(0x25, Field(v, 0x400_0000));
      BytesWord(w);
    case Cond(c) =>
      Field19(v);
      Parts19(0x54, Field(v, 0x8_0000), c);
      BytesWord(w);
    case CBZ =>
      Field19(v);
      Parts19(0x34 + (if i.reg.value.wide then 0x80 else 0), Field(v, 0x8_0000), i.reg.value.id);
      BytesWord(w);
    case CBNZ =>
      Field19(v);
      Parts19(0x35 + (if i.reg.value.wide then 0x80 else 0), Field(v, 0x8_0000), i.reg.value.id);
      BytesWord(w);
    case Use =>
    case Other(_) =>
  }

  /** Some words of the manual. */
  lemma KnownWords()
    ensures Word(Inst(B, None, Imm(4))) == Some(0x1400_0001) && Word(Inst(BL, None, Imm(-4))) == Some(0x97FF_FFFF)
    ensures Word(Inst(Cond(0), None, Imm(8))) == Some(0x5400_0040)
    ensures Word(Inst(CBZ, Some(Reg(3, true)), Imm(-4))) == Some(0xB4FF_FFE3)
    ensures Word(Inst(CBNZ, Some(Reg(1, false)), Imm(12))) == Some(0x3500_0061)
  {
  }

  /** A branch can be encoded exactly when its displacement reaches. */
  lemma EncodesIff(i: Inst)
    requires IsBranch(i.op) && i.src2.Imm? && (i.op == CBZ || i.op == CBNZ ==> i.reg.Some?)
    ensures Encode(i).Some? <==> Reaches(i.src2.v, if i.op == B || i.op == BL then HALF26 else HALF19)
  {
  }

  /** The branches relaxation knows how to invert. */
  predicate Inverts(op: Op) {
    op.Cond? || op == CBZ || op == CBNZ
  }

  /** Condition codes come in pairs that differ in the last bit. */
  function Inverted(op: Op): Op
    requires Inverts(op)
  {
    match op
    case CBZ => CBNZ
    case CBNZ => CBZ
    case Cond(c) => Cond(if c % 2 == 0 then c + 1 else c - 1)
    case _ => op
  }

  datatype Flags = Flags(n: bool, z: bool, c: bool, v: bool)

  /** When a branch is taken, in a machine with these flags and registers. */
  predicate Taken(op: Op, reg: Option<Reg>, flags: Flags, regs: Reg -> int) {
    match op
    case Cond(c) =>
      if c == 0 then flags.z else if c == 1 then !flags.z
      else if c == 2 then flags.c else if c == 3 then !flags.c
      else if c == 4 then flags.n else if c == 5 then !flags.n
      else if c == 6 then flags.v else if c == 7 then !flags.v
      else if c == 8 then flags.c && !flags.z else if c == 9 then !flags.c || flags.z
      else if c == 10 then flags.n == flags.v else if c == 11 then flags.n != flags.v
      else if c == 12 then !flags.z && flags.n == flags.v else flags.z || flags.n != flags.v
    case CBZ => reg.Some? && regs(reg.value) == 0
    case CBNZ => !(reg.Some? && regs(reg.value) == 0)
    case B => true
    case BL => true
    case _ => false
  }

  /** The inverted branch is taken exactly when the original is not. */
  lemma InvertedNegates(op: Op, reg: Option<Reg>, flags: Flags, regs: Reg -> int)
    requires Inverts(op) && (op.Cond? ==> 0 <= op.code < 14)
    ensures Taken(Inverted(op), reg, flags, regs) <==> !Taken(op, reg, flags, regs)
    ensures Inverts(Inverted(op)) && (op.Cond? ==> 0 <= Inverted(op).code < 14) && Inverted(Inverted(op)) == op
  {
  }

  /** Rewrites a label branch that cannot reach disp into an inverted branch over an unconditional one. */
  function Relax(i: Inst, disp: int): Option<seq<Inst>> {
    if !Inverts(i.op) || Reaches(disp, HALF19) || !i.src2.Label? then None
    else if !Reaches(if disp < 0 then disp - 4 else disp, HALF26) then None
    else Some([Inst(Inverted(i.op), if i.op.Cond? then None else i.reg, Imm(8)), Inst(B, None, i.src2)])
  }

  /** A label branch at `at` is relaxed exactly when it cannot reach its target itself and the unconditional branch that
      comes to stand behind it can, a target further on having moved by one instruction. */
  lemma RelaxIff(i: Inst, at: int, target: int)
    ensures Relax(i, target - at).Some? <==>
              && Inverts(i.op) && i.src2.Label? && !Reaches(target - at, HALF19)
              && Reaches((if at < target then target + 4 else target) - (at + 4), HALF26)
  {
  }
}
