/** The operand widths of the opcodes: what is built from them is what the decoders take for one instruction. */
module Encodings {
  import opened Bytecode
  import Builder
  import Codec
  import Stacks

  /** The operand widths of an opcode; a negative one stands for a counted list. */
  function WidthsOf(op: Byte): seq<int> {
    match op
    case 5 => [2] case 6 => [2] case 7 => [-2, 2]
    case 16 => [2] case 17 => [2] case 18 => [2]
    case 19 => [1] case 20 => [1] case 21 => [1]
    case 22 => [2] case 23 => [1] case 24 => [1]
    case 29 => [2] case 30 => [2]
    case 34 => [4] case 73 => [8] case 112 => [4] case 141 => [8]
    case 180 => [2] case 181 => [2] case 190 => [2] case 191 => [2] case 194 => [2] case 195 => [2]
    case _ => []
  }

  /** An instruction built over its operands' widths is one whole instruction to whoever steps over it, a jump table as
      long as its count fits a byte. */
  lemma BuiltWhole(op: Byte, vs: seq<nat>)
    requires Codec.Enough(WidthsOf(op), vs) && Codec.Countable(WidthsOf(op), vs)
    ensures Builder.Whole([op] + Codec.Fields(WidthsOf(op), vs))
  {
    var inst := [op] + Codec.Fields(WidthsOf(op), vs);
    if op == BR_TABLE {
      TableFields(vs);
    } else {
      OneField(op, vs);
    }
  }

  lemma OneField(op: Byte, vs: seq<nat>)
    requires op != BR_TABLE && Codec.Enough(WidthsOf(op), vs)
    ensures |Codec.Fields(WidthsOf(op), vs)| == FixedOperands(op)
  {
  }

  lemma TableFields(vs: seq<nat>)
    requires Codec.Enough([-2, 2], vs) && Codec.Countable([-2, 2], vs)
    ensures |Codec.Fields([-2, 2], vs)| == 3 + 2 * vs[0] && Codec.Fields([-2, 2], vs)[0] == vs[0]
  {
    Codec.TimesIs(vs[0], 2);
    assert [-2, 2][1..] == [2] && [2][1..] == [];
    assert |Codec.Fields([2], vs[1 + vs[0]..])| == 2;
  }

  lemma WidthIs(op: Byte)
    ensures WidthsOf(op) == [1] || WidthsOf(op) == [2] ==> [FixedOperands(op)] == WidthsOf(op) && op != BR_TABLE
  {
  }

  /** An index operand is the one operand of its instruction. */
  lemma IndexIs(code: seq<Byte>, ip: int)
    requires 0 <= ip < |code| && ip + Width(code, ip) <= |code|
    requires WidthsOf(code[ip]) == [1] || WidthsOf(code[ip]) == [2]
    ensures Codec.Operands(WidthsOf(code[ip]), code[ip + 1..ip + Width(code, ip)]) == Some([Stacks.Operand(code, ip)])
  {
    hide FixedOperands, WidthsOf;
    WidthIs(code[ip]);
    var w := FixedOperands(code[ip]);
    var b := code[ip + 1..ip + Width(code, ip)];
    assert |b| == w && [w as int][1..] == [] && b[..w] == b && b[w..] == [];
    OneOperand(b, w);
    FewRead(b);
  }

  lemma OneOperand(b: seq<Byte>, w: int)
    requires |b| == w && w > 0
    ensures Codec.Operands([w], b) == Some([Codec.Read(b)])
  {
    assert [w][1..] == [] && b[..w] == b && b[w..] == [];
    assert Codec.Operands([], []) == Some([]);
    assert [Codec.Read(b)] + [] == [Codec.Read(b)];
  }

  lemma FewRead(b: seq<Byte>)
    requires |b| == 1 || |b| == 2
    ensures Codec.Read(b) == (b[0] as int) + (if |b| == 2 then 256 * (b[1] as int) else 0)
  {
    assert Codec.Read(b[1..]) == if |b| == 2 then (b[1] as int) + 256 * Codec.Read(b[1..][1..]) else 0;
  }
}
