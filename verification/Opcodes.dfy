/** What the handlers of the opcodes do with the operand stack, opcode by opcode: the order and the kinds of the
    operands they read, and of what they leave. */
module Opcodes {
  import opened Bytecode
  import opened Stacks

  /** What a handler works on: the kinds of its operands, in the order they were pushed, and of what it leaves. Any is
      whatever there is. */
  datatype Hands = Hands(takes: seq<Kind>, gives: seq<Kind>)

  /** The integer handlers of one width, n after the one for constants, of which ext extend a sign. */
  function IntHands(n: int, ext: int, k: Kind): Option<Hands> {
    if n == 0 then Some(Hands([], [k]))
    else if 1 <= n < 14 || 17 <= n < 19 then Some(Hands([k, k], [k]))
    else if 14 <= n < 17 || 19 <= n < 19 + ext then Some(Hands([k], [k]))
    else if n == 19 + ext then Some(Hands([k], [I1]))
    else if 20 + ext <= n < 30 + ext then Some(Hands([k, k], [I1]))
    else None
  }

  /** The floating-point handlers of one width, n after the one for constants. */
  function FloatHands(n: int, k: Kind): Option<Hands> {
    if n == 0 then Some(Hands([], [k]))
    else if 1 <= n < 7 || 14 <= n < 17 then Some(Hands([k, k], [k]))
    else if 7 <= n < 14 then Some(Hands([k], [k]))
    else if 17 <= n < 23 then Some(Hands([k, k], [I1]))
    else None
  }

  /** Conversions of integers, and the reinterpretations beside them. */
  function FromInts(op: Byte): Option<Hands> {
    match op
    case 66 => Some(Hands([I32], [I64])) case 67 => Some(Hands([I32], [I64]))
    case 68 => Some(Hands([I32], [F32])) case 69 => Some(Hands([I32], [F32]))
    case 70 => Some(Hands([I32], [F64])) case 71 => Some(Hands([I32], [F64]))
    case 72 => Some(Hands([F32], [I32])) case 106 => Some(Hands([I64], [I32]))
    case 107 => Some(Hands([I64], [F32])) case 108 => Some(Hands([I64], [F32]))
    case 109 => Some(Hands([I64], [F64])) case 110 => Some(Hands([I64], [F64]))
    case 111 => Some(Hands([F64], [I64]))
    case _ => None
  }

  /** Conversions of floating-point numbers, and the reinterpretations beside them. */
  function FromFloats(op: Byte): Option<Hands> {
    match op
    case 135 => Some(Hands([F32], [I32])) case 136 => Some(Hands([F32], [I32]))
    case 137 => Some(Hands([F32], [I64])) case 138 => Some(Hands([F32], [I64]))
    case 139 => Some(Hands([F32], [F64])) case 140 => Some(Hands([I32], [F32]))
    case 164 => Some(Hands([F64], [I32])) case 165 => Some(Hands([F64], [I32]))
    case 166 => Some(Hands([F64], [I64])) case 167 => Some(Hands([F64], [I64]))
    case 168 => Some(Hands([F64], [F32])) case 169 => Some(Hands([I64], [F64]))
    case _ => None
  }

  /** Control, variables and references. */
  function ControlHands(op: Byte): Option<Hands> {
    match op
    case 2 => Some(Hands([Any], [])) case 6 => Some(Hands([I32], [])) case 7 => Some(Hands([I32], []))
    case 12 => Some(Hands([Any], [Any])) case 13 => Some(Hands([Ref, Any], [Ref]))
    case 14 => Some(Hands([Ref], [I1])) case 15 => Some(Hands([Ref], [Any]))
    case 16 => Some(Hands([], [Any])) case 17 => Some(Hands([Any], []))
    case 19 => Some(Hands([], [Any])) case 20 => Some(Hands([Any], []))
    case 22 => Some(Hands([], [Any]))
    case 23 => Some(Hands([], [Any])) case 24 => Some(Hands([Any], []))
    case 25 => Some(Hands([], [Ref])) case 26 => Some(Hands([Any], [Ref])) case 27 => Some(Hands([Ref], [Any]))
    case 28 => Some(Hands([Ref, Any], [])) case 29 => Some(Hands([Any], [I1])) case 30 => Some(Hands([Any], [Any]))
    case 31 => Some(Hands([Ref], [I1]))
    case 32 => Some(Hands([Ref, Ref], [I1])) case 33 => Some(Hands([Ref, Ref], [I1]))
    case _ => None
  }

  /** Texts, arrays, records, maps, iterators, exceptions and coroutines. */
  function HeapHands(op: Byte): Option<Hands> {
    match op
    case 170 => Some(Hands([Ref], [Ref])) case 171 => Some(Hands([Ref], [I32]))
    case 172 => Some(Hands([Ref, Ref], [Ref])) case 173 => Some(Hands([Ref, Ref], [I1]))
    case 174 => Some(Hands([Ref, Ref], [I1])) case 175 => Some(Hands([Ref, Ref], [I1]))
    case 176 => Some(Hands([Ref, Ref], [I1])) case 177 => Some(Hands([Ref, Ref], [I1]))
    case 178 => Some(Hands([Ref, Ref], [I1])) case 179 => Some(Hands([Ref], [Ref]))
    case 181 => Some(Hands([I32], [Ref])) case 182 => Some(Hands([Ref], [I32]))
    case 183 => Some(Hands([Ref, I32], [Any])) case 184 => Some(Hands([Ref, I32, Any], []))
    case 185 => Some(Hands([Ref, I32, Any, I32], [])) case 186 => Some(Hands([Ref, I32, Ref, I32, I32], []))
    case 188 => Some(Hands([Ref, I32], [Any])) case 189 => Some(Hands([Ref, I32, I32], [Ref]))
    case 191 => Some(Hands([], [Ref])) case 192 => Some(Hands([Ref, I32], [Any]))
    case 193 => Some(Hands([Ref, I32, Any], [])) case 195 => Some(Hands([I32], [Ref]))
    case 196 => Some(Hands([Ref], [I32])) case 197 => Some(Hands([Ref, Any], [Any]))
    case 198 => Some(Hands([Ref, Any], [Any, I1])) case 199 => Some(Hands([Ref, Any, Any], []))
    case 200 => Some(Hands([Ref, Any], [])) case 201 => Some(Hands([Ref], [])) case 202 => Some(Hands([Ref], [Ref]))
    case 204 => Some(Hands([Ref], [Ref])) case 205 => Some(Hands([Any], []))
    case 206 => Some(Hands([Any, I32], [Ref])) case 207 => Some(Hands([Ref], [Any]))
    case 208 => Some(Hands([Ref], [I32])) case 209 => Some(Hands([Ref], [Ref]))
    case _ => None
  }

  function HandsOf(op: Byte): Option<Hands> {
    if op < 34 then ControlHands(op)
    else if op < 66 then IntHands(op - 34, 2, I32)
    else if op < 73 then FromInts(op)
    else if op < 106 then IntHands(op - 73, 3, I64)
    else if op < 112 then FromInts(op)
    else if op < 135 then FloatHands(op - 112, F32)
    else if op < 141 then FromFloats(op)
    else if op < 164 then FloatHands(op - 141, F64)
    else if op < 170 then FromFloats(op)
    else HeapHands(op)
  }

  /** Entry op of the table the analysis goes by lists what the handler takes, from the top down, and what it leaves. */
  ghost predicate Agrees(op: Byte) {
    && (Fixed(op).Some? <==> HandsOf(op).Some? && op !in {19, 22, 23})
    && (Fixed(op).Some? ==>
          var (e, h) := (Fixed(op).value, HandsOf(op).value);
          && e.push == h.gives && |e.pop| == |h.takes|
          && forall i :: 0 <= i < |e.pop| ==> e.pop[|e.pop| - 1 - i] == h.takes[i])
  }

  lemma IntsAgree(op: Byte)
    requires 34 <= op < 66 || 73 <= op < 106
    ensures Agrees(op)
  {
    hide FloatHands, FromInts, FromFloats, ControlHands, HeapHands, ControlEffect, FloatEffect, HeapEffect;
  }

  lemma FloatsAgree(op: Byte)
    requires 112 <= op < 135 || 141 <= op < 164
    ensures Agrees(op)
  {
    hide IntHands, FromInts, FromFloats, ControlHands, HeapHands, ControlEffect, IntEffect, HeapEffect;
  }

  lemma I32ConversionsAgree(op: Byte)
    requires 66 <= op < 73
    ensures Agrees(op)
  {
    hide IntHands, FloatHands, FromFloats, ControlHands, HeapHands, ControlEffect, FloatEffect, HeapEffect;
  }

  lemma I64ConversionsAgree(op: Byte)
    requires 106 <= op < 112
    ensures Agrees(op)
  {
    hide IntHands, FloatHands, FromFloats, ControlHands, HeapHands, ControlEffect, FloatEffect, HeapEffect;
  }

  lemma F32ConversionsAgree(op: Byte)
    requires 135 <= op < 141
    ensures Agrees(op)
  {
    hide IntHands, FloatHands, FromInts, ControlHands, HeapHands, ControlEffect, IntEffect, HeapEffect;
  }

  lemma F64ConversionsAgree(op: Byte)
    requires 164 <= op < 170
    ensures Agrees(op)
  {
    hide IntHands, FloatHands, FromInts, ControlHands, HeapHands, ControlEffect, IntEffect, HeapEffect;
  }

  lemma ControlAgrees(op: Byte)
    requires op < 34
    ensures Agrees(op)
  {
    hide IntHands, FloatHands, FromInts, FromFloats, HeapHands, IntEffect, FloatEffect, HeapEffect;
  }

  lemma TextsAgree(op: Byte)
    requires 170 <= op < 180
    ensures Agrees(op)
  {
    hide IntHands, FloatHands, FromInts, FromFloats, ControlHands, ControlEffect, IntEffect, FloatEffect;
  }

  lemma ArraysAgree(op: Byte)
    requires 180 < op < 190
    ensures Agrees(op)
  {
    hide IntHands, FloatHands, FromInts, FromFloats, ControlHands, ControlEffect, IntEffect, FloatEffect;
  }

  lemma RecordsAgree(op: Byte)
    requires 190 <= op < 200
    ensures Agrees(op)
  {
    hide IntHands, FloatHands, FromInts, FromFloats, ControlHands, ControlEffect, IntEffect, FloatEffect;
  }

  lemma RestAgrees(op: Byte)
    requires 200 <= op
    ensures Agrees(op)
  {
    hide IntHands, FloatHands, FromInts, FromFloats, ControlHands, ControlEffect, IntEffect, FloatEffect;
  }

  lemma HandsMatch(op: Byte)
    requires op != 180
    ensures Agrees(op)
  {
    hide Agrees;
    if 34 <= op < 66 || 73 <= op < 106 {
      IntsAgree(op);
    } else if 112 <= op < 135 || 141 <= op < 164 {
      FloatsAgree(op);
    } else if op < 34 {
      ControlAgrees(op);
    } else if 66 <= op < 73 {
      I32ConversionsAgree(op);
    } else if 106 <= op < 112 {
      I64ConversionsAgree(op);
    } else if 135 <= op < 141 {
      F32ConversionsAgree(op);
    } else if 164 <= op < 170 {
      F64ConversionsAgree(op);
    } else if op < 180 {
      TextsAgree(op);
    } else if op < 190 {
      ArraysAgree(op);
    } else if op < 200 {
      RecordsAgree(op);
    } else {
      RestAgrees(op);
    }
  }

  lemma ArrayEffect()
    ensures Fixed(180) == Some(Effect([I32, Any], [Ref]))
  {
  }

  lemma NoControl(op: Byte)
    requires op in {0, 1, 3, 4, 5, 8, 9, 10, 11, 18, 21}
    ensures ControlHands(op) == None
  {
  }

  lemma NoHeap(op: Byte)
    requires op in {180, 190, 194, 203}
    ensures HeapHands(op) == None
  {
  }

  /** These have an effect of their own. */
  lemma MovingHands(op: Byte)
    ensures op in {0, 1, 3, 4, 5, 8, 9, 10, 11, 18, 21, 180, 190, 194, 203} ==> HandsOf(op) == None
  {
    hide ControlHands, FromInts, FromFloats, HeapHands;
    if op in {0, 1, 3, 4, 5, 8, 9, 10, 11, 18, 21} {
      NoControl(op);
    } else if op in {180, 190, 194, 203} {
      NoHeap(op);
    }
  }
}
