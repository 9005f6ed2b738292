/** The verifier's abstract operand stack and the effect of each instruction on it. */
module Stacks {
  import opened Bytecode

  datatype Kind = F64 | F32 | I64 | Ref | I32 | I8 | I1 | Any

  /** Declared types, as far as the verifier looks into them. */
  datatype Type = Prim(kind: Kind) | Dynamic | Fn(params: seq<Type>,
      results: seq<Type>) | Struct(fields: seq<Type>) | Other(name: int)

  function KindOf(t: Type): Kind {
    if t.Prim? then t.kind else Ref
  }

  /** One abstract entry: a kind and, when it is known, a type. */
  datatype Slot = Slot(kind: Kind, typ: Option<Type>)

  datatype Error =
    | Truncated | UnknownOpcode | IndexOutOfRange | StackUnderflow | StackMismatch | TypeMismatch
    | FallThrough | InvalidJump | HandlerRange | HandlerTarget

  /** What an instruction's checks come to. Indeterminate ends the analysis without a verdict. */
  datatype Verdict = Continue(st: seq<Slot>) | Indeterminate | Reject(error: Error)

  /** The program and the function under check. */
  datatype Context = Context(constants: seq<Slot>, globals: seq<Type>, types: seq<Type>, locals: seq<Type>,
      captures: seq<Type>,
                             results: nat, top: bool, casts: (Type, Type) -> bool)

  datatype Effect = Effect(pop: seq<Kind>, push: seq<Kind>)

  const DROP: Byte := 2
  const DUP: Byte := 3
  const SWAP: Byte := 4
  const SELECT: Byte := 8
  const CALL: Byte := 9
  const GLOBAL_GET: Byte := 16
  const GLOBAL_SET: Byte := 17
  const GLOBAL_TEE: Byte := 18
  const LOCAL_GET: Byte := 19
  const LOCAL_SET: Byte := 20
  const LOCAL_TEE: Byte := 21
  const CONST_GET: Byte := 22
  const UPVAL_GET: Byte := 23
  const UPVAL_SET: Byte := 24
  const STRUCT_NEW: Byte := 190
  const MAP_NEW: Byte := 194
  const CLOSURE_NEW: Byte := 203

  predicate Bitwise(op: Byte) {
    45 <= op <= 47
  }

  /** Control, variables and references. */
  function ControlEffect(op: Byte): Option<Effect> {
    if op == 2 || op == 17 || op == 20 || op == 24 then Some(Effect([Any], []))
    else if 6 <= op <= 7 then Some(Effect([I32], []))
    else if op == 12 || op == 30 then Some(Effect([Any], [Any]))
    else if op == 13 then Some(Effect([Any, Ref], [Ref]))
    else if op == 14 || op == 31 then Some(Effect([Ref], [I1]))
    else if op == 15 || op == 27 then Some(Effect([Ref], [Any]))
    else if op == 16 then Some(Effect([], [Any]))
    else if op == 25 then Some(Effect([], [Ref]))
    else if op == 26 then Some(Effect([Any], [Ref]))
    else if op == 28 then Some(Effect([Any, Ref], []))
    else if op == 29 then Some(Effect([Any], [I1]))
    else if 32 <= op <= 33 then Some(Effect([Ref, Ref], [I1]))
    else None
  }

  /** Integer arithmetic and the conversions of integers. */
  function IntEffect(op: Byte): Option<Effect> {
    if op == 34 then Some(Effect([], [I32]))
    else if 35 <= op <= 47 || 51 <= op <= 52 then Some(Effect([I32, I32], [I32]))
    else if 48 <= op <= 50 || 53 <= op <= 54 then Some(Effect([I32], [I32]))
    else if op == 55 then Some(Effect([I32], [I1]))
    else if 56 <= op <= 65 then Some(Effect([I32, I32], [I1]))
    else if 66 <= op <= 67 then Some(Effect([I32], [I64]))
    else if 68 <= op <= 69 then Some(Effect([I32], [F32]))
    else if 70 <= op <= 71 then Some(Effect([I32], [F64]))
    else if op == 72 then Some(Effect([F32], [I32]))
    else if op == 73 then Some(Effect([], [I64]))
    else if 74 <= op <= 86 || 90 <= op <= 91 then Some(Effect([I64, I64], [I64]))
    else if 87 <= op <= 89 || 92 <= op <= 94 then Some(Effect([I64], [I64]))
    else if op == 95 then Some(Effect([I64], [I1]))
    else if 96 <= op <= 105 then Some(Effect([I64, I64], [I1]))
    else if op == 106 then Some(Effect([I64], [I32]))
    else if 107 <= op <= 108 then Some(Effect([I64], [F32]))
    else if 109 <= op <= 110 then Some(Effect([I64], [F64]))
    else if op == 111 then Some(Effect([F64], [I64]))
    else None
  }

  /** Floating-point arithmetic and the conversions of floating-point numbers. */
  function FloatEffect(op: Byte): Option<Effect> {
    if op == 112 then Some(Effect([], [F32]))
    else if 113 <= op <= 118 || 126 <= op <= 128 then Some(Effect([F32, F32], [F32]))
    else if 119 <= op <= 125 then Some(Effect([F32], [F32]))
    else if 129 <= op <= 134 then Some(Effect([F32, F32], [I1]))
    else if 135 <= op <= 136 then Some(Effect([F32], [I32]))
    else if 137 <= op <= 138 then Some(Effect([F32], [I64]))
    else if op == 139 then Some(Effect([F32], [F64]))
    else if op == 140 then Some(Effect([I32], [F32]))
    else if op == 141 then Some(Effect([], [F64]))
    else if 142 <= op <= 147 || 155 <= op <= 157 then Some(Effect([F64, F64], [F64]))
    else if 148 <= op <= 154 then Some(Effect([F64], [F64]))
    else if 158 <= op <= 163 then Some(Effect([F64, F64], [I1]))
    else if 164 <= op <= 165 then Some(Effect([F64], [I32]))
    else if 166 <= op <= 167 then Some(Effect([F64], [I64]))
    else if op == 168 then Some(Effect([F64], [F32]))
    else if op == 169 then Some(Effect([I64], [F64]))
    else None
  }

  /** Texts, arrays, records, maps, exceptions, iterators and coroutines. */
  function HeapEffect(op: Byte): Option<Effect> {
    if op == 170 || op == 179 || op == 202 || op == 204 || op == 209 then Some(Effect([Ref], [Ref]))
    else if op == 171 || op == 182 || op == 196 || op == 208 then Some(Effect([Ref], [I32]))
    else if op == 172 then Some(Effect([Ref, Ref], [Ref]))
    else if 173 <= op <= 178 then Some(Effect([Ref, Ref], [I1]))
    else if op == 180 || op == 206 then Some(Effect([I32, Any], [Ref]))
    else if op == 181 || op == 195 then Some(Effect([I32], [Ref]))
    else if op == 183 || op == 188 || op == 192 then Some(Effect([I32, Ref], [Any]))
    else if op == 184 || op == 193 then Some(Effect([Any, I32, Ref], []))
    else if op == 185 then Some(Effect([I32, Any, I32, Ref], []))
    else if op == 186 then Some(Effect([I32, I32, Ref, I32, Ref], []))
    else if op == 189 then Some(Effect([I32, I32, Ref], [Ref]))
    else if op == 191 then Some(Effect([], [Ref]))
    else if op == 197 then Some(Effect([Any, Ref], [Any]))
    else if op == 198 then Some(Effect([Any, Ref], [Any, I1]))
    else if op == 199 then Some(Effect([Any, Any, Ref], []))
    else if op == 200 then Some(Effect([Any, Ref], []))
    else if op == 201 then Some(Effect([Ref], []))
    else if op == 205 then Some(Effect([Any], []))
    else if op == 207 then Some(Effect([Ref], [Any]))
    else None
  }

  /** The kinds popped, top first, and pushed, top last, by opcodes whose effect is fixed. */
  function Fixed(op: Byte): Option<Effect> {
    if op < 34 then ControlEffect(op)
    else if op < 112 then IntEffect(op)
    else if op < 170 then FloatEffect(op)
    else HeapEffect(op)
  }

  function Repr(k: Kind): Kind {
    if k == I1 || k == I8 then I32 else k
  }

  predicate Accepts(got: Kind, want: Kind) {
    got == Any || want == Any || Repr(got) == Repr(want)
  }

  predicate AcceptsType(cx: Context, got: Slot, want: Type) {
    if want == Dynamic then true
    else match got.typ
         case Some(t) => cx.casts(want, t)
         case None => Accepts(got.kind, KindOf(want))
  }

  function Unify(a: Kind, b: Kind): Kind {
    if a == b then a else Any
  }

  function BitwiseKind(a: Kind, b: Kind): Kind {
    if a == b then a else if a == Any || b == Any then Any else I32
  }

  /** Operand 0 of the instruction at ip, in one or two bytes. */
  function Operand(code: seq<Byte>, ip: int): nat
    requires 0 <= ip < |code|
  {
    var lo: int := if ip + 1 < |code| then code[ip + 1] else 0;
    var hi: int := if FixedOperands(code[ip]) == 2 && ip + 2 < |code| then code[ip + 2] else 0;
    lo + 256 * hi
  }

  /** The instruction's index operand is in range. */
  predicate InBounds(cx: Context, code: seq<Byte>, ip: int)
    requires 0 <= ip < |code|
  {
    var op, n := code[ip], Operand(code, ip);
    if op == CONST_GET then n < |cx.constants|
    else if op == 29 || op == 30 || op == 180 || op == 181 || op == 190 || op == 191 || op == 194 || op == 195
        then n < |cx.types|
    else if op == LOCAL_GET || op == LOCAL_SET || op == LOCAL_TEE then n < |cx.locals|
    else if op == GLOBAL_GET || op == GLOBAL_SET || op == GLOBAL_TEE then n < |cx.globals|
    else if op == UPVAL_GET || op == UPVAL_SET then n < |cx.captures|
    else true
  }

  function TypeSlot(t: Type): Slot {
    Slot(KindOf(t), Some(t))
  }

  function Slots(ts: seq<Type>): (r: seq<Slot>)
    ensures |r| == |ts|
  {
    seq(|ts|, i requires 0 <= i < |ts| => TypeSlot(ts[i]))
  }

  function Untyped(ks: seq<Kind>): (r: seq<Slot>)
    ensures |r| == |ks|
  {
    seq(|ks|, i requires 0 <= i < |ks| => Slot(ks[i], None))
  }

  function Top(st: seq<Slot>): Slot
    requires st != []
  {
    st[|st| - 1]
  }

  function Dropped(st: seq<Slot>, n: nat): (r: seq<Slot>)
    requires n <= |st|
    ensures |r| == |st| - n
  {
    st[..|st| - n]
  }

  /** Pops kinds one by one, or finds one that does not fit. */
  function Popped(st: seq<Slot>, want: seq<Kind>): (r: Option<seq<Slot>>)
    requires |want| <= |st|
    ensures r.Some? ==> |r.value| == |st| - |want|
    decreases |want|
  {
    if want == [] then Some(st)
    else if Accepts(Top(st).kind, want[0]) then Popped(Dropped(st, 1), want[1..])
    else None
  }

  function CallEffect(st: seq<Slot>, tail: bool): Verdict {
    if st == [] then Reject(StackUnderflow)
    else if Top(st).typ.None? || !Top(st).typ.value.Fn? then Indeterminate
    else
      var fn, rest := Top(st).typ.value, Dropped(st, 1);
      if |rest| < |fn.params| then Reject(StackUnderflow)
      else if tail then Continue(Dropped(rest, |fn.params|))
      else Continue(Dropped(rest, |fn.params|) + Slots(fn.results))
  }

  /** The effect of the instruction at ip. */
  function StepOf(cx: Context, code: seq<Byte>, ip: int, st: seq<Slot>): Verdict
    requires 0 <= ip < |code| && InBounds(cx, code, ip)
  {
    var op, n := code[ip], Operand(code, ip);
    if op == NOP || op == UNREACHABLE || op == BR then Continue(st)
    else if op == LOCAL_TEE then (if st == [] then Reject(StackUnderflow) else Continue(st))
    else if op == GLOBAL_TEE then
      (if st == [] then Reject(StackUnderflow)
       else if !AcceptsType(cx, Top(st), cx.globals[n]) then Reject(TypeMismatch)
       else Continue(st))
    else if op == LOCAL_GET then Continue(st + [TypeSlot(cx.locals[n])])
    else if op == UPVAL_GET then Continue(st + [TypeSlot(cx.captures[n])])
    else if op == CONST_GET then Continue(st + [cx.constants[n]])
    else if op == GLOBAL_GET then Continue(st + [TypeSlot(cx.globals[n])])
    else if op == GLOBAL_SET then
      (if st == [] then Reject(StackUnderflow)
       else if !AcceptsType(cx, Top(st), cx.globals[n]) then Reject(TypeMismatch)
       else Continue(Dropped(st, 1)))
    else if op == DUP then (if st == [] then Reject(StackUnderflow) else Continue(st + [Top(st)]))
    else if op == SWAP then
      (if |st| < 2 then Reject(StackUnderflow)
       else Continue(st[|st| - 1 := st[|st| - 2]][|st| - 2 := st[|st| - 1]]))
    else if op == SELECT then
      (if |st| < 3 then Reject(StackUnderflow)
       else Continue(Dropped(st, 3) + [Slot(Unify(st[|st| - 3].kind, st[|st| - 2].kind), None)]))
    else if Bitwise(op) then
      (if |st| < 2 then Reject(StackUnderflow)
       else
         var b, a := st[|st| - 1], st[|st| - 2];
         if !Accepts(a.kind, I32) || !Accepts(b.kind, I32) then Reject(TypeMismatch)
         else Continue(Dropped(st, 2) + [Slot(BitwiseKind(a.kind, b.kind), None)]))
    else if op == CALL then CallEffect(st, false)
    else if op == RETURN_CALL then CallEffect(st, true)
    else if op == RETURN then (if |st| < cx.results then Reject(StackUnderflow) else Continue(st))
    else if op == STRUCT_NEW then
      (if !cx.types[n].Struct? then Indeterminate
       else if |st| < |cx.types[n].fields| then Reject(StackUnderflow)
       else Continue(Dropped(st, |cx.types[n].fields|) + [TypeSlot(cx.types[n])]))
    else if op == MAP_NEW || op == CLOSURE_NEW then Indeterminate
    else match Fixed(op)
         case None => Indeterminate
         case Some(effect) =>
           if |st| < |effect.pop| then Reject(StackUnderflow)
           else match Popped(st, effect.pop)
                case None => Reject(TypeMismatch)
                case Some(rest) => Continue(rest + Untyped(effect.push))
  }

  predicate Stops(op: Byte) {
    op == RETURN || op == RETURN_CALL || op == UNREACHABLE || op == THROW
  }

  /** The stack's effect of running from ip to the end of its block. */
  ghost function ExecOf(cx: Context, code: seq<Byte>, ip: int, end: int, st: seq<Slot>): Verdict
    decreases end - ip
  {
    if !(0 <= ip < end <= |code|) || !InBounds(cx, code, ip) then Continue(st)
    else
      var v := StepOf(cx, code, ip, st);
      if v.Continue? && !Stops(code[ip]) then ExecOf(cx, code, ip + Width(code, ip), end, v.st) else v
  }

  /** Folds b into a: kinds that differ become Any, types that differ become unknown. */
  function MergedSlot(a: Slot, b: Slot): Slot {
    Slot(Unify(a.kind, b.kind), if a.typ.Some? && a.typ != b.typ then None else a.typ)
  }

  function Merged(a: seq<Slot>, b: seq<Slot>): (r: seq<Slot>)
    requires |a| == |b|
    ensures |r| == |a|
  {
    seq(|a|, i requires 0 <= i < |a| => MergedSlot(a[i], b[i]))
  }

  predicate SlotBelow(a: Slot, b: Slot) {
    (b.kind == Any || a.kind == b.kind) && (b.typ.None? || a.typ == b.typ)
  }

  /** b admits everything a does, at the same height. */
  ghost predicate Below(a: seq<Slot>, b: seq<Slot>) {
    |a| == |b| && forall i :: 0 <= i < |a| ==> SlotBelow(a[i], b[i])
  }

  /** Joining is the least upper bound of the two stacks. */
  lemma MergedIsLeast(a: seq<Slot>, b: seq<Slot>, c: seq<Slot>)
    requires |a| == |b|
    ensures Below(a, Merged(a, b)) && Below(b, Merged(a, b))
    ensures Below(a, c) && Below(b, c) ==> Below(Merged(a, b), c)
  {
  }

  lemma BelowTrans(a: seq<Slot>, b: seq<Slot>, c: seq<Slot>)
    requires Below(a, b) && Below(b, c)
    ensures Below(a, c)
  {
    forall i | 0 <= i < |a|
      ensures SlotBelow(a[i], c[i])
    {
      assert SlotBelow(a[i], b[i]) && SlotBelow(b[i], c[i]);
    }
  }

  /** How many more times the slots can widen. */
  ghost function Widenings(st: seq<Slot>): nat {
    if st == [] then 0
    else Widenings(st[1..]) + (if st[0].kind != Any then 1 else 0) + (if st[0].typ.Some? then 1 else 0)
  }

  /** A merge that changes anything uses up a widening. */
  lemma {:induction false} MergeWidens(a: seq<Slot>, b: seq<Slot>)
    requires |a| == |b|
    ensures Widenings(Merged(a, b)) <= Widenings(a)
    ensures Merged(a, b) != a ==> Widenings(Merged(a, b)) < Widenings(a)
  {
    if a != [] {
      MergeWidens(a[1..], b[1..]);
      assert Merged(a, b)[1..] == Merged(a[1..], b[1..]);
      assert a == [a[0]] + a[1..];
      assert Merged(a, b) == [MergedSlot(a[0], b[0])] + Merged(a[1..], b[1..]);
    }
  }
}
