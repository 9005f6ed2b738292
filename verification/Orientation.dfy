/** When computations of one group have one value. The numbering gives both operand orders of an exclusive or one
    group, but the machine's exclusive or keeps the kind of its left operand. */
module Orientation {
  import opened Bytecode
  import opened Stacks
  import opened Numbering
  import opened Terms
  import opened GroupValues
  import opened Integers
  import Codec
  import IntCode

  const I32_XOR: Byte := 45

  /** Operations on 32-bit integers. All but and, or and exclusive or read the payload of their operands only. */
  predicate OnI32(op: Byte) {
    IsPure(op) && Fixed(op).Some? && Fixed(op).value.pop != [] && Fixed(op).value.pop[0] == I32
  }

  /** Operations that leave a 32-bit integer or a truth value. */
  predicate MakesI32(op: Byte) {
    IsPure(op) && Fixed(op).Some? && (Fixed(op).value.push == [I32] || Fixed(op).value.push == [I1])
  }

  /** x is the 32-bit integer a with kind tag s. */
  ghost predicate IsWord(vals: IntCode.Values, x: int, s: int, a: int) {
    IntCode.IsTag(s) && IsSigned(W32, a) && x == vals.word(s, a)
  }

  ghost predicate SamePayload(vals: IntCode.Values, x: int, y: int) {
    x == y || exists s, t, a :: IsWord(vals, x, s, a) && IsWord(vals, y, t, a)
  }

  ghost predicate SamePayloads(vals: IntCode.Values, xs: seq<int>, ys: seq<int>) {
    |xs| == |ys| && forall i :: 0 <= i < |xs| ==> SamePayload(vals, xs[i], ys[i])
  }

  ghost predicate CommutesAt(env: Env, op: Byte, x: int, y: int) {
    Commutes(op) && op != I32_XOR ==> env.eval(op, [x, y]) == env.eval(op, [y, x])
  }

  ghost predicate PayloadAt(env: Env, vals: IntCode.Values, op: Byte, xs: seq<int>, ys: seq<int>) {
    OnI32(op) && !Stacks.Bitwise(op) && SamePayloads(vals, xs, ys) ==> env.eval(op, xs) == env.eval(op, ys)
  }

  ghost predicate MakesAt(env: Env, vals: IntCode.Values, op: Byte, xs: seq<int>) {
    MakesI32(op) && !Stacks.Bitwise(op) && env.eval(op, xs).Some? ==>
      exists a :: IsWord(vals, env.eval(op, xs).value, MadeTag(op), a)
  }

  /** The kind of what an operation other than and, or and exclusive or leaves. */
  function MadeTag(op: Byte): int {
    if Fixed(op).Some? && Fixed(op).value.push == [I1] then IntCode.I1_TAG else IntCode.I32_TAG
  }

  /** Every operation that may be exchanged but exclusive or commutes, kinds included; operations on 32-bit integers
      but and, or and exclusive or see payloads only; and their results are i32s or truth values. */
  ghost predicate Uniform(env: Env, vals: IntCode.Values) {
    && (forall op, x, y :: CommutesAt(env, op, x, y))
    && (forall op, xs, ys :: PayloadAt(env, vals, op, xs, ys))
    && (forall op, xs :: MakesAt(env, vals, op, xs))
  }

  /** The machine reads the opcodes as the handlers do. */
  ghost predicate Machine(sem: Semantics, pool: seq<int>, vals: IntCode.Values, env: Env) {
    Sensible(sem) && Standard(sem, env) && IntCode.Reads(sem, pool, vals) && Uniform(env, vals)
  }

  /** Equal up to the order of operands of operations that commute, kinds included. */
  ghost predicate SameOrder(a: Term, b: Term)
    decreases a
  {
    match a
    case OpTerm(op, args) =>
      b.OpTerm? && b.op == op && |b.args| == |args| &&
      (AllSameOrder(args, b.args) ||
       (Commutes(op) && op != I32_XOR && |args| == 2 && SameOrder(args[0], b.args[1]) && SameOrder(args[1], b.args[0])))
    case _ => a == b
  }

  ghost predicate AllSameOrder(xs: seq<Term>, ys: seq<Term>)
    requires |xs| == |ys|
    decreases xs
  {
    forall i :: 0 <= i < |xs| ==> SameOrder(xs[i], ys[i])
  }

  /** Expressions whose value can be a 32-bit integer. */
  predicate IsInt(t: Term) {
    match t
    case Unknown => false
    case LocalTerm(slot) => true
    case LeafTerm(core) => (|core| == 5 && core[0] == IntCode.I32_CONST) || (|core| == 3 && core[0] == CONST_GET)
    case OpTerm(op, _) => MakesI32(op)
  }

  /** Operations on 32-bit integers have operands that can be 32-bit integers, and no others have what and, or and
      exclusive or leave. */
  ghost predicate Typed(t: Term)
    decreases t, 0
  {
    match t
    case Unknown => false
    case OpTerm(op, args) => IsPure(op) && |args| == Pops(op) && forall i :: 0 <= i < |args| ==> TypedArg(op, args[i])
    case _ => true
  }

  ghost predicate TypedArg(op: Byte, t: Term)
    decreases t, 1
  {
    Typed(t) && if OnI32(op) then IsInt(t) else !(t.OpTerm? && Stacks.Bitwise(t.op))
  }

  ghost predicate WordIn(env: Env, vals: IntCode.Values, t: Term) {
    TermValue(env, t).Some? && exists s, a :: IsWord(vals, TermValue(env, t).value, s, a)
  }

  /** Locals and leaves hold 32-bit integers exactly where operations on 32-bit integers read them. */
  ghost predicate Fed(env: Env, vals: IntCode.Values, t: Term)
    decreases t, 0
  {
    t.OpTerm? ==> forall i :: 0 <= i < |t.args| ==> FedArg(env, vals, t.op, t.args[i])
  }

  ghost predicate FedArg(env: Env, vals: IntCode.Values, op: Byte, t: Term)
    decreases t, 1
  {
    Fed(env, vals, t) && (!t.OpTerm? ==> (OnI32(op) <==> WordIn(env, vals, t)))
  }

  /** A choice of kinds for locals and pool entries. */
  type Tags = Term -> int

  ghost predicate AllTags(tg: Tags) {
    forall t :: IntCode.IsTag(tg(t))
  }

  function BitOp(op: Byte): Op {
    if op == I32_XOR then Xor else if op == 46 then And else Or
  }

  /** The kind of an expression's value. */
  ghost function TagTerm(tg: Tags, t: Term): int
    decreases t
  {
    match t
    case Unknown => IntCode.I32_TAG
    case LocalTerm(_) => tg(t)
    case LeafTerm(core) => if |core| == 5 && core[0] == IntCode.I32_CONST then IntCode.I32_TAG else tg(t)
    case OpTerm(op, args) =>
      if Stacks.Bitwise(op) && |args| == 2 then IntCode.TagOf(BitOp(op), TagTerm(tg, args[0]), TagTerm(tg, args[1]))
      else MadeTag(op)
  }

  /** Whatever kinds the locals and the pool entries have, the two values have one kind. */
  ghost predicate KindsAgree(a: Term, b: Term) {
    forall tg: Tags :: AllTags(tg) ==> TagTerm(tg, a) == TagTerm(tg, b)
  }

  /** The operands stand in the same order, or the exchange shows in no kind. */
  ghost predicate SameWay(a: Term, b: Term) {
    SameOrder(a, b) || (Typed(a) && Typed(b) && KindsAgree(a, b))
  }

  /** What the integer opcodes say of the environment: and, or and exclusive or work on payloads and kinds alike. */
  ghost predicate BitsAt(env: Env, vals: IntCode.Values, op: Byte, a: int, b: int, s: int, t: int) {
    Stacks.Bitwise(op) && IntCode.IsTag(s) && IntCode.IsTag(t) && IsSigned(W32, a) && IsSigned(W32, b) ==>
      Apply(W32, BitOp(op), a, b).Num? &&
      env.eval(op, [vals.word(s, a), vals.word(t, b)]) ==
        Some(vals.word(IntCode.TagOf(BitOp(op), s, t), Apply(W32, BitOp(op), a, b).v))
  }

  ghost predicate ConstAt(env: Env, vals: IntCode.Values, core: seq<Byte>) {
    |core| == 5 && core[0] == IntCode.I32_CONST ==> exists a :: IsWord(vals, env.leaf(core), IntCode.I32_TAG, a)
  }

  ghost predicate Reckons(env: Env, vals: IntCode.Values) {
    && (forall op, a, b, s, t :: BitsAt(env, vals, op, a, b, s, t))
    && (forall core :: ConstAt(env, vals, core))
  }

  lemma BitOpIs(op: Byte)
    requires Stacks.Bitwise(op)
    ensures IntCode.BinOf(op) == Some((W32, BitOp(op))) && IsPure(op) && Pops(op) == 2
    ensures OnI32(op) && MakesI32(op) && !IsLeaf(op) && op != LOCAL_GET && op != LOCAL_TEE && MadeTag(op) == 4
  {
  }

  lemma BitsNumber(op: Byte, a: int, b: int)
    ensures Apply(W32, BitOp(op), a, b).Num? && IsSigned(W32, Apply(W32, BitOp(op), a, b).v)
  {
    hide Stacks.Bitwise, Integers.Bitwise, Pow2, Wrap, Signed, Quo;
    ApplyFits(W32, BitOp(op), a, b);
  }

  lemma Reckoned(sem: Semantics, pool: seq<int>, vals: IntCode.Values, env: Env)
    requires Standard(sem, env) && IntCode.Reads(sem, pool, vals)
    ensures Reckons(env, vals)
  {
    hide Apply, Effects, Does, Blind, IntCode.LoadAt, IntCode.BinAt, IntCode.UnAt, IsSigned, IntCode.TagOf;
    forall op, a, b, s, t
      ensures BitsAt(env, vals, op, a, b, s, t)
    {
      if Stacks.Bitwise(op) && IntCode.IsTag(s) && IntCode.IsTag(t) && IsSigned(W32, a) && IsSigned(W32, b) {
        BitsReckoned(sem, vals, env, op, a, b, s, t);
      }
    }
    forall core
      ensures ConstAt(env, vals, core)
    {
      ConstReckoned(sem, pool, vals, env, core);
    }
  }

  lemma BitsReckoned(sem: Semantics, vals: IntCode.Values, env: Env, op: Byte, a: int, b: int, s: int, t: int)
    requires Stacks.Bitwise(op) && IntCode.IsTag(s) && IntCode.IsTag(t) && IsSigned(W32, a) && IsSigned(W32, b)
    requires forall core, st :: core != [] ==> Does(sem, env, core, st)
    requires forall op, st, a, b, s, t :: IntCode.BinAt(sem, vals, op, st, a, b, s, t)
    ensures BitsAt(env, vals, op, a, b, s, t)
  {
    hide Apply, IsPure, IsLeaf, Pops, IsSigned, IntCode.TagOf, IntCode.BinOf;
    BitOpIs(op);
    BitsNumber(op, a, b);
    var st0 := State([], [], 0);
    assert IntCode.BinAt(sem, vals, op, st0, a, b, s, t);
    var st := IntCode.Push(IntCode.Push(st0, vals.word(s, a)), vals.word(t, b));
    assert st.stack == [vals.word(s, a), vals.word(t, b)];
    assert Does(sem, env, [op], st);
    assert st.stack[0..] == st.stack;
    var r := vals.word(IntCode.TagOf(BitOp(op), s, t), Apply(W32, BitOp(op), a, b).v);
    assert sem([op], st) == Next(IntCode.Push(st0, r));
    assert IntCode.Push(st0, r).stack == [r];
    assert st.stack[..0] == [];
    match env.eval(op, st.stack)
    case Some(v) => assert [] + [v] == [v];
    case None =>
  }

  lemma ConstReckoned(sem: Semantics, pool: seq<int>, vals: IntCode.Values, env: Env, core: seq<Byte>)
    requires forall core, st :: core != [] ==> Does(sem, env, core, st)
    requires forall core, st :: core != [] ==> IntCode.LoadAt(sem, pool, vals, core, st)
    ensures ConstAt(env, vals, core)
  {
    hide IsPure, Pops, IsSigned, Signed, Codec.Read;
    if |core| == 5 && core[0] == IntCode.I32_CONST {
      var st := State([], [], 0);
      assert IntCode.LoadAt(sem, pool, vals, core, st) && Does(sem, env, core, st);
      var a := Signed(W32, Codec.Read(core[1..]));
      SignedFits(W32, Codec.Read(core[1..]));
      assert ([] + [env.leaf(core)])[0] == ([] + [vals.num(W32, a)])[0];
      assert IsWord(vals, env.leaf(core), IntCode.I32_TAG, a);
    }
  }

  /** tg and tg' are the kinds of what the two environments hold, and they differ in kinds only. */
  ghost predicate Retagged(vals: IntCode.Values, env: Env, tg: Tags, env': Env, tg': Tags) {
    && env'.eval == env.eval && AllTags(tg) && AllTags(tg')
    && forall t: Term :: t.LocalTerm? || t.LeafTerm? ==> RetaggedAt(vals, env, tg, env', tg', t)
  }

  ghost predicate RetaggedAt(vals: IntCode.Values, env: Env, tg: Tags, env': Env, tg': Tags, t: Term) {
    && (TermValue(env, t).Some? <==> TermValue(env', t).Some?)
    && (TermValue(env, t).Some? ==>
       if IsInt(t) && WordIn(env, vals, t)
       then exists a :: WordBoth(vals, TermValue(env, t).value, TagTerm(tg, t), TermValue(env', t).value,
                                 TagTerm(tg', t), a)
       else TermValue(env, t) == TermValue(env', t))
  }

  ghost predicate WordBoth(vals: IntCode.Values, x: int, s: int, y: int, t: int, a: int) {
    IsWord(vals, x, s, a) && IsWord(vals, y, t, a)
  }

  /** What two akin expressions come to: both trap, or they leave one 32-bit payload, each of its own kind, or they
      leave the same. */
  ghost predicate Related(vals: IntCode.Values, env: Env, tg: Tags, env': Env, tg': Tags, a: Term, b: Term) {
    var v, w := TermValue(env, a), TermValue(env', b);
    && (v.Some? <==> w.Some?)
    && (v.Some? ==>
       if (a.OpTerm? && MakesI32(a.op)) || (!a.OpTerm? && IsInt(a) && WordIn(env, vals, a))
       then exists x :: WordBoth(vals, v.value, TagTerm(tg, a), w.value, TagTerm(tg', b), x)
       else v == w)
  }

  lemma {:induction false} BitsCommute(op: Op, a: nat, b: nat, n: nat)
    ensures Integers.Bitwise(op, a, b, n) == Integers.Bitwise(op, b, a, n)
  {
    if n > 0 {
      BitsCommute(op, a / 2, b / 2, n - 1);
      assert Bit(op, a % 2, b % 2) == Bit(op, b % 2, a % 2) by { BitCommutes(op, a % 2, b % 2); }
    }
  }

  lemma BitCommutes(op: Op, a: nat, b: nat)
    ensures Bit(op, a, b) == Bit(op, b, a)
  {
  }

  lemma PayloadCommutes(op: Byte, a: int, b: int)
    ensures Apply(W32, BitOp(op), a, b) == Apply(W32, BitOp(op), b, a)
  {
    hide Integers.Bitwise, Pow2, Signed, Quo;
    BitsCommute(BitOp(op), Wrap(W32, a), Wrap(W32, b), 32);
  }

  lemma TagIsTag(op: Op, s: int, t: int)
    requires IntCode.IsTag(s) && IntCode.IsTag(t)
    ensures IntCode.IsTag(IntCode.TagOf(op, s, t))
  {
  }

  /** Two values of an operand of one payload, each of its own kind. */
  ghost predicate OperandBoth(vals: IntCode.Values, env: Env, tg: Tags, env': Env, tg': Tags, a: Term, b: Term,
                              x: int) {
    && TermValue(env, a).Some? && TermValue(env', b).Some?
    && WordBoth(vals, TermValue(env, a).value, TagTerm(tg, a), TermValue(env', b).value, TagTerm(tg', b), x)
  }

  /** And, or and exclusive or, on operands of one payload each, in either order on the other side. */
  lemma BitsRelated(vals: IntCode.Values, env: Env, tg: Tags, env': Env, tg': Tags, op: Byte, a0: Term, a1: Term,
                    b0: Term, b1: Term, x: int, y: int, cross: bool)
    requires Stacks.Bitwise(op) && Reckons(env, vals) && Reckons(env', vals)
    requires OperandBoth(vals, env, tg, env', tg', a0, if cross then b1 else b0, x)
    requires OperandBoth(vals, env, tg, env', tg', a1, if cross then b0 else b1, y)
    ensures Related(vals, env, tg, env', tg', OpTerm(op, [a0, a1]), OpTerm(op, [b0, b1]))
  {
    hide Apply, IsSigned, IsPure, IntCode.TagOf, TermValue, TagTerm;
    BitOpIs(op);
    var s0, s1, t0, t1 := TagTerm(tg, a0), TagTerm(tg, a1), TagTerm(tg', b0), TagTerm(tg', b1);
    BitsValue(vals, env, tg, op, a0, a1, x, y);
    if cross {
      BitsValue(vals, env', tg', op, b0, b1, y, x);
      PayloadCommutes(op, x, y);
    } else {
      BitsValue(vals, env', tg', op, b0, b1, x, y);
    }
    var r := Apply(W32, BitOp(op), x, y).v;
    assert WordBoth(vals, TermValue(env, OpTerm(op, [a0, a1])).value, TagTerm(tg, OpTerm(op, [a0, a1])),
                    TermValue(env', OpTerm(op, [b0, b1])).value, TagTerm(tg', OpTerm(op, [b0, b1])), r);
  }

  lemma BitsValue(vals: IntCode.Values, env: Env, tg: Tags, op: Byte, a0: Term, a1: Term, x: int, y: int)
    requires Stacks.Bitwise(op) && Reckons(env, vals) && TermValue(env, a0).Some? && TermValue(env, a1).Some?
    requires IsWord(vals, TermValue(env, a0).value, TagTerm(tg, a0), x)
    requires IsWord(vals, TermValue(env, a1).value, TagTerm(tg, a1), y)
    ensures Apply(W32, BitOp(op), x, y).Num? && TermValue(env, OpTerm(op, [a0, a1])).Some?
    ensures IsWord(vals, TermValue(env, OpTerm(op, [a0, a1])).value, TagTerm(tg, OpTerm(op, [a0, a1])),
                   Apply(W32, BitOp(op), x, y).v)
  {
    hide Apply, IsSigned, IsPure, IntCode.TagOf, TermValue;
    BitOpIs(op);
    BitsNumber(op, x, y);
    var s, t := TagTerm(tg, a0), TagTerm(tg, a1);
    assert BitsAt(env, vals, op, x, y, s, t);
    TagIsTag(BitOp(op), s, t);
    OperationValue(env, op, [a0, a1], [vals.word(s, x), vals.word(t, y)]);
    assert TagTerm(tg, OpTerm(op, [a0, a1])) == IntCode.TagOf(BitOp(op), s, t);
  }

  /** An operation cannot tell the two operands apart. */
  ghost predicate OneToIt(vals: IntCode.Values, env: Env, env': Env, op: Byte, a: Term, b: Term) {
    var v, w := TermValue(env, a), TermValue(env', b);
    && (v.Some? <==> w.Some?)
    && (v.Some? ==> if OnI32(op) then SamePayload(vals, v.value, w.value) else v == w)
  }

  lemma ArgRelated(vals: IntCode.Values, env: Env, tg: Tags, env': Env, tg': Tags, op: Byte, a: Term, b: Term)
    requires Related(vals, env, tg, env', tg', a, b) && Akin(a, b) && TypedArg(op, a) && FedArg(env, vals, op, a)
    ensures OneToIt(vals, env, env', op, a, b)
    ensures OnI32(op) && TermValue(env, a).Some? ==> exists x :: OperandBoth(vals, env, tg, env', tg', a, b, x)
  {
    hide TermValue, MakesI32, OnI32, IsSigned, Typed, Fed;
    if TermValue(env, a).Some? {
      if a.OpTerm? && MakesI32(a.op) {
        var x :| WordBoth(vals, TermValue(env, a).value, TagTerm(tg, a), TermValue(env', b).value, TagTerm(tg', b), x);
        assert OperandBoth(vals, env, tg, env', tg', a, b, x);
      } else if !a.OpTerm? && IsInt(a) && WordIn(env, vals, a) {
        var x :| WordBoth(vals, TermValue(env, a).value, TagTerm(tg, a), TermValue(env', b).value, TagTerm(tg', b), x);
        assert OperandBoth(vals, env, tg, env', tg', a, b, x);
      }
    }
  }

  function Turned(ts: seq<Term>, cross: bool): seq<Term> {
    if cross && |ts| == 2 then [ts[1], ts[0]] else ts
  }

  /** An operation that works on payloads alone, or on equal operands, leaves one value. */
  lemma PlainRelated(vals: IntCode.Values, env: Env, tg: Tags, env': Env, tg': Tags, op: Byte, args: seq<Term>,
                     brgs: seq<Term>, cross: bool)
    requires Uniform(env, vals) && env'.eval == env.eval && IsPure(op) && !Stacks.Bitwise(op) && |args| == |brgs|
    requires cross ==> Commutes(op) && |args| == 2
    requires forall i :: 0 <= i < |args| ==> OneToIt(vals, env, env', op, args[i], Turned(brgs, cross)[i])
    ensures Related(vals, env, tg, env', tg', OpTerm(op, args), OpTerm(op, brgs))
  {
    hide TermValue, SamePayload, MakesI32, Commutes, OnI32, IsPure, Stacks.Bitwise, MadeTag;
    var crgs := Turned(brgs, cross);
    SameOperation(vals, env, env', op, args, crgs);
    TurnedValue(vals, env, env', op, brgs, cross);
    var v := TermValue(env, OpTerm(op, args));
    assert v == TermValue(env', OpTerm(op, brgs));
    if v.Some? && MakesI32(op) {
      MakesWord(vals, env, op, args);
      var x :| IsWord(vals, v.value, MadeTag(op), x);
      TagMade(tg, op, args);
      TagMade(tg', op, brgs);
      assert WordBoth(vals, v.value, TagTerm(tg, OpTerm(op, args)), v.value, TagTerm(tg', OpTerm(op, brgs)), x);
    }
  }

  lemma TagMade(tg: Tags, op: Byte, args: seq<Term>)
    requires !Stacks.Bitwise(op)
    ensures TagTerm(tg, OpTerm(op, args)) == MadeTag(op)
  {
  }

  lemma MakesWord(vals: IntCode.Values, env: Env, op: Byte, args: seq<Term>)
    requires Uniform(env, vals) && MakesI32(op) && !Stacks.Bitwise(op) && TermValue(env, OpTerm(op, args)).Some?
    ensures exists x :: IsWord(vals, TermValue(env, OpTerm(op, args)).value, MadeTag(op), x)
  {
    hide MadeTag, MakesI32, IsSigned;
    var vs := TermValues(env, args).value;
    assert MakesAt(env, vals, op, vs);
  }

  lemma SameOperation(vals: IntCode.Values, env: Env, env': Env, op: Byte, args: seq<Term>, crgs: seq<Term>)
    requires Uniform(env, vals) && env'.eval == env.eval && !Stacks.Bitwise(op) && |args| == |crgs|
    requires forall i :: 0 <= i < |args| ==> OneToIt(vals, env, env', op, args[i], crgs[i])
    ensures TermValue(env, OpTerm(op, args)) == TermValue(env', OpTerm(op, crgs))
  {
    hide SamePayload, OnI32, Stacks.Bitwise, CommutesAt, MakesAt, TermValue;
    OperationIs(env, op, args);
    OperationIs(env', op, crgs);
    var xs, ys := TermValues(env, args), TermValues(env', crgs);
    if xs.Some? && ys.Some? {
      forall i | 0 <= i < |args|
        ensures if OnI32(op) then SamePayload(vals, xs.value[i], ys.value[i]) else xs.value[i] == ys.value[i]
      {
        assert OneToIt(vals, env, env', op, args[i], crgs[i]);
      }
      if OnI32(op) {
        assert PayloadAt(env, vals, op, xs.value, ys.value);
      } else {
        assert xs.value == ys.value;
      }
    }
  }

  lemma OperationIs(env: Env, op: Byte, args: seq<Term>)
    ensures TermValue(env, OpTerm(op, args)) ==
      match TermValues(env, args) case None => None case Some(vs) => env.eval(op, vs)
  {
  }

  lemma TurnedValue(vals: IntCode.Values, env: Env, env': Env, op: Byte, brgs: seq<Term>, cross: bool)
    requires Uniform(env, vals) && env'.eval == env.eval && !Stacks.Bitwise(op)
    requires cross ==> Commutes(op) && |brgs| == 2
    ensures TermValue(env', OpTerm(op, Turned(brgs, cross))) == TermValue(env', OpTerm(op, brgs))
  {
    hide PayloadAt, MakesAt, Commutes;
    if cross {
      Exchanged(env', op, brgs[0], brgs[1]);
      assert brgs == [brgs[0], brgs[1]];
      forall x, y
        ensures env'.eval(op, [x, y]) == env'.eval(op, [y, x])
      {
        assert CommutesAt(env, op, x, y);
      }
    }
  }

  /** If an operation commutes on two values it can be exchanged on the operands. */
  lemma Exchanged(env: Env, op: Byte, x: Term, y: Term)
    ensures (forall v, w :: env.eval(op, [v, w]) == env.eval(op, [w, v])) ==>
      TermValue(env, OpTerm(op, [x, y])) == TermValue(env, OpTerm(op, [y, x]))
  {
    hide TermValue;
    OperationIs(env, op, [x, y]);
    OperationIs(env, op, [y, x]);
    var p, q := TermValues(env, [x, y]), TermValues(env, [y, x]);
    if TermValue(env, x).Some? && TermValue(env, y).Some? {
      var v, w := TermValue(env, x).value, TermValue(env, y).value;
      OperationValue(env, op, [x, y], [v, w]);
      OperationValue(env, op, [y, x], [w, v]);
    } else {
      assert p.None? && q.None?;
    }
  }

  /** Expressions equal up to exchanges have one payload, and their kinds are those of the expressions. */
  lemma {:induction false} AkinRelated(vals: IntCode.Values, env: Env, tg: Tags, env': Env, tg': Tags, a: Term,
                                       b: Term)
    requires Akin(a, b) && Typed(a) && Typed(b) && Fed(env, vals, a) && Uniform(env, vals)
    requires Reckons(env, vals) && Reckons(env', vals) && Retagged(vals, env, tg, env', tg')
    ensures Related(vals, env, tg, env', tg', a, b)
    decreases a
  {
    hide Uniform, Reckons, Retagged, Related, TermValue, OnI32, IsInt, IsPure, Stacks.Bitwise, Commutes, TypedArg,
         FedArg;
    if !a.OpTerm? {
      LeafRelated(vals, env, tg, env', tg', a);
      return;
    }
    var op, args, brgs := a.op, a.args, b.args;
    var cross := !AllAkin(args, brgs);
    var crgs := Turned(brgs, cross);
    forall i | 0 <= i < |args|
      ensures Akin(args[i], crgs[i]) && TypedArg(op, args[i]) && FedArg(env, vals, op, args[i])
      ensures Related(vals, env, tg, env', tg', args[i], crgs[i])
    {
      ArgHas(env, vals, op, args[i]);
      assert TypedArg(op, brgs[i]) && TypedArg(op, brgs[if cross then 1 - i else i]);
      ArgTyped(op, crgs[i]);
      AkinRelated(vals, env, tg, env', tg', args[i], crgs[i]);
    }
    assert env'.eval == env.eval by { SameEval(vals, env, tg, env', tg'); }
    AkinStep(vals, env, tg, env', tg', op, args, brgs, cross);
  }

  lemma SameEval(vals: IntCode.Values, env: Env, tg: Tags, env': Env, tg': Tags)
    requires Retagged(vals, env, tg, env', tg')
    ensures env'.eval == env.eval
  {
  }

  lemma ArgHas(env: Env, vals: IntCode.Values, op: Byte, t: Term)
    requires TypedArg(op, t) && FedArg(env, vals, op, t)
    ensures Typed(t) && Fed(env, vals, t)
  {
  }

  lemma ArgTyped(op: Byte, t: Term)
    requires TypedArg(op, t)
    ensures Typed(t)
  {
  }

  lemma LeafRelated(vals: IntCode.Values, env: Env, tg: Tags, env': Env, tg': Tags, t: Term)
    requires Retagged(vals, env, tg, env', tg') && Typed(t) && !t.OpTerm?
    ensures Related(vals, env, tg, env', tg', t, t)
  {
    hide TermValue, IsWord;
    assert RetaggedAt(vals, env, tg, env', tg', t);
  }

  lemma AkinStep(vals: IntCode.Values, env: Env, tg: Tags, env': Env, tg': Tags, op: Byte, args: seq<Term>,
                 brgs: seq<Term>, cross: bool)
    requires Uniform(env, vals) && env'.eval == env.eval && Reckons(env, vals) && Reckons(env', vals)
    requires IsPure(op) && |args| == |brgs| == Pops(op) && (cross ==> Commutes(op) && |args| == 2)
    requires forall i :: 0 <= i < |args| ==>
      Akin(args[i], Turned(brgs, cross)[i]) && TypedArg(op, args[i]) && FedArg(env, vals, op, args[i]) &&
      Related(vals, env, tg, env', tg', args[i], Turned(brgs, cross)[i])
    ensures Related(vals, env, tg, env', tg', OpTerm(op, args), OpTerm(op, brgs))
  {
    hide Uniform, Reckons, Related, TermValue, OnI32, IsInt, IsPure, Stacks.Bitwise, Commutes, TypedArg, FedArg, Akin,
         MakesI32, OneToIt, OperandBoth;
    var crgs := Turned(brgs, cross);
    forall i | 0 <= i < |args|
      ensures OneToIt(vals, env, env', op, args[i], crgs[i])
      ensures OnI32(op) && TermValue(env, args[i]).Some? ==>
        exists x :: OperandBoth(vals, env, tg, env', tg', args[i], crgs[i], x)
    {
      ArgRelated(vals, env, tg, env', tg', op, args[i], crgs[i]);
    }
    if Stacks.Bitwise(op) {
      BitOpIs(op);
      BitsStep(vals, env, tg, env', tg', op, args, brgs, cross);
    } else {
      PlainRelated(vals, env, tg, env', tg', op, args, brgs, cross);
    }
  }

  lemma BitsStep(vals: IntCode.Values, env: Env, tg: Tags, env': Env, tg': Tags, op: Byte, args: seq<Term>,
                 brgs: seq<Term>, cross: bool)
    requires Stacks.Bitwise(op) && Reckons(env, vals) && Reckons(env', vals) && |args| == |brgs| == 2
    requires forall i :: 0 <= i < 2 ==> OneToIt(vals, env, env', op, args[i], Turned(brgs, cross)[i])
    requires forall i :: 0 <= i < 2 && TermValue(env, args[i]).Some? ==>
      exists x :: OperandBoth(vals, env, tg, env', tg', args[i], Turned(brgs, cross)[i], x)
    ensures Related(vals, env, tg, env', tg', OpTerm(op, args), OpTerm(op, brgs))
  {
    hide Reckons, TermValue, OnI32, Stacks.Bitwise, OperandBoth, MakesI32, SamePayload;
    var crgs := Turned(brgs, cross);
    assert args == [args[0], args[1]] && brgs == [brgs[0], brgs[1]];
    assert OneToIt(vals, env, env', op, args[0], crgs[0]) && OneToIt(vals, env, env', op, args[1], crgs[1]);
    if TermValue(env, args[0]).Some? && TermValue(env, args[1]).Some? {
      var x :| OperandBoth(vals, env, tg, env', tg', args[0], crgs[0], x);
      var y :| OperandBoth(vals, env, tg, env', tg', args[1], crgs[1], y);
      BitsRelated(vals, env, tg, env', tg', op, args[0], args[1], brgs[0], brgs[1], x, y, cross);
    } else {
      OperationIs(env, op, args);
      OperationIs(env', op, brgs);
      assert TermValues(env, args).None? && TermValues(env', brgs).None?;
    }
  }

  /** Expressions in the same order have one value wherever operations commute. */
  lemma {:induction false} SameOrderValue(env: Env, vals: IntCode.Values, a: Term, b: Term)
    requires Uniform(env, vals) && SameOrder(a, b)
    ensures TermValue(env, a) == TermValue(env, b)
    decreases a
  {
    hide Uniform, TermValue, Commutes;
    if a.OpTerm? {
      var op, args, brgs := a.op, a.args, b.args;
      var cross := !AllSameOrder(args, brgs);
      var crgs := Turned(brgs, cross);
      forall i | 0 <= i < |args|
        ensures TermValue(env, args[i]) == TermValue(env, crgs[i])
      {
        SameOrderValue(env, vals, args[i], crgs[i]);
      }
      SameValues(env, op, args, crgs);
      if cross {
        CommutesOn(env, vals, op);
        Exchanged(env, op, brgs[0], brgs[1]);
        assert brgs == [brgs[0], brgs[1]];
      }
    }
  }

  lemma CommutesOn(env: Env, vals: IntCode.Values, op: Byte)
    requires Uniform(env, vals) && Commutes(op) && op != I32_XOR
    ensures forall v, w :: env.eval(op, [v, w]) == env.eval(op, [w, v])
  {
    hide Commutes, PayloadAt, MakesAt;
    forall v, w
      ensures env.eval(op, [v, w]) == env.eval(op, [w, v])
    {
      assert CommutesAt(env, op, v, w);
    }
  }

  lemma SameValues(env: Env, op: Byte, args: seq<Term>, crgs: seq<Term>)
    requires |args| == |crgs| && forall i :: 0 <= i < |args| ==> TermValue(env, args[i]) == TermValue(env, crgs[i])
    ensures TermValue(env, OpTerm(op, args)) == TermValue(env, OpTerm(op, crgs))
  {
    hide TermValue;
    OperationIs(env, op, args);
    OperationIs(env, op, crgs);
    var xs, ys := TermValues(env, args), TermValues(env, crgs);
    if xs.Some? && ys.Some? {
      assert xs.value == ys.value;
    }
  }

  /** The tag and the payload of a word. */
  ghost function WordOf(vals: IntCode.Values, v: int): (r: (int, int))
    ensures (exists s, a :: IsWord(vals, v, s, a)) ==> IsWord(vals, v, r.0, r.1)
    ensures IntCode.IsTag(r.0)
  {
    if exists s, a :: IsWord(vals, v, s, a) then (var s, a :| IsWord(vals, v, s, a); (s, a)) else (IntCode.I32_TAG, 0)
  }

  /** The kinds of what an environment holds. */
  ghost function TagsIn(env: Env, vals: IntCode.Values): Tags {
    (t: Term) => if TermValue(env, t).Some? then WordOf(vals, TermValue(env, t).value).0 else IntCode.I32_TAG
  }

  /** v with another kind, if it is a 32-bit integer. */
  ghost function Retag(vals: IntCode.Values, v: int, s: int): int {
    if exists t, a :: IsWord(vals, v, t, a) then vals.word(s, WordOf(vals, v).1) else v
  }

  /** The environment with the given kinds at locals and pool entries. */
  ghost function RetagEnv(env: Env, vals: IntCode.Values, tg: Tags): Env {
    Env(seq(|env.locals|, i requires 0 <= i < |env.locals| => Retag(vals, env.locals[i], tg(LocalTerm(i)))),
        (core: seq<Byte>) => RetagLeaf(env, vals, tg, core), env.eval)
  }

  ghost function RetagLeaf(env: Env, vals: IntCode.Values, tg: Tags, core: seq<Byte>): int {
    if |core| == 3 && core[0] == CONST_GET then Retag(vals, env.leaf(core), tg(LeafTerm(core))) else env.leaf(core)
  }

  /** Every environment has its own kinds. */
  lemma OwnTags(env: Env, vals: IntCode.Values)
    requires Reckons(env, vals)
    ensures AllTags(TagsIn(env, vals)) && Retagged(vals, env, TagsIn(env, vals), env, TagsIn(env, vals))
  {
    hide IsWord, TermValue, BitsAt, WordOf;
    var tg := TagsIn(env, vals);
    forall t: Term | t.LocalTerm? || t.LeafTerm?
      ensures RetaggedAt(vals, env, tg, env, tg, t)
    {
      OwnTagAt(env, vals, t);
    }
  }

  lemma OwnTagAt(env: Env, vals: IntCode.Values, t: Term)
    requires (t.LocalTerm? || t.LeafTerm?) && Reckons(env, vals)
    ensures RetaggedAt(vals, env, TagsIn(env, vals), env, TagsIn(env, vals), t)
  {
    hide IsWord, BitsAt, WordOf;
    var tg := TagsIn(env, vals);
    if IsInt(t) && WordIn(env, vals, t) {
      var v := TermValue(env, t).value;
      if t.LeafTerm? && |t.core| == 5 {
        assert ConstAt(env, vals, t.core);
        var a :| IsWord(vals, v, IntCode.I32_TAG, a);
        assert WordBoth(vals, v, TagTerm(tg, t), v, TagTerm(tg, t), a);
      } else {
        assert WordBoth(vals, v, TagTerm(tg, t), v, TagTerm(tg, t), WordOf(vals, v).1);
      }
    }
  }

  /** An environment with other kinds. */
  lemma OtherTags(env: Env, vals: IntCode.Values, tg: Tags)
    requires Reckons(env, vals) && AllTags(tg)
    ensures Retagged(vals, env, TagsIn(env, vals), RetagEnv(env, vals, tg), tg)
  {
    hide IsWord, TermValue, BitsAt, WordOf, RetagEnv;
    OwnTags(env, vals);
    forall t: Term | t.LocalTerm? || t.LeafTerm?
      ensures RetaggedAt(vals, env, TagsIn(env, vals), RetagEnv(env, vals, tg), tg, t)
    {
      OtherTagAt(env, vals, tg, t);
    }
    assert RetagEnv(env, vals, tg).eval == env.eval by { RetagEval(env, vals, tg); }
  }

  lemma RetagEval(env: Env, vals: IntCode.Values, tg: Tags)
    ensures RetagEnv(env, vals, tg).eval == env.eval
  {
  }

  lemma OtherTagAt(env: Env, vals: IntCode.Values, tg: Tags, t: Term)
    requires (t.LocalTerm? || t.LeafTerm?) && Reckons(env, vals) && AllTags(tg)
    ensures RetaggedAt(vals, env, TagsIn(env, vals), RetagEnv(env, vals, tg), tg, t)
  {
    hide IsSigned, BitsAt, WordOf;
    var env', own := RetagEnv(env, vals, tg), TagsIn(env, vals);
    OwnTagAt(env, vals, t);
    if IsInt(t) && WordIn(env, vals, t) {
      var v, w := TermValue(env, t).value, TermValue(env', t).value;
      if t.LeafTerm? && |t.core| == 5 {
        assert ConstAt(env, vals, t.core);
        var a :| IsWord(vals, v, IntCode.I32_TAG, a);
        assert WordBoth(vals, v, TagTerm(own, t), w, TagTerm(tg, t), a);
      } else {
        assert WordBoth(vals, v, TagTerm(own, t), w, TagTerm(tg, t), WordOf(vals, v).1);
      }
    }
  }

  /** Kinds make no 32-bit integer of anything else, and none of them anything else. */
  lemma RetagWords(vals: IntCode.Values, env: Env, tg: Tags, env': Env, tg': Tags)
    requires Retagged(vals, env, tg, env', tg')
    ensures Retagged(vals, env', tg', env', tg')
    ensures forall t: Term :: IsInt(t) && !t.OpTerm? ==> (WordIn(env, vals, t) <==> WordIn(env', vals, t))
    ensures forall t: Term :: !IsInt(t) && (t.LocalTerm? || t.LeafTerm?) ==>
      (WordIn(env, vals, t) <==> WordIn(env', vals, t))
  {
    hide IsWord, TermValue, TagTerm;
    forall t: Term | t.LocalTerm? || t.LeafTerm?
      ensures RetaggedAt(vals, env', tg', env', tg', t)
      ensures WordIn(env, vals, t) <==> WordIn(env', vals, t)
    {
      assert RetaggedAt(vals, env, tg, env', tg', t);
      if IsInt(t) && WordIn(env, vals, t) {
        var v, w := TermValue(env, t).value, TermValue(env', t).value;
        var a :| WordBoth(vals, v, TagTerm(tg, t), w, TagTerm(tg', t), a);
        assert WordBoth(vals, w, TagTerm(tg', t), w, TagTerm(tg', t), a);
        assert IsWord(vals, w, TagTerm(tg', t), a);
      }
    }
  }

  lemma {:induction false} RetagFed(vals: IntCode.Values, env: Env, tg: Tags, env': Env, tg': Tags, t: Term)
    requires Retagged(vals, env, tg, env', tg') && Fed(env, vals, t) && Typed(t)
    ensures Fed(env', vals, t)
    decreases t
  {
    hide Retagged, IsInt, WordIn, OnI32, IsPure, Stacks.Bitwise;
    RetagWords(vals, env, tg, env', tg');
    if t.OpTerm? {
      forall i | 0 <= i < |t.args|
        ensures FedArg(env', vals, t.op, t.args[i])
      {
        assert FedArg(env, vals, t.op, t.args[i]) && TypedArg(t.op, t.args[i]);
        RetagFed(vals, env, tg, env', tg', t.args[i]);
        KnownLeaf(t.args[i]);
      }
    }
  }

  lemma KnownLeaf(t: Term)
    requires Typed(t)
    ensures !t.OpTerm? ==> t.LocalTerm? || t.LeafTerm?
  {
  }

  lemma {:induction false} AkinItself(t: Term)
    ensures Akin(t, t)
    decreases t
  {
    if t.OpTerm? {
      forall i | 0 <= i < |t.args|
        ensures Akin(t.args[i], t.args[i])
      {
        AkinItself(t.args[i]);
      }
      assert AllAkin(t.args, t.args);
    }
  }

  lemma AgreeingUnder(vals: IntCode.Values, env: Env, tg: Tags, a: Term, b: Term)
    requires Akin(a, b) && Typed(a) && Typed(b) && Fed(env, vals, a) && Uniform(env, vals) && Reckons(env, vals)
    requires Retagged(vals, env, tg, env, tg) && TagTerm(tg, a) == TagTerm(tg, b)
    ensures TermValue(env, a) == TermValue(env, b)
  {
    hide Typed, Fed, Uniform, Reckons, TermValue, IsSigned, Retagged, TagTerm;
    AkinRelated(vals, env, tg, env, tg, a, b);
  }

  /** Akin expressions of agreeing kinds have one value. */
  lemma AgreeingValue(vals: IntCode.Values, env: Env, a: Term, b: Term)
    requires Akin(a, b) && Typed(a) && Typed(b) && Fed(env, vals, a) && Uniform(env, vals) && Reckons(env, vals)
    requires KindsAgree(a, b)
    ensures TermValue(env, a) == TermValue(env, b)
  {
    hide Typed, Fed, Uniform, Reckons, TermValue, Retagged, TagTerm, TagsIn, Akin;
    var tg := TagsIn(env, vals);
    OwnTags(env, vals);
    AgreeingUnder(vals, env, tg, a, b);
  }

  /** Computations of one group whose operands stand the same way have one value. */
  lemma SameWayValue(vals: IntCode.Values, env: Env, a: Term, b: Term)
    requires Akin(a, b) && SameWay(a, b) && (SameOrder(a, b) || Fed(env, vals, a))
    requires Uniform(env, vals) && Reckons(env, vals)
    ensures TermValue(env, a) == TermValue(env, b)
  {
    hide Akin, Typed, Fed, Uniform, Reckons, TermValue, KindsAgree, SameOrder;
    if SameOrder(a, b) {
      SameOrderValue(env, vals, a, b);
    } else {
      AgreeingValue(vals, env, a, b);
    }
  }

  /** Under some kinds the two values differ, if the kinds do. */
  lemma Differing(vals: IntCode.Values, env: Env, tg: Tags, a: Term, b: Term)
    requires Akin(a, b) && Typed(a) && Typed(b) && Fed(env, vals, a) && Uniform(env, vals) && Reckons(env, vals)
    requires IntCode.Distinct(vals) && TermValue(env, a).Some? && AllTags(tg) && TagTerm(tg, a) != TagTerm(tg, b)
    requires Reckons(RetagEnv(env, vals, tg), vals)
    ensures var env' := RetagEnv(env, vals, tg);
            && TermValue(env', a).Some? && TermValue(env', b).Some?
            && TermValue(env', a) != TermValue(env', b)
  {
    hide Akin, Typed, Fed, Uniform, Reckons, TermValue, IsSigned, Retagged, RetagEnv, TagTerm, WordIn, MakesI32, IsInt;
    var env', own := RetagEnv(env, vals, tg), TagsIn(env, vals);
    OtherTags(env, vals, tg);
    RetagWords(vals, env, own, env', tg);
    RetagFed(vals, env, own, env', tg, a);
    AkinItself(a);
    AkinRelated(vals, env, own, env', tg, a, a);
    RetagEval(env, vals, tg);
    UniformAlike(env, env', vals);
    AkinRelated(vals, env', tg, env', tg, a, b);
    KindsDiffer(tg, a, b);
    var x :| WordBoth(vals, TermValue(env', a).value, TagTerm(tg, a), TermValue(env', b).value, TagTerm(tg, b), x);
  }

  lemma UniformAlike(env: Env, env': Env, vals: IntCode.Values)
    requires Uniform(env, vals) && env'.eval == env.eval
    ensures Uniform(env', vals)
  {
    hide Commutes, OnI32, MakesI32, SamePayloads, IsWord;
    forall op, x, y
      ensures CommutesAt(env', op, x, y)
    {
      assert CommutesAt(env, op, x, y);
    }
    forall op, xs, ys
      ensures PayloadAt(env', vals, op, xs, ys)
    {
      assert PayloadAt(env, vals, op, xs, ys);
    }
    forall op, xs
      ensures MakesAt(env', vals, op, xs)
    {
      assert MakesAt(env, vals, op, xs);
    }
  }

  lemma KindsDiffer(tg: Tags, a: Term, b: Term)
    requires Akin(a, b) && TagTerm(tg, a) != TagTerm(tg, b)
    ensures a.OpTerm? && MakesI32(a.op)
  {
    if a.OpTerm? {
      if Stacks.Bitwise(a.op) {
        BitOpIs(a.op);
      }
    }
  }

  /** Two computations of one group whose first one is computed at all have one value, whatever the kinds, exactly when
      their kinds agree. */
  lemma SameValueIff(vals: IntCode.Values, env: Env, a: Term, b: Term)
    requires Akin(a, b) && Typed(a) && Typed(b) && Fed(env, vals, a) && Uniform(env, vals) && Reckons(env, vals)
    requires IntCode.Distinct(vals) && TermValue(env, a).Some?
    ensures KindsAgree(a, b) <==>
      forall tg: Tags :: AllTags(tg) ==>
        TermValue(RetagEnv(env, vals, tg), a) == TermValue(RetagEnv(env, vals, tg), b)
  {
    hide Akin, Typed, Fed, Uniform, Reckons, TermValue, Retagged, RetagEnv, TagTerm;
    forall tg: Tags | AllTags(tg)
      ensures TagTerm(tg, a) == TagTerm(tg, b) <==>
        TermValue(RetagEnv(env, vals, tg), a) == TermValue(RetagEnv(env, vals, tg), b)
    {
      var env' := RetagEnv(env, vals, tg);
      RetagReckons(env, vals, tg);
      RetagEval(env, vals, tg);
      UniformAlike(env, env', vals);
      if TagTerm(tg, a) == TagTerm(tg, b) {
        OtherTags(env, vals, tg);
        RetagWords(vals, env, TagsIn(env, vals), env', tg);
        RetagFed(vals, env, TagsIn(env, vals), env', tg, a);
        AgreeingUnder(vals, env', tg, a, b);
      } else {
        Differing(vals, env, tg, a, b);
      }
    }
  }

  lemma RetagReckons(env: Env, vals: IntCode.Values, tg: Tags)
    requires Reckons(env, vals)
    ensures Reckons(RetagEnv(env, vals, tg), vals)
  {
    hide Apply, IsSigned, IntCode.TagOf, Retag;
    var env' := RetagEnv(env, vals, tg);
    forall op, a, b, s, t
      ensures BitsAt(env', vals, op, a, b, s, t)
    {
      assert BitsAt(env, vals, op, a, b, s, t);
    }
    forall core
      ensures ConstAt(env', vals, core)
    {
      assert ConstAt(env, vals, core);
      assert env'.leaf(core) == RetagLeaf(env, vals, tg, core);
      if |core| == 5 && core[0] == IntCode.I32_CONST {
        assert env'.leaf(core) == env.leaf(core);
      }
    }
  }
}
