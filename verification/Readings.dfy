/** Machines that read the opcodes as the handlers do. */
module Readings {
  import opened Bytecode
  import opened Stacks
  import opened Numbering
  import opened GroupValues
  import opened Integers
  import opened Orientation
  import Codec
  import IntCode

  /** The operations whose meaning on integers is given are pure. */
  lemma FamiliarIs(op: Byte)
    ensures IntCode.BinOf(op).Some? ==> IsPure(op) && Pops(op) == 2
    ensures IntCode.ZeroTest(op).Some? || op == IntCode.I64_TO_I32 ==> IsPure(op) && Pops(op) == 1
  {
  }

  /** Two machines that read the opcodes over the same operations do the same at one of them. */
  lemma SameAt(sem: Semantics, env: Env, sem': Semantics, env': Env, op: Byte, st: State)
    requires Does(sem, env, [op], st) && Does(sem', env', [op], st) && env'.eval == env.eval
    requires IsPure(op) && 0 < Pops(op) <= |st.stack|
    ensures sem([op], st) == sem'([op], st) || (sem([op], st).Raise? && sem'([op], st).Raise?)
  {
    hide IsPure, IsLeaf, Pops;
  }

  lemma ReadsBin(sem: Semantics, env: Env, env': Env, vals: IntCode.Values, op: Byte, st: State, a: int, b: int,
                 s: int, t: int)
    requires IntCode.BinAt(sem, vals, op, st, a, b, s, t) && env'.eval == env.eval
    requires forall core, st :: core != [] ==> Does(sem, env, core, st) && Does(Reader(env'), env', core, st)
    ensures IntCode.BinAt(Reader(env'), vals, op, st, a, b, s, t)
  {
    hide IsPure, Pops, IntCode.BinOf, Does, Reader, Apply, IntCode.TagOf, IsSigned, IntCode.Form;
    if IntCode.BinOf(op).Some? {
      FamiliarIs(op);
      var w := IntCode.BinOf(op).value.0;
      var st2 := IntCode.Push(IntCode.Push(st, IntCode.Form(vals, w, a, s)), IntCode.Form(vals, w, b, t));
      SameAt(sem, env, Reader(env'), env', op, st2);
    }
  }

  lemma ReadsUn(sem: Semantics, env: Env, env': Env, vals: IntCode.Values, op: Byte, st: State, a: int, t: int)
    requires IntCode.UnAt(sem, vals, op, st, a, t) && env'.eval == env.eval
    requires forall core, st :: core != [] ==> Does(sem, env, core, st) && Does(Reader(env'), env', core, st)
    ensures IntCode.UnAt(Reader(env'), vals, op, st, a, t)
  {
    hide IsPure, Pops, IntCode.ZeroTest, Does, Reader, Signed, IsSigned, IntCode.Form;
    FamiliarIs(op);
    if IntCode.ZeroTest(op).Some? {
      SameAt(sem, env, Reader(env'), env', op, IntCode.Push(st, IntCode.Form(vals, IntCode.ZeroTest(op).value, a, t)));
    }
    if op == IntCode.I64_TO_I32 {
      SameAt(sem, env, Reader(env'), env', op, IntCode.Push(st, vals.num(W64, a)));
    }
  }

  /** A pool that holds what the environment's pool loads push. */
  ghost function PoolOf(env: Env): seq<int> {
    seq(0x10000, i requires 0 <= i < 0x10000 => env.leaf([CONST_GET, Low(i), High(i)]))
  }

  lemma PoolRead(core: seq<Byte>)
    requires |core| == 3 && core[0] == CONST_GET
    ensures Codec.Read(core[1..]) < 0x10000
    ensures core == [CONST_GET, Low(Codec.Read(core[1..])), High(Codec.Read(core[1..]))]
  {
    assert core[1..] == [core[1], core[2]];
    assert [core[1], core[2]][1..] == [core[2]] && [core[2]][1..] == [];
    var lo: int, hi: int := core[1], core[2];
    assert Codec.Read([]) == 0 && Codec.Read([core[2]]) == hi;
    assert Codec.Read(core[1..]) == lo + 256 * hi;
    assert (lo + 256 * hi) % 256 == lo && (lo + 256 * hi) / 256 == hi;
  }

  lemma ReadsLoad(sem: Semantics, pool: seq<int>, env: Env, env': Env, vals: IntCode.Values, core: seq<Byte>, st: State)
    requires core != [] && IntCode.LoadAt(sem, pool, vals, core, st) && Does(sem, env, core, st)
    requires Does(Reader(env'), env', core, st) && (core[0] != CONST_GET ==> env'.leaf(core) == env.leaf(core))
    ensures IntCode.LoadAt(Reader(env'), PoolOf(env'), vals, core, st)
  {
    hide IsPure, Pops, Reader, Codec.Read, Signed;
    if IntCode.ConstOf(core).Some? {
      var v := vals.num(IntCode.ConstOf(core).value.0, IntCode.ConstOf(core).value.1);
      assert (st.stack + [env.leaf(core)])[|st.stack|] == (st.stack + [v])[|st.stack|];
    }
    if core[0] == CONST_GET && |core| == 3 {
      PoolRead(core);
    }
  }

  /** Changing what locals and pool entries hold leaves a machine that reads the opcodes as the handlers do. */
  lemma Realized(sem: Semantics, pool: seq<int>, vals: IntCode.Values, env: Env, env': Env)
    requires Machine(sem, pool, vals, env) && env'.eval == env.eval
    requires forall core :: core == [] || core[0] != CONST_GET ==> env'.leaf(core) == env.leaf(core)
    ensures Machine(Reader(env'), PoolOf(env'), vals, env')
  {
    hide Uniform, Does, Effects, Blind, Sensible, IntCode.LoadAt, IntCode.BinAt, IntCode.UnAt, Reader, PoolOf;
    var sem' := SomeReading(env');
    UniformAlike(env, env', vals);
    forall core: seq<Byte>, st: State | core != []
      ensures IntCode.LoadAt(sem', PoolOf(env'), vals, core, st)
    {
      ReadsLoad(sem, pool, env, env', vals, core, st);
    }
    forall op: Byte, st: State, a: int, b: int, s: int, t: int
      ensures IntCode.BinAt(sem', vals, op, st, a, b, s, t)
    {
      ReadsBin(sem, env, env', vals, op, st, a, b, s, t);
    }
    forall op: Byte, st: State, a: int, t: int
      ensures IntCode.UnAt(sem', vals, op, st, a, t)
    {
      ReadsUn(sem, env, env', vals, op, st, a, t);
    }
  }

  /** What an operation whose meaning is not given leaves: whether its operands are equal, or else which is the
      smaller. */
  function Compared(op: Byte, xs: seq<int>): int {
    if |xs| != 2 then 0
    else if op in {32, 33, 113, 115, 129, 130, 142, 144, 158, 159} then (if xs[0] / 8 == xs[1] / 8 then 1 else 0)
    else if xs[0] / 8 < xs[1] / 8 then 1 else 0
  }

  /** The operations of a machine whose words are eight times their payload, plus their kind. */
  function Calc(op: Byte, xs: seq<int>): Option<int> {
    if IntCode.BinOf(op).Some? then
      (if |xs| == 2 then CalcBin(IntCode.BinOf(op).value.0, IntCode.BinOf(op).value.1, xs[0], xs[1]) else None)
    else if IntCode.ZeroTest(op).Some? then (if |xs| == 1 then Some(IntCode.Truth(xs[0] / 8 == 0)) else None)
    else if op == IntCode.I64_TO_I32
        then (if |xs| == 1 then Some(IntCode.Number(W32, Signed(W32, xs[0] / 8))) else None)
    else Some(IntCode.Word(MadeTag(op), Compared(op, xs)))
  }

  function CalcBin(w: Precision, o: Op, x: int, y: int): Option<int> {
    match Apply(w, o, x / 8, y / 8)
    case Num(v) => Some(if w == W32 then IntCode.Word(IntCode.TagOf(o, x % 8, y % 8), v) else IntCode.Long(v))
    case Bool(b) => Some(IntCode.Truth(b))
    case Trap => None
  }

  /** The environment of such a machine. */
  function CalcEnv(locals: seq<int>, pool: seq<int>): Env {
    Env(locals, (core: seq<Byte>) => CalcLeaf(pool, core), (op: Byte, xs: seq<int>) => Calc(op, xs))
  }

  function CalcLeaf(pool: seq<int>, core: seq<Byte>): int {
    if IntCode.ConstOf(core).Some?
        then IntCode.Number(IntCode.ConstOf(core).value.0, IntCode.ConstOf(core).value.1)
    else if |core| == 3 && core[0] == CONST_GET && Codec.Read(core[1..]) < |pool| then pool[Codec.Read(core[1..])]
    else 0
  }

  lemma ApplyCommutes(w: Precision, o: Op, a: int, b: int)
    requires o in {Add, Mul, Xor, And, Or, Eq, Ne}
    ensures Apply(w, o, a, b) == Apply(w, o, b, a)
  {
    hide Integers.Bitwise, Pow2, Signed, Quo;
    BitsCommute(o, Wrap(w, a), Wrap(w, b), Bits(w));
    assert a * b == b * a;
  }

  lemma CommutingOps(op: Byte)
    requires Commutes(op) && op != I32_XOR && IntCode.BinOf(op).Some?
    ensures IntCode.BinOf(op).value.1 in {Add, Mul, Xor, And, Or, Eq, Ne}
    ensures IntCode.BinOf(op).value != (W32, Xor)
  {
  }

  lemma CommutingRest(op: Byte)
    requires Commutes(op) && op != I32_XOR && IntCode.BinOf(op).None?
    ensures op in {32, 33, 113, 115, 129, 130, 142, 144, 158, 159}
  {
  }

  /** Of the integer operations the table lists those that commute, and of the floating-point ones the same at both
      widths. */
  lemma CommutesIff(op: Byte)
    ensures IntCode.BinOf(op).Some? ==>
              (Commutes(op) <==>
               forall a, b :: Apply(IntCode.BinOf(op).value.0, IntCode.BinOf(op).value.1, a, b) ==
                              Apply(IntCode.BinOf(op).value.0, IntCode.BinOf(op).value.1, b, a))
    ensures 113 <= op < 141 ==> (Commutes(op) <==> Commutes(op + 29))
  {
    hide Apply;
    if IntCode.BinOf(op).Some? {
      var (w, o) := IntCode.BinOf(op).value;
      CommutingKinds(op);
      if Commutes(op) {
        forall a, b
          ensures Apply(w, o, a, b) == Apply(w, o, b, a)
        {
          ApplyCommutes(w, o, a, b);
        }
      } else {
        ApplyOrdered(w, o);
      }
    }
  }

  lemma CommutingKinds(op: Byte)
    requires IntCode.BinOf(op).Some?
    ensures Commutes(op) <==> IntCode.BinOf(op).value.1 in {Add, Mul, Xor, And, Or, Eq, Ne}
  {
  }

  /** Every other operation tells its operands apart. */
  lemma ApplyOrdered(w: Precision, o: Op)
    requires o !in {Add, Mul, Xor, And, Or, Eq, Ne}
    ensures exists a, b :: Apply(w, o, a, b) != Apply(w, o, b, a)
  {
    hide Integers.Bitwise;
    assert Pow2(0) == 1 && Pow2(1) == 2;
    assert Apply(w, o, 1, 0) != Apply(w, o, 0, 1);
  }

  lemma CalcCommutes(op: Byte, x: int, y: int)
    requires Commutes(op) && op != I32_XOR
    ensures Calc(op, [x, y]) == Calc(op, [y, x])
  {
    hide Apply, Commutes, IntCode.BinOf;
    if IntCode.BinOf(op).Some? {
      CommutingOps(op);
      var w, o := IntCode.BinOf(op).value.0, IntCode.BinOf(op).value.1;
      ApplyCommutes(w, o, x / 8, y / 8);
    } else if Commutes(op) {
      CommutingRest(op);
    }
  }

  lemma WordReads(x: int, s: int, a: int)
    requires IsWord(IntCode.Spares(), x, s, a)
    ensures x / 8 == a && x % 8 == s
  {
  }

  lemma PlainBin(op: Byte)
    requires OnI32(op) && !Stacks.Bitwise(op) && IntCode.BinOf(op).Some?
    ensures IntCode.BinOf(op).value.0 == W32 && IntCode.BinOf(op).value.1 !in {Xor, And, Or}
  {
  }

  lemma CalcPayload(op: Byte, xs: seq<int>, ys: seq<int>)
    requires OnI32(op) && !Stacks.Bitwise(op) && SamePayloads(IntCode.Spares(), xs, ys)
    ensures Calc(op, xs) == Calc(op, ys)
  {
    hide Apply, OnI32, IntCode.BinOf, IntCode.ZeroTest, IsSigned;
    forall i | 0 <= i < |xs|
      ensures xs[i] / 8 == ys[i] / 8
    {
      SameEighth(xs[i], ys[i]);
    }
    if IntCode.BinOf(op).Some? {
      PlainBin(op);
    }
  }

  lemma SameEighth(x: int, y: int)
    requires SamePayload(IntCode.Spares(), x, y)
    ensures x / 8 == y / 8
  {
    if x != y {
      var s, t, a :| IsWord(IntCode.Spares(), x, s, a) && IsWord(IntCode.Spares(), y, t, a);
      WordReads(x, s, a);
      WordReads(y, t, a);
    }
  }

  lemma MadeBin(op: Byte)
    requires MakesI32(op) && !Stacks.Bitwise(op)
    ensures IntCode.BinOf(op).Some? ==>
      var (w, o) := IntCode.BinOf(op).value;
      if MadeTag(op) == IntCode.I1_TAG then o in {Eq, Ne, LtS, LtU, GtS, GtU, LeS, LeU, GeS, GeU}
      else w == W32 && o in {Add, Sub, Mul, DivS, DivU, RemS, RemU, Shl, ShrS, ShrU}
    ensures IntCode.ZeroTest(op).Some? ==> MadeTag(op) == IntCode.I1_TAG
    ensures op == IntCode.I64_TO_I32 ==> MadeTag(op) == IntCode.I32_TAG
  {
  }

  lemma CalcMakes(op: Byte, xs: seq<int>)
    requires MakesI32(op) && !Stacks.Bitwise(op) && Calc(op, xs).Some?
    ensures exists a :: IsWord(IntCode.Spares(), Calc(op, xs).value, MadeTag(op), a)
  {
    hide MakesI32, IntCode.BinOf, IntCode.ZeroTest, Signed, Stacks.Bitwise, Fixed;
    MadeBin(op);
    MadeTagIs(op);
    if IntCode.BinOf(op).Some? {
      var (w, o) := IntCode.BinOf(op).value;
      BinMakes(w, o, xs[0], xs[1]);
      var v :| IsWord(IntCode.Spares(), Calc(op, xs).value, MadeTag(op), v);
    } else if IntCode.ZeroTest(op).Some? {
      TruthIs(xs[0] / 8 == 0);
    } else if op == IntCode.I64_TO_I32 {
      SignedFits(W32, xs[0] / 8);
      assert IsWord(IntCode.Spares(), Calc(op, xs).value, IntCode.I32_TAG, Signed(W32, xs[0] / 8));
    } else {
      assert IsWord(IntCode.Spares(), Calc(op, xs).value, MadeTag(op), Compared(op, xs));
    }
  }

  lemma MadeTagIs(op: Byte)
    ensures MadeTag(op) == IntCode.I1_TAG || MadeTag(op) == IntCode.I32_TAG
  {
  }

  lemma TruthIs(b: bool)
    ensures IsWord(IntCode.Spares(), IntCode.Truth(b), IntCode.I1_TAG, if b then 1 else 0)
  {
  }

  lemma BinMakes(w: Precision, o: Op, x: int, y: int)
    requires CalcBin(w, o, x, y).Some?
    ensures o in {Eq, Ne, LtS, LtU, GtS, GtU, LeS, LeU, GeS, GeU} ==>
      exists a :: IsWord(IntCode.Spares(), CalcBin(w, o, x, y).value, IntCode.I1_TAG, a)
    ensures w == W32 && o in {Add, Sub, Mul, DivS, DivU, RemS, RemU, Shl, ShrS, ShrU} ==>
      exists a :: IsWord(IntCode.Spares(), CalcBin(w, o, x, y).value, IntCode.I32_TAG, a)
  {
    hide Integers.Bitwise, Pow2, Signed, Quo, Wrap;
    ApplyFits(w, o, x / 8, y / 8);
    match Apply(w, o, x / 8, y / 8)
    case Num(v) =>
      if w == W32 && o in {Add, Sub, Mul, DivS, DivU, RemS, RemU, Shl, ShrS, ShrU} {
        assert IsWord(IntCode.Spares(), CalcBin(w, o, x, y).value, IntCode.I32_TAG, v);
      }
    case Bool(b) => TruthIs(b);
    case Trap =>
  }

  lemma CalcUniform(locals: seq<int>, pool: seq<int>)
    ensures Uniform(CalcEnv(locals, pool), IntCode.Spares())
  {
    hide Calc, Commutes, OnI32, MakesI32, SamePayloads, IsWord, Stacks.Bitwise;
    var env, vals := CalcEnv(locals, pool), IntCode.Spares();
    forall op, x, y
      ensures CommutesAt(env, op, x, y)
    {
      if Commutes(op) && op != I32_XOR {
        CalcCommutes(op, x, y);
      }
    }
    forall op, xs, ys
      ensures PayloadAt(env, vals, op, xs, ys)
    {
      if OnI32(op) && !Stacks.Bitwise(op) && SamePayloads(vals, xs, ys) {
        CalcPayload(op, xs, ys);
      }
    }
    forall op, xs
      ensures MakesAt(env, vals, op, xs)
    {
      if MakesI32(op) && !Stacks.Bitwise(op) && Calc(op, xs).Some? {
        CalcMakes(op, xs);
      }
    }
  }

  lemma CalcReads(locals: seq<int>, pool: seq<int>, op: Byte, st: State, a: int, b: int, s: int, t: int)
    ensures IntCode.BinAt(Reader(CalcEnv(locals, pool)), IntCode.Spares(), op, st, a, b, s, t)
  {
    hide IsPure, Pops, IntCode.BinOf, IntCode.ZeroTest, Apply, IntCode.TagOf, IsSigned, MadeTag;
    if IntCode.BinOf(op).Some? && IntCode.IsTag(s) && IntCode.IsTag(t) {
      FamiliarIs(op);
      PureIs(op);
      var w := IntCode.BinOf(op).value.0;
      var x, y := IntCode.Form(IntCode.Spares(), w, a, s), IntCode.Form(IntCode.Spares(), w, b, t);
      IntCode.FormReads(w, a, s);
      IntCode.FormReads(w, b, t);
      IntCode.PushPop(st, x, y);
      var st2 := IntCode.Push(IntCode.Push(st, x), y);
      assert st2.stack[|st2.stack| - 2..] == [x, y] && st2.stack[..|st2.stack| - 2] == st.stack;
    }
  }

  lemma CalcTests(locals: seq<int>, pool: seq<int>, op: Byte, st: State, a: int, t: int)
    ensures IntCode.UnAt(Reader(CalcEnv(locals, pool)), IntCode.Spares(), op, st, a, t)
  {
    hide IsPure, Pops, IntCode.BinOf, IntCode.ZeroTest, Signed, IsSigned, MadeTag, Reader, CalcEnv, Calc;
    FamiliarIs(op);
    IntCode.OneByte(op);
    if IntCode.ZeroTest(op).Some? && IntCode.IsTag(t) {
      var x := IntCode.Form(IntCode.Spares(), IntCode.ZeroTest(op).value, a, t);
      CalcIs(op, x);
      CalcOne(locals, pool, op, st, x);
      IntCode.FormReads(IntCode.ZeroTest(op).value, a, t);
    }
    if op == IntCode.I64_TO_I32 {
      var x := IntCode.Spares().num(W64, a);
      CalcIs(op, x);
      CalcOne(locals, pool, op, st, x);
      IntCode.FormReads(W64, a, IntCode.I32_TAG);
    }
  }

  lemma CalcIs(op: Byte, x: int)
    ensures IntCode.ZeroTest(op).Some? ==> Calc(op, [x]) == Some(IntCode.Truth(x / 8 == 0))
    ensures op == IntCode.I64_TO_I32 ==> Calc(op, [x]) == Some(IntCode.Number(W32, Signed(W32, x / 8)))
  {
    hide IntCode.BinOf, IntCode.ZeroTest, Signed, MadeTag;
    IntCode.OneByte(op);
  }

  /** An operation on one operand. */
  lemma CalcOne(locals: seq<int>, pool: seq<int>, op: Byte, st: State, x: int)
    requires IsPure(op) && Pops(op) == 1 && Calc(op, [x]).Some?
    ensures Reader(CalcEnv(locals, pool))([op], IntCode.Push(st, x)) == Next(IntCode.Push(st, Calc(op, [x]).value))
  {
    hide IsPure, Pops, Calc, IsLeaf;
    PureIs(op);
    OtherIs(op);
    var st1 := IntCode.Push(st, x);
    assert st1.stack[|st1.stack| - 1..] == [x] && st1.stack[..|st1.stack| - 1] == st.stack;
  }

  lemma OtherIs(op: Byte)
    requires IsPure(op)
    ensures op != BR && op != RETURN && op != DROP
  {
  }

  lemma CalcLoads(locals: seq<int>, pool: seq<int>, core: seq<Byte>, st: State)
    requires core != []
    ensures IntCode.LoadAt(Reader(CalcEnv(locals, pool)), pool, IntCode.Spares(), core, st)
  {
    hide IsPure, Pops, Codec.Read, Signed, Calc;
  }

  /** Whatever the locals and the pool hold, some machine reads the opcodes as the handlers do and tells the kinds
      apart. */
  lemma SomeMachine(locals: seq<int>, pool: seq<int>)
    ensures Machine(Reader(CalcEnv(locals, pool)), pool, IntCode.Spares(), CalcEnv(locals, pool))
    ensures Lively(Reader(CalcEnv(locals, pool))) && IntCode.Distinct(IntCode.Spares())
  {
    hide Lively, Uniform, Does, Effects, Blind, Sensible, IntCode.LoadAt, IntCode.BinAt, IntCode.UnAt, Reader, CalcEnv;
    var env, vals := CalcEnv(locals, pool), IntCode.Spares();
    var sem := SomeReading(env);
    CalcUniform(locals, pool);
    forall core: seq<Byte>, st: State | core != []
      ensures IntCode.LoadAt(sem, pool, vals, core, st)
    {
      CalcLoads(locals, pool, core, st);
    }
    forall op: Byte, st: State, a: int, b: int, s: int, t: int
      ensures IntCode.BinAt(sem, vals, op, st, a, b, s, t)
    {
      CalcReads(locals, pool, op, st, a, b, s, t);
    }
    forall op: Byte, st: State, a: int, t: int
      ensures IntCode.UnAt(sem, vals, op, st, a, t)
    {
      CalcTests(locals, pool, op, st, a, t);
    }
  }
}
