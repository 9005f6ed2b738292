/** What a machine makes of the integer opcodes, constants and pool loads. */
module IntCode {
  import opened Bytecode
  import opened Integers
  import Codec
  import Stacks

  const I32_CONST: Byte := 34
  const I64_CONST: Byte := 73
  const I64_TO_I32: Byte := 106
  const CONST_GET: Byte := 22

  /** The tags of the words that i32 operations accept. What they read is the payload; 7 stands for no kind. */
  const I32_TAG := 4
  const I8_TAG := 5
  const I1_TAG := 6

  predicate IsTag(t: int) {
    4 <= t < 8
  }

  /** How integers stand on the operand stack: a 32-bit one with a tag, a 64-bit one by itself. */
  datatype Values = Values(word: (int, int) -> int, long: int -> int) {
    function num(w: Precision, v: int): int {
      if w == W32 then word(I32_TAG, v) else long(v)
    }

    function flag(b: bool): int {
      word(I1_TAG, if b then 1 else 0)
    }
  }

  /** The tag of a 32-bit operation's number. And and or work on the tags' bits too, exclusive or keeps the left tag;
      everything else makes an i32. */
  function TagOf(op: Op, s: int, t: int): int {
    match op
    case And => if s == t || t == 7 then s else if s == 7 then t else I32_TAG
    case Or => if s == t || t == I32_TAG then s else if s == I32_TAG then t else 7
    case Xor => s
    case _ => I32_TAG
  }

  /** And and or combine the tags bit by bit. */
  lemma TagsAreBits(op: Op, s: int, t: int)
    requires IsTag(s) && IsTag(t) && (op == And || op == Or)
    ensures TagOf(op, s, t) == Bitwise(op, s, t, 3) && IsTag(TagOf(op, s, t))
  {
    TwoBits(op, s / 2, t / 2);
    assert Bit(op, 1, 1) == 1;
  }

  lemma TwoBits(op: Op, s: nat, t: nat)
    requires 2 <= s < 4 && 2 <= t < 4
    ensures Bitwise(op, s, t, 2) == Bit(op, s % 2, t % 2) + 2 * Bit(op, 1, 1)
  {
    assert Bitwise(op, s / 2, t / 2, 1) == Bit(op, 1, 1) + 2 * Bitwise(op, s / 2 / 2, t / 2 / 2, 0);
  }

  function TagOfKind(k: Stacks.Kind): int {
    if k == Stacks.I1 then I1_TAG else if k == Stacks.I8 then I8_TAG else I32_TAG
  }

  /** The verifier foresees the kind of a bitwise result exactly when the operands' kinds agree, or the operation is
      and, or it is exclusive or of an i32. */
  lemma KindForeseenIff(op: Op, a: Stacks.Kind, b: Stacks.Kind)
    requires op in {And, Or, Xor} && a in {Stacks.I32, Stacks.I8, Stacks.I1} && b in {Stacks.I32, Stacks.I8, Stacks.I1}
    ensures TagOf(op, TagOfKind(a), TagOfKind(b)) == TagOfKind(Stacks.BitwiseKind(a, b)) <==>
      a == b || op == And || (op == Xor && a == Stacks.I32)
  {
  }

  /** The arithmetic opcodes in order from the given one, then the comparisons. */
  function OpOf(op: Byte, arith: int, compare: int): Option<Op> {
    if arith <= op < arith + 13
        then Some([Add, Sub, Mul, DivS, DivU, RemS, RemU, Shl, ShrS, ShrU, Xor, And, Or][op - arith])
    else if compare <= op < compare + 10 then Some([Eq, Ne, LtS, LtU, GtS, GtU, LeS, LeU, GeS, GeU][op - compare])
    else None
  }

  function BinOf(op: Byte): Option<(Precision, Op)> {
    match OpOf(op, 35, 56)
    case Some(o) => Some((W32, o))
    case None =>
      match OpOf(op, 74, 96)
      case Some(o) => Some((W64, o))
      case None => None
  }

  /** Tests for zero. */
  function ZeroTest(op: Byte): Option<Precision> {
    if op == 55 then Some(W32) else if op == 95 then Some(W64) else None
  }

  /** The integer opcodes, number by number. */
  lemma OpcodesAre()
    ensures BinOf(35) == Some((W32, Add)) && BinOf(36) == Some((W32, Sub)) && BinOf(37) == Some((W32, Mul))
    ensures BinOf(38) == Some((W32, DivS)) && BinOf(39) == Some((W32, DivU)) && BinOf(40) == Some((W32, RemS))
    ensures BinOf(41) == Some((W32, RemU)) && BinOf(42) == Some((W32, Shl)) && BinOf(43) == Some((W32, ShrS))
    ensures BinOf(44) == Some((W32, ShrU)) && BinOf(45) == Some((W32, Xor)) && BinOf(46) == Some((W32, And))
    ensures BinOf(47) == Some((W32, Or)) && BinOf(56) == Some((W32, Eq)) && BinOf(57) == Some((W32, Ne))
    ensures BinOf(58) == Some((W32, LtS)) && BinOf(59) == Some((W32, LtU)) && BinOf(60) == Some((W32, GtS))
    ensures BinOf(61) == Some((W32, GtU)) && BinOf(62) == Some((W32, LeS)) && BinOf(63) == Some((W32, LeU))
    ensures BinOf(64) == Some((W32, GeS)) && BinOf(65) == Some((W32, GeU))
    ensures BinOf(74) == Some((W64, Add)) && BinOf(75) == Some((W64, Sub)) && BinOf(76) == Some((W64, Mul))
    ensures BinOf(77) == Some((W64, DivS)) && BinOf(78) == Some((W64, DivU)) && BinOf(79) == Some((W64, RemS))
    ensures BinOf(80) == Some((W64, RemU)) && BinOf(81) == Some((W64, Shl)) && BinOf(82) == Some((W64, ShrS))
    ensures BinOf(83) == Some((W64, ShrU)) && BinOf(84) == Some((W64, Xor)) && BinOf(85) == Some((W64, And))
    ensures BinOf(86) == Some((W64, Or)) && BinOf(96) == Some((W64, Eq)) && BinOf(97) == Some((W64, Ne))
    ensures BinOf(98) == Some((W64, LtS)) && BinOf(99) == Some((W64, LtU)) && BinOf(100) == Some((W64, GtS))
    ensures BinOf(101) == Some((W64, GtU)) && BinOf(102) == Some((W64, LeS)) && BinOf(103) == Some((W64, LeU))
    ensures BinOf(104) == Some((W64, GeS)) && BinOf(105) == Some((W64, GeU))
    ensures ZeroTest(55) == Some(W32) && ZeroTest(95) == Some(W64)
    ensures forall op: Byte ::
      !(35 <= op < 48 || 56 <= op < 66 || 74 <= op < 87 || 96 <= op < 106) ==> BinOf(op) == None
    ensures forall op: Byte :: op != 55 && op != 95 ==> ZeroTest(op) == None
  {
  }

  /** The number a constant instruction pushes. */
  function ConstOf(core: seq<Byte>): Option<(Precision, int)> {
    if |core| == 5 && core[0] == I32_CONST then Some((W32, Signed(W32, Codec.Read(core[1..]))))
    else if |core| == 9 && core[0] == I64_CONST then Some((W64, Signed(W64, Codec.Read(core[1..]))))
    else None
  }

  function Push(st: State, v: int): State {
    State(st.stack + [v], st.locals, st.world)
  }

  ghost predicate LoadAt(sem: Semantics, pool: seq<int>, vals: Values, core: seq<Byte>, st: State)
    requires core != []
  {
    && (ConstOf(core).Some? ==> sem(core, st) == Next(Push(st, vals.num(ConstOf(core).value.0, ConstOf(core).value.1))))
    && (core[0] == CONST_GET && |core| == 3 && Codec.Read(core[1..]) < |pool| ==>
       sem(core, st) == Next(Push(st, pool[Codec.Read(core[1..])])))
  }

  /** The outcome of pushing a result, a 32-bit number with tag t. */
  ghost predicate Gives(o: Outcome, vals: Values, st: State, w: Precision, t: int, r: Result) {
    match r
    case Num(v) => o == Next(Push(st, Form(vals, w, v, t)))
    case Bool(b) => o == Next(Push(st, vals.flag(b)))
    case Trap => o.Raise?
  }

  /** How an operand of value a stands on the stack, with tag t when it has 32 bits. */
  function Form(vals: Values, w: Precision, a: int, t: int): int {
    if w == W32 then vals.word(t, a) else vals.long(a)
  }

  ghost predicate BinAt(sem: Semantics, vals: Values, op: Byte, st: State, a: int, b: int, s: int, t: int) {
    BinOf(op).Some? && IsTag(s) && IsTag(t) ==>
      var (w, o) := BinOf(op).value;
      IsSigned(w, a) && IsSigned(w, b) ==>
        Gives(sem([op], Push(Push(st, Form(vals, w, a, s)), Form(vals, w, b, t))), vals, st, w, TagOf(o, s, t),
              Apply(w, o, a, b))
  }

  ghost predicate UnAt(sem: Semantics, vals: Values, op: Byte, st: State, a: int, t: int) {
    && (ZeroTest(op).Some? && IsSigned(ZeroTest(op).value, a) && IsTag(t) ==>
          sem([op], Push(st, Form(vals, ZeroTest(op).value, a, t))) == Next(Push(st, vals.flag(a == 0))))
    && (op == I64_TO_I32 && IsSigned(W64, a) ==>
          sem([op], Push(st, vals.num(W64, a))) == Next(Push(st, vals.num(W32, Signed(W32, a)))))
  }

  /** The machine reads the integer opcodes as the passes do. */
  ghost predicate Reads(sem: Semantics, pool: seq<int>, vals: Values) {
    && Sensible(sem)
    && (forall core, st :: core != [] ==> LoadAt(sem, pool, vals, core, st))
    && (forall op, st, a, b, s, t :: BinAt(sem, vals, op, st, a, b, s, t))
    && (forall op, st, a, t :: UnAt(sem, vals, op, st, a, t))
  }

  /** The instruction that pushes a number. */
  function NumConst(w: Precision, v: int): seq<Byte> {
    if w == W32 then [I32_CONST] + Codec.Bytes(Wrap(W32, v), 4) else [I64_CONST] + Codec.Bytes(Wrap(W64, v), 8)
  }

  /** A number's instruction reads back as the number. */
  lemma NumConstReads(w: Precision, v: int)
    requires IsSigned(w, v)
    ensures ConstOf(NumConst(w, v)) == Some((w, v))
  {
    hide Signed, Wrap, Codec.Read, Codec.Bytes;
    var core := NumConst(w, v);
    var n: nat := if w == W32 then 4 else 8;
    WrapFacts(w, v);
    assert core[1..] == Codec.Bytes(Wrap(w, v), n);
    Codec.ReadsBack(Wrap(w, v), n);
    assert 8 * n == Bits(w);
    LowAll(w, Wrap(w, v));
  }

  lemma ConstFits(core: seq<Byte>)
    ensures ConstOf(core).Some? ==> IsSigned(ConstOf(core).value.0, ConstOf(core).value.1)
  {
    hide Signed, IsSigned, Codec.Read;
    if ConstOf(core).Some? {
      SignedFits(W32, Codec.Read(core[1..]));
      SignedFits(W64, Codec.Read(core[1..]));
    }
  }

  /** A machine that does nothing else. */
  function Spared(pool: seq<int>, core: seq<Byte>, st: State): Outcome {
    var n := |st.stack|;
    if core == [] then Raise(st)
    else if core == [NOP] then Next(st)
    else if ConstOf(core).Some? then Next(Push(st, Number(ConstOf(core).value.0, ConstOf(core).value.1)))
    else if core[0] == CONST_GET && |core| == 3 && Codec.Read(core[1..]) < |pool|
        then Next(Push(st, pool[Codec.Read(core[1..])]))
    else if BinOf(core[0]).Some? && n >= 2
        then Binary(BinOf(core[0]).value.0, BinOf(core[0]).value.1, st, st.stack[n - 2], st.stack[n - 1])
    else if ZeroTest(core[0]).Some? && n >= 1 then Next(Push(Popped(st, 1), Truth(st.stack[n - 1] / 8 == 0)))
    else if core[0] == I64_TO_I32 && n >= 1
        then Next(Push(Popped(st, 1), Number(W32, Signed(W32, st.stack[n - 1] / 8))))
    else Raise(st)
  }

  function Spare(pool: seq<int>): Semantics {
    (core: seq<Byte>, st: State) => Spared(pool, core, st)
  }

  function Popped(st: State, n: nat): State
    requires n <= |st.stack|
  {
    State(st.stack[..|st.stack| - n], st.locals, st.world)
  }

  function Binary(w: Precision, op: Op, st: State, x: int, y: int): Outcome
    requires |st.stack| >= 2
  {
    match Apply(w, op, x / 8, y / 8)
    case Num(v) => Next(Push(Popped(st, 2), if w == W32 then Word(TagOf(op, x % 8, y % 8), v) else Long(v)))
    case Bool(t) => Next(Push(Popped(st, 2), Truth(t)))
    case Trap => Raise(st)
  }

  function Word(t: int, v: int): int {
    8 * v + t
  }

  function Long(v: int): int {
    8 * v
  }

  function Number(w: Precision, v: int): int {
    if w == W32 then Word(I32_TAG, v) else Long(v)
  }

  function Truth(b: bool): int {
    Word(I1_TAG, if b then 1 else 0)
  }

  function Spares(): Values {
    Values((t, v) => Word(t, v), v => Long(v))
  }

  /** No two words with different tags are one, and none is a 64-bit integer. */
  ghost predicate Distinct(vals: Values) {
    && (forall s, t, v, v' :: IsTag(s) && IsTag(t) && vals.word(s, v) == vals.word(t, v') ==> s == t)
    && (forall t, v, v' :: IsTag(t) ==> vals.word(t, v) != vals.long(v'))
  }

  /** Some machine reads the integer opcodes so, and tells the tags and the widths apart. */
  lemma SomeReading(pool: seq<int>) returns (sem: Semantics, vals: Values)
    ensures Reads(sem, pool, vals) && Distinct(vals)
  {
    hide LoadAt, BinAt, UnAt, Spared;
    sem, vals := Spare(pool), Spares();
    SpareSensible(pool);
    forall core: seq<Byte>, st: State | core != []
      ensures LoadAt(sem, pool, vals, core, st)
    {
      SpareLoads(pool, core, st);
    }
    forall op: Byte, st: State, a: int, b: int, s: int, t: int
      ensures BinAt(sem, vals, op, st, a, b, s, t)
    {
      SpareComputes(pool, op, st, a, b, s, t);
    }
    forall op: Byte, st: State, a: int, t: int
      ensures UnAt(sem, vals, op, st, a, t)
    {
      SpareComputes(pool, op, st, a, 0, t, I32_TAG);
    }
  }

  lemma SpareSensible(pool: seq<int>)
    ensures Sensible(Spare(pool))
  {
    hide Apply, Codec.Read, Signed, BinOf;
    forall core, st | core != [] && Spared(pool, core, st).Next?
      ensures !Terminator(core[0]) && core[0] != BR && core[0] != BR_TABLE
    {
      Familiar(core[0]);
    }
  }

  lemma Familiar(op: Byte)
    ensures BinOf(op).Some? || ZeroTest(op).Some? || op == I64_TO_I32 || op == CONST_GET ==>
      !Terminator(op) && op != BR && op != BR_TABLE
  {
  }

  lemma SpareLoads(pool: seq<int>, core: seq<Byte>, st: State)
    requires core != []
    ensures LoadAt(Spare(pool), pool, Spares(), core, st)
  {
    hide Codec.Read, Signed, Apply, BinOf;
  }

  lemma SpareComputes(pool: seq<int>, op: Byte, st: State, a: int, b: int, s: int, t: int)
    ensures BinAt(Spare(pool), Spares(), op, st, a, b, s, t) && UnAt(Spare(pool), Spares(), op, st, a, s)
  {
    hide Apply, Codec.Read, Signed, IsSigned, BinOf, Form, TagOf;
    OneByte(op);
    if IsTag(s) {
      forall w
        ensures Form(Spares(), w, a, s) / 8 == a && Form(Spares(), w, a, I32_TAG) / 8 == a
        ensures w == W32 ==> Form(Spares(), w, a, s) % 8 == s
      {
        FormReads(w, a, s);
        FormReads(w, a, I32_TAG);
      }
    }
    if IsTag(t) {
      forall w
        ensures Form(Spares(), w, b, t) / 8 == b && (w == W32 ==> Form(Spares(), w, b, t) % 8 == t)
      {
        FormReads(w, b, t);
      }
    }
    forall w, v, k
      ensures Form(Spares(), w, v, k) == if w == W32 then Word(k, v) else Long(v)
    {
      FormIs(w, v, k);
    }
    forall x, y
      ensures Popped(Push(Push(st, x), y), 2) == st && Popped(Push(st, x), 1) == st
    {
      PushPop(st, x, y);
    }
  }

  lemma FormReads(w: Precision, a: int, t: int)
    requires IsTag(t)
    ensures Form(Spares(), w, a, t) / 8 == a && (w == W32 ==> Form(Spares(), w, a, t) % 8 == t)
  {
  }

  lemma FormIs(w: Precision, v: int, t: int)
    ensures Form(Spares(), w, v, t) == if w == W32 then Word(t, v) else Long(v)
  {
  }

  lemma PushPop(st: State, x: int, y: int)
    ensures Popped(Push(Push(st, x), y), 2) == st && Popped(Push(st, x), 1) == st
  {
    assert (st.stack + [x] + [y])[..|st.stack|] == st.stack && (st.stack + [x])[..|st.stack|] == st.stack;
  }

  lemma OneByte(op: Byte)
    ensures ConstOf([op]).None?
    ensures BinOf(op).Some? || ZeroTest(op).Some? || op == I64_TO_I32 ==> op != NOP && op != CONST_GET
    ensures ZeroTest(op).Some? || op == I64_TO_I32 ==> BinOf(op).None?
    ensures op == I64_TO_I32 ==> ZeroTest(op).None?
  {
  }
}
