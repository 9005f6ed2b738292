/** When strength reduction preserves results, and what it does to a truth value. */
module AlgebraRuns {
  import opened Bytecode
  import opened Integers
  import opened IntCode
  import opened Compaction
  import opened Edits
  import opened EditRuns
  import opened InPlace
  import opened Algebra
  import Blocks
  import Codec
  import Checker
  import Dataflow
  import Stacks
  import Verifier
  import Verify
  import VerifyLimits

  function TopOf(st: State): int
    requires st.stack != []
  {
    st.stack[|st.stack| - 1]
  }

  /** x is an integer of the width, with tag t when it has 32 bits. */
  ghost predicate Operand(vals: Values, w: Precision, x: int, v: int, t: int) {
    IsSigned(w, v) && IsTag(t) && x == Form(vals, w, v, t)
  }

  /** The operation leaves a left operand with tag t what it is when the right one changes nothing: it has 64 bits, it
      is an i32, or the operation is or or exclusive or. */
  predicate Keeps(w: Precision, op: Byte, t: int) {
    w == W64 || t == I32_TAG || (BinOf(op).Some? && BinOf(op).value.1 in {Or, Xor})
  }

  /** The left operand of the window is on the stack, one that the operation keeps if the window is dropped. */
  ghost predicate LeftOk(vals: Values, w: Precision, op: Byte, ch: Change, st: State) {
    st.stack != [] && exists v, t :: (ch.Drop? ==> Keeps(w, op, t)) && Operand(vals, w, TopOf(st), v, t)
  }

  /** inv puts a left operand under every window. */
  ghost predicate LeftUnder(vals: Values, code: seq<Byte>, s: seq<int>, inv: Invariant) {
    forall k, w, c, ch, st ::
      WindowAt(code, s, k, w, c, ch) && inv(s[k], st) ==> LeftOk(vals, w, code[s[k + 1]], ch, st)
  }

  lemma {:induction false} FlowNops(sem: Semantics, text: seq<Byte>, at: nat, st: State)
    requires Sensible(sem) && at <= |text| && forall i :: 0 <= i < |text| ==> text[i] == NOP
    ensures Flow(sem, text, at, |text|, st) == Next(st)
    decreases |text| - at
  {
    if at < |text| {
      assert text[at..at + 1] == [NOP];
      FlowNops(sem, text, at + 1, st);
    }
  }

  /** A constant and an operation after it, run one after the other. */
  lemma FlowPair(sem: Semantics, pool: seq<int>, vals: Values, code: seq<Byte>, ip: int, w: Precision, c: int,
                 st: State)
    requires IntCode.Reads(sem, pool, vals) && 0 <= ip < |code| && ip + Width(code, ip) < |code|
    requires ConstOf(Core(code, ip)) == Some((w, c))
    requires var p := ip + Width(code, ip); Width(code, p) == 1 && Core(code, p) == [code[p]]
    ensures var p := ip + Width(code, ip);
            Flow(sem, code, ip, p + 1, st) ==
            match sem([code[p]], Push(st, vals.num(w, c))) case Next(a) => Next(a) case other => other
  {
    hide IntCode.Reads, ConstOf, Core, Width, BinAt, UnAt;
    WidthIs(code, ip);
    Constants(sem, pool, vals, Core(code, ip), st);
    var p := ip + Width(code, ip);
    FlowStep(sem, code, ip, p + 1, st);
    FlowStep(sem, code, p, p + 1, Push(st, vals.num(w, c)));
    if sem([code[p]], Push(st, vals.num(w, c))).Next? {
      FlowDone(sem, code, p + 1, sem([code[p]], Push(st, vals.num(w, c))).state);
    }
  }

  lemma WidthIs(code: seq<Byte>, ip: int)
    requires 0 <= ip < |code|
    ensures Width(code, ip) > 0 && Core(code, ip) != []
  {
  }

  lemma FlowStep(sem: Semantics, code: seq<Byte>, at: int, to: int, st: State)
    requires 0 <= at < |code| && at < to
    ensures Flow(sem, code, at, to, st) ==
            match sem(Core(code, at), st) case Next(a) => Flow(sem, code, at + Width(code, at), to,
                a) case other => other
  {
  }

  lemma FlowDone(sem: Semantics, code: seq<Byte>, at: int, st: State)
    ensures Flow(sem, code, at, at, st) == Next(st)
  {
  }

  lemma Constants(sem: Semantics, pool: seq<int>, vals: Values, core: seq<Byte>, st: State)
    requires IntCode.Reads(sem, pool, vals) && core != [] && ConstOf(core).Some?
    ensures sem(core, st) == Next(Push(st, vals.num(ConstOf(core).value.0, ConstOf(core).value.1)))
  {
    hide ConstOf, BinAt, UnAt;
    assert LoadAt(sem, pool, vals, core, st);
  }

  lemma Operations(sem: Semantics, pool: seq<int>, vals: Values, op: Byte, st: State, a: int, b: int, t: int)
    requires IntCode.Reads(sem, pool, vals) && BinOf(op).Some? && IsSigned(BinOf(op).value.0, a)
    requires IsSigned(BinOf(op).value.0, b) && IsTag(t)
    ensures var (w, o) := BinOf(op).value;
            Gives(sem([op], Push(Push(st, Form(vals, w, a, t)), vals.num(w, b))), vals, st, w, TagOf(o, t, I32_TAG),
                  Apply(w, o, a, b))
  {
    hide BinOf, Apply, LoadAt, UnAt, Gives, IsSigned;
    assert BinAt(sem, vals, op, st, a, b, t, I32_TAG);
    NumForm(vals, BinOf(op).value.0, b);
  }

  lemma PushBack(st: State)
    requires st.stack != []
    ensures Push(State(st.stack[..|st.stack| - 1], st.locals, st.world), TopOf(st)) == st
  {
  }

  /** What the window does to a left operand: the operation's result in its place. */
  lemma WindowDoes(sem: Semantics, pool: seq<int>, vals: Values, code: seq<Byte>, s: seq<int>, k: int, w: Precision,
                   c: int, ch: Change, st: State, v: int, t: int)
    requires Layout(code, s) && IntCode.Reads(sem, pool, vals) && WindowAt(code, s, k, w, c, ch)
    requires st.stack != [] && Operand(vals, w, TopOf(st), v, t)
    ensures 0 <= k < |s| - 2 && 0 <= s[k + 1] < |code| && BinOf(code[s[k + 1]]).Some? && IsSigned(w, c)
    ensures Reduction(w, c, code[s[k + 1]]) == Some(ch)
    ensures var o := BinOf(code[s[k + 1]]).value.1;
            var r := Apply(w, o, v, c);
            r.Num? && Flow(sem, code, s[k], s[k + 2], st) ==
                      Next(Push(State(st.stack[..|st.stack| - 1], st.locals, st.world),
                                Form(vals, w, r.v, TagOf(o, t, I32_TAG))))
  {
    hide IntCode.Reads, ConstOf, Core, Width, Reduction, BinOf, Apply, Form, IsSigned, Layout, TagOf;
    var rest, op := State(st.stack[..|st.stack| - 1], st.locals, st.world), code[s[k + 1]];
    LayoutNext(code, s, k);
    LayoutNext(code, s, k + 1);
    WindowPlain(code, s, k, w, c, ch);
    OneByteOp(code, s[k + 1]);
    ConstFits(Core(code, s[k]));
    ReductionSound(w, c, op, v);
    FlowPair(sem, pool, vals, code, s[k], w, c, st);
    PushBack(st);
    Operations(sem, pool, vals, op, rest, v, c, t);
  }

  /** What the text does. */
  lemma TextDoes(sem: Semantics, pool: seq<int>, vals: Values, w: Precision, n: nat, op: Byte, st: State, v: int,
                 t: int)
    requires IntCode.Reads(sem, pool, vals) && st.stack != [] && Operand(vals, w, TopOf(st), v, t)
    requires IsSigned(w, n) && BinOf(op).Some? && BinOf(op).value.0 == w && Apply(w, BinOf(op).value.1, v, n).Num?
    ensures var text := Text(w, Shift(n, op));
            Flow(sem, text, 0, |text|, st) == Next(Push(State(st.stack[..|st.stack| - 1], st.locals, st.world),
                                                        Form(vals, w, Apply(w, BinOf(op).value.1, v, n).v,
                                                             TagOf(BinOf(op).value.1, t, I32_TAG))))
  {
    hide IntCode.Reads, ConstOf, BinOf, Apply, Form, IsSigned, NumConst, Text, Core, Width, Flow, Layout, Straight,
         TagOf;
    var rest, text := State(st.stack[..|st.stack| - 1], st.locals, st.world), Text(w, Shift(n, op));
    TextLayout(w, n, op);
    NumConstReads(w, n);
    OneByteOp(text, |text| - 1);
    FlowPair(sem, pool, vals, text, 0, w, n, st);
    PushBack(st);
    Operations(sem, pool, vals, op, rest, v, n, t);
  }

  lemma TextLayout(w: Precision, n: nat, op: Byte)
    requires BinOf(op).Some?
    ensures var text, m := Text(w, Shift(n, op)), if w == W32 then 5 else 9;
            && |text| == m + 1 && text[m] == op && Width(text, 0) == m && Core(text, 0) == NumConst(w, n)
            && !IsBranch(text[0])
            && Layout(text, [0, m, m + 1]) && Straight(text, [0, m, m + 1])
  {
    hide Wrap, Codec.Bytes, BinOf;
    var text, m := Text(w, Shift(n, op)), if w == W32 then 5 else 9;
    assert text[..m] == NumConst(w, n);
    OneByteOp(text, m);
  }

  lemma DropLayout(w: Precision)
    ensures var text := Text(w, Drop); Layout(text, seq(|text| + 1, i => i)) && Straight(text, seq(|text| + 1, i => i))
  {
  }

  /** Exactly when dropping a window is right: when the operation keeps the left operand what it is. */
  lemma DropIff(sem: Semantics, pool: seq<int>, vals: Values, code: seq<Byte>, s: seq<int>, k: int, w: Precision,
                c: int, st: State, v: int, t: int)
    requires Layout(code, s) && IntCode.Reads(sem, pool, vals) && WindowAt(code, s, k, w, c, Drop)
    requires st.stack != [] && Operand(vals, w, TopOf(st), v, t) && Distinct(vals)
    ensures var text := Text(w, Drop);
            Flow(sem, text, 0, |text|, st) == Flow(sem, code, s[k], s[k + 2], st) <==> Keeps(w, code[s[k + 1]], t)
  {
    hide IntCode.Reads, ConstOf, Core, Width, Reduction, BinOf, Apply, IsSigned, Layout, WindowAt, Form, TagOf, Keeps,
         Distinct;
    WindowDoes(sem, pool, vals, code, s, k, w, c, Drop, st, v, t);
    ReductionSound(w, c, code[s[k + 1]], v);
    ReadsSensibly(sem, pool, vals);
    FlowNops(sem, Text(w, Drop), 0, st);
    PushBack(st);
    var rest, x := State(st.stack[..|st.stack| - 1], st.locals, st.world),
      Form(vals, w, v, TagOf(BinOf(code[s[k + 1]]).value.1, t, I32_TAG));
    assert Push(rest, x).stack[|rest.stack|] == x;
    KeepsIff(vals, w, code[s[k + 1]], v, t);
  }

  lemma KeepsIff(vals: Values, w: Precision, op: Byte, v: int, t: int)
    requires BinOf(op).Some? && IsTag(t)
    ensures Keeps(w, op, t) ==> Form(vals, w, v, TagOf(BinOf(op).value.1, t, I32_TAG)) == Form(vals, w, v, t)
    ensures Distinct(vals) && !Keeps(w, op, t) ==>
              Form(vals, w, v, TagOf(BinOf(op).value.1, t, I32_TAG)) != Form(vals, w, v, t)
  {
    hide BinOf;
  }

  lemma ReadsSensibly(sem: Semantics, pool: seq<int>, vals: Values)
    requires IntCode.Reads(sem, pool, vals)
    ensures Sensible(sem)
  {
    hide LoadAt, BinAt, UnAt, Sensible;
  }

  lemma WindowInside(code: seq<Byte>, s: seq<int>, k: int, w: Precision, c: int, ch: Change)
    requires WindowAt(code, s, k, w, c, ch)
    ensures 0 <= k < |s| - 2 && 0 <= s[k + 1] < |code|
  {
  }

  /** A reduction does what the window does to a left operand. */
  lemma ReducesRight(sem: Semantics, pool: seq<int>, vals: Values, code: seq<Byte>, s: seq<int>, es: seq<Edit>, i: int,
                     k: int, w: Precision, c: int, ch: Change, st: State)
    requires Layout(code, s) && IntCode.Reads(sem, pool, vals) && 0 <= i < |es|
    requires ReducesAt(code, s, es[i], k, w, c, ch) && LeftOk(vals, w, code[s[k + 1]], ch, st)
    ensures Interchanges(sem, code, es, i, st)
  {
    hide IntCode.Reads, ConstOf, Core, Width, Reduction, BinOf, Apply, IsSigned, Layout, WindowAt, Form, Text, TagOf,
         Keeps;
    WindowInside(code, s, k, w, c, ch);
    var v, t :| (ch.Drop? ==> Keeps(w, code[s[k + 1]], t)) && Operand(vals, w, TopOf(st), v, t);
    WindowDoes(sem, pool, vals, code, s, k, w, c, ch, st, v, t);
    ReductionSound(w, c, code[s[k + 1]], v);
    match ch
    case Drop =>
      KeepsIff(vals, w, code[s[k + 1]], v, t);
      DroppedFlow(sem, pool, vals, w, st);
      PushBack(st);
    case Shift(n, op) =>
      TextDoes(sem, pool, vals, w, n, op, st, v, t);
      ShiftTags(w, c, code[s[k + 1]], n, op, t);
  }

  /** A shift makes an i32 of what multiplication and division make an i32 of. */
  lemma ShiftTags(w: Precision, c: int, op: Byte, n: nat, op': Byte, t: int)
    requires Reduction(w, c, op) == Some(Shift(n, op'))
    ensures BinOf(op).Some? && BinOf(op').Some?
    ensures TagOf(BinOf(op).value.1, t, I32_TAG) == TagOf(BinOf(op').value.1, t, I32_TAG)
  {
    hide Wrap, Log2;
  }

  lemma NumForm(vals: Values, w: Precision, v: int)
    ensures Form(vals, w, v, I32_TAG) == vals.num(w, v)
  {
  }

  lemma DroppedFlow(sem: Semantics, pool: seq<int>, vals: Values, w: Precision, st: State)
    requires IntCode.Reads(sem, pool, vals)
    ensures Flow(sem, Text(w, Drop), 0, |Text(w, Drop)|, st) == Next(st)
  {
    hide IntCode.Reads;
    ReadsSensibly(sem, pool, vals);
    FlowNops(sem, Text(w, Drop), 0, st);
  }

  function Starts(e: Edit): seq<int> {
    if |e.bytes| > 0 && e.bytes[0] != NOP then [0, |e.bytes| - 1, |e.bytes|] else seq(|e.bytes| + 1, i => i)
  }

  lemma ReducedTexts(code: seq<Byte>, s: seq<int>, es: seq<Edit>)
    requires forall i :: 0 <= i < |es| ==> Reduces(code, s, es[i])
    ensures StraightTexts(es, seq(|es|, i requires 0 <= i < |es| => Starts(es[i])))
  {
    hide Layout, Straight, ReducesAt, Starts;
    forall i | 0 <= i < |es|
      ensures Layout(es[i].bytes, Starts(es[i])) && Straight(es[i].bytes, Starts(es[i]))
    {
      var k, w, c, ch :| ReducesAt(code, s, es[i], k, w, c, ch);
      ReducedText(code, s, es[i], k, w, c, ch);
    }
  }

  lemma ReducedText(code: seq<Byte>, s: seq<int>, e: Edit, k: int, w: Precision, c: int, ch: Change)
    requires ReducesAt(code, s, e, k, w, c, ch)
    ensures Layout(e.bytes, Starts(e)) && Straight(e.bytes, Starts(e))
  {
    hide Layout, Straight, ConstOf, Core, Codec.Bytes, Wrap, Apply, Log2;
    match ch
    case Drop => DropLayout(w);
    case Shift(n, op) =>
      WindowPlain(code, s, k, w, c, ch);
      ShiftIsOp(w, c, code[s[k + 1]], n, op);
      TextLayout(w, n, op);
  }

  lemma ShiftIsOp(w: Precision, c: int, op: Byte, n: nat, op': Byte)
    requires Reduction(w, c, op) == Some(Shift(n, op'))
    ensures BinOf(op').Some?
  {
    hide Wrap, Log2;
  }

  /** Reduced code ends as the original does, wherever an invariant of the original puts an integer under every window,
      and under every window that is dropped one that its operation keeps. */
  lemma ReducedEndsSame(sem: Semantics, land: Land, pool: seq<int>, vals: Values, code: seq<Byte>, hs: seq<Handler>,
                        s: seq<int>, blocks: seq<Blocks.Block>, es: seq<Edit>, out: seq<Byte>, inv: Invariant,
                        st: State)
    requires Layout(code, s) && Blocks.Targeted(code, hs, s) && Blocks.InRange(code, s, |s| - 1)
    requires Blocks.IsCfg(code, hs, s, blocks)
    requires IntCode.Reads(sem, pool, vals) && Reduced(code, s, blocks, es, out)
    requires Invariably(sem, land, code, hs, s, inv) && inv(0, st) && LeftUnder(vals, code, s, inv)
    ensures SameEnds(sem, land, hs, code, out, st)
  {
    hide Layout, Blocks.Targeted, Blocks.InRange, Blocks.IsCfg, IntCode.Reads, Invariably, Overwritten, AllInBlocks,
         Apart, SameLength, TakenTo, Reduces, LeftUnder, SameEnds, StraightTexts, ClearTargets, EditsAligned, Sensible,
         ReducesAt, Interchanges, Starts;
    ReadsSensibly(sem, pool, vals);
    ClearInBlocks(code, hs, s, blocks, es);
    ReducedTexts(code, s, es);
    forall i, a | 0 <= i < |es| && inv(es[i].start, a)
      ensures Interchanges(sem, code, es, i, a)
    {
      assert Reduces(code, s, es[i]);
      ReducedAt(sem, pool, vals, code, s, es, i, inv, a);
    }
    InPlaceEnds(sem, land, code, hs, es, s, seq(|es|, i requires 0 <= i < |es| => Starts(es[i])), inv, out, st);
  }

  lemma ReducedAt(sem: Semantics, pool: seq<int>, vals: Values, code: seq<Byte>, s: seq<int>, es: seq<Edit>, i: int,
                  inv: Invariant, st: State)
    requires Layout(code, s) && IntCode.Reads(sem, pool, vals) && 0 <= i < |es| && Reduces(code, s, es[i])
    requires LeftUnder(vals, code, s, inv)
    requires inv(es[i].start, st)
    ensures Interchanges(sem, code, es, i, st)
  {
    hide Layout, IntCode.Reads, WindowAt, LeftOk, Interchanges;
    var k, w, c, ch :| ReducesAt(code, s, es[i], k, w, c, ch);
    assert WindowAt(code, s, k, w, c, ch) by { WindowOf(code, s, es[i], k, w, c, ch); }
    ReducesRight(sem, pool, vals, code, s, es, i, k, w, c, ch, st);
  }

  lemma WindowOf(code: seq<Byte>, s: seq<int>, e: Edit, k: int, w: Precision, c: int, ch: Change)
    requires ReducesAt(code, s, e, k, w, c, ch)
    ensures WindowAt(code, s, k, w, c, ch) && 0 <= k < |s| - 2 && e.start == s[k]
  {
  }

  /** Tests 1 for zero and adds 0 to the truth value. */
  const TRUTH: seq<Byte> := [34, 1, 0, 0, 0, 55, 34, 0, 0, 0, 0, 35]

  const REDUCED: seq<Byte> := [34, 1, 0, 0, 0, 55, 0, 0, 0, 0, 0, 0]

  ghost const TRUTH_STARTS: seq<int> := [0, 5, 6, 11, 12]

  lemma TruthReads()
    ensures Width(TRUTH, 0) == 5 && Width(TRUTH, 5) == 1 && Width(TRUTH, 6) == 5 && Width(TRUTH, 11) == 1
    ensures Core(TRUTH, 0) == [34, 1, 0, 0, 0] && Core(TRUTH, 5) == [55] && Core(TRUTH, 6) == [34, 0, 0, 0, 0]
    ensures Core(TRUTH, 11) == [35]
    ensures Layout(TRUTH, TRUTH_STARTS)
  {
  }

  lemma TruthConstants()
    ensures ConstOf([34, 1, 0, 0, 0]) == Some((W32, 1)) && ConstOf([34, 0, 0, 0, 0]) == Some((W32, 0))
    ensures BinOf(35) == Some((W32, Add)) && ZeroTest(55) == Some(W32) && Reduction(W32, 0, 35) == Some(Drop)
    ensures Apply(W32, Add, 0, 0) == Num(0)
  {
    hide Log2;
    assert Codec.Read([1, 0, 0, 0]) == 1 && Codec.Read([0, 0, 0, 0]) == 0;
  }

  lemma TruthWindow()
    ensures WindowAt(TRUTH, TRUTH_STARTS, 2, W32, 0, Drop)
    ensures ReducesAt(TRUTH, TRUTH_STARTS, Edit(6, 12, Text(W32, Drop)), 2, W32, 0, Drop)
    ensures Overwritten(TRUTH, [Edit(6, 12, Text(W32, Drop))], REDUCED)
  {
    hide Reduction, ConstOf, Core, Width;
    TruthReads();
    TruthConstants();
    var e := Edit(6, 12, Text(W32, Drop));
    assert REDUCED[6..12] == Text(W32, Drop);
    assert WrittenAt(e, REDUCED);
    forall x | 0 <= x < 12 && !Inside([e], 1, x)
      ensures REDUCED[x] == TRUTH[x]
    {
      assert [e][0] == e;
    }
  }

  /** Dropping the addition of 0 to a truth value leaves a truth value where the operation leaves a number: on every
      machine that tells the two apart, the two bodies end with different stacks. */
  lemma DropChangesKind(sem: Semantics, land: Land, pool: seq<int>, vals: Values, locals: seq<int>, world: int)
    requires IntCode.Reads(sem, pool, vals) && Distinct(vals)
    ensures var st := State([], locals, world);
            && Run(sem, land, TRUTH, [], Config.At(0, st), 4) == Config.At(12, Push(st, vals.num(W32, 0)))
            && Run(sem, land, REDUCED, [], Config.At(0, st), 8) == Config.At(12, Push(st, vals.flag(false)))
            && !SameEnds(sem, land, [], TRUTH, REDUCED, st)
  {
    hide IntCode.Reads, SameEnds, Core, Width, ConstOf, BinOf, ZeroTest, Apply, Step;
    var st := State([], locals, world);
    TruthEnds(sem, land, pool, vals, st);
    ReducedEnds(sem, land, pool, vals, st);
    assert Push(st, vals.num(W32, 0)).stack[0] == vals.num(W32, 0) &&
        Push(st, vals.flag(false)).stack[0] == vals.flag(false);
    Differ(sem, land, TRUTH, REDUCED, 4, 8, st, Push(st, vals.num(W32, 0)), Push(st, vals.flag(false)));
  }

  /** Two bodies whose runs reach the end in different states do not end alike. */
  lemma Differ(sem: Semantics, land: Land, a: seq<Byte>, b: seq<Byte>, n: nat, m: nat, st: State, x: State, y: State)
    requires Run(sem, land, a, [], Config.At(0, st), n) == Config.At(|a|, x)
    requires Run(sem, land, b, [], Config.At(0, st), m) == Config.At(|b|, y)
    requires |a| == |b| && x != y
    ensures !SameEnds(sem, land, [], a, b, st)
  {
    hide Run, Step;
    if EndsAs(sem, land, [], b, st, Config.At(|a|, x)) {
      var i: nat :| Run(sem, land, b, [], Config.At(0, st), i) == Config.At(|a|, x);
      if i <= m {
        FinishedStays(sem, land, b, [], Config.At(0, st), i, m);
      } else {
        FinishedStays(sem, land, b, [], Config.At(0, st), m, i);
      }
    }
  }

  lemma RunOn(sem: Semantics, land: Land, code: seq<Byte>, c: Config, n: nat, ip: int, a: State, b: State)
    requires Run(sem, land, code, [], c, n) == Config.At(ip, a) && 0 <= ip < |code| && sem(Core(code, ip), a) == Next(b)
    ensures Run(sem, land, code, [], c, n + 1) == Config.At(ip + Width(code, ip), b)
  {
  }

  lemma TruthEnds(sem: Semantics, land: Land, pool: seq<int>, vals: Values, st: State)
    requires IntCode.Reads(sem, pool, vals)
    ensures Run(sem, land, TRUTH, [], Config.At(0, st), 4) == Config.At(12, Push(st, vals.num(W32, 0)))
  {
    hide IntCode.Reads, Run, Core, Width, ConstOf, BinOf, ZeroTest, Apply;
    TruthReads();
    TruthConstants();
    var c := Config.At(0, st);
    assert Run(sem, land, TRUTH, [], c, 0) == c by { NoSteps(sem, land, TRUTH, [], c); }
    Constants(sem, pool, vals, Core(TRUTH, 0), st);
    RunOn(sem, land, TRUTH, c, 0, 0, st, Push(st, vals.num(W32, 1)));
    Tests(sem, pool, vals, st);
    RunOn(sem, land, TRUTH, c, 1, 5, Push(st, vals.num(W32, 1)), Push(st, vals.flag(false)));
    Constants(sem, pool, vals, Core(TRUTH, 6), Push(st, vals.flag(false)));
    RunOn(sem, land, TRUTH, c, 2, 6, Push(st, vals.flag(false)), Push(Push(st, vals.flag(false)), vals.num(W32, 0)));
    Operations(sem, pool, vals, 35, st, 0, 0, I1_TAG);
    RunOn(sem, land, TRUTH, c, 3, 11, Push(Push(st, vals.flag(false)), vals.num(W32, 0)), Push(st, vals.num(W32, 0)));
  }

  lemma Tests(sem: Semantics, pool: seq<int>, vals: Values, st: State)
    requires IntCode.Reads(sem, pool, vals)
    ensures sem([55], Push(st, vals.num(W32, 1))) == Next(Push(st, vals.flag(false)))
  {
    hide LoadAt, BinAt;
    assert UnAt(sem, vals, 55, st, 1, I32_TAG);
  }

  lemma ReducedReads()
    ensures Width(REDUCED, 0) == 5 && Width(REDUCED, 5) == 1 && Core(REDUCED, 0) == [34, 1, 0, 0, 0]
    ensures Core(REDUCED, 5) == [55]
    ensures forall x :: 6 <= x < 12 ==> Width(REDUCED, x) == 1 && Core(REDUCED, x) == [NOP]
  {
  }

  lemma ReducedEnds(sem: Semantics, land: Land, pool: seq<int>, vals: Values, st: State)
    requires IntCode.Reads(sem, pool, vals)
    ensures Run(sem, land, REDUCED, [], Config.At(0, st), 8) == Config.At(12, Push(st, vals.flag(false)))
  {
    hide IntCode.Reads, Run, Core, Width, ConstOf, BinOf, ZeroTest, Apply;
    ReducedReads();
    TruthConstants();
    var c, a := Config.At(0, st), Push(st, vals.flag(false));
    assert Run(sem, land, REDUCED, [], c, 0) == c by { NoSteps(sem, land, REDUCED, [], c); }
    Constants(sem, pool, vals, Core(REDUCED, 0), st);
    RunOn(sem, land, REDUCED, c, 0, 0, st, Push(st, vals.num(W32, 1)));
    Tests(sem, pool, vals, st);
    RunOn(sem, land, REDUCED, c, 1, 5, Push(st, vals.num(W32, 1)), a);
    Idles(sem, pool, vals, a);
    RunOn(sem, land, REDUCED, c, 2, 6, a, a);
    RunOn(sem, land, REDUCED, c, 3, 7, a, a);
    RunOn(sem, land, REDUCED, c, 4, 8, a, a);
    RunOn(sem, land, REDUCED, c, 5, 9, a, a);
    RunOn(sem, land, REDUCED, c, 6, 10, a, a);
    RunOn(sem, land, REDUCED, c, 7, 11, a, a);
  }

  lemma Idles(sem: Semantics, pool: seq<int>, vals: Values, st: State)
    requires IntCode.Reads(sem, pool, vals)
    ensures sem([NOP], st) == Next(st)
  {
    hide LoadAt, BinAt, UnAt;
    ReadsSensibly(sem, pool, vals);
  }

  ghost const TRUTH_NODES: seq<Checker.Node> := [Checker.Node(0, 12, {})]

  lemma TruthNodes()
    ensures Layout(TRUTH, TRUTH_STARTS) && Checker.IsCfg(TRUTH, [], TRUTH_STARTS, TRUTH_NODES)
  {
    hide Width, Core, Checker.Leader, Checker.Flows;
    TruthReads();
    assert forall x :: Checker.Leader(TRUTH, [], TRUTH_STARTS, x) <==> x == 0 by { TruthLeaders(); }
    assert forall j, i :: !Checker.Flows(TRUTH, [0], j, i) by { TruthFlows(); }
    assert Checker.NodesBy(TRUTH, [], TRUTH_STARTS, TRUTH_NODES, [0]);
  }

  lemma TruthArms()
    ensures Layout(TRUTH, TRUTH_STARTS)
    ensures forall k :: 0 <= k < 4 ==> Arms(TRUTH, TRUTH_STARTS[k]) == 0 && !Checker.Splits(TRUTH[TRUTH_STARTS[k]])
  {
    hide Width, Core;
    TruthReads();
  }

  lemma TruthLeaders()
    ensures Layout(TRUTH, TRUTH_STARTS) && forall x :: Checker.Leader(TRUTH, [], TRUTH_STARTS, x) <==> x == 0
  {
    hide Layout, Arms, Target;
    TruthArms();
    Blocks.SlotsOf(TRUTH, TRUTH_STARTS);
    forall x
      ensures !Checker.Leads(TRUTH, TRUTH_STARTS, 4, x)
    {
    }
  }

  lemma TruthFlows()
    ensures forall j, i :: !Checker.Flows(TRUTH, [0], j, i)
  {
    hide Width, Core, Target;
    TruthReads();
    assert Blocks.Last(TRUTH, 11, 12) == 11;
    assert Blocks.Last(TRUTH, 6, 12) == 11;
    assert Blocks.Last(TRUTH, 5, 12) == 11;
    assert Blocks.Last(TRUTH, 0, 12) == 11;
  }

  lemma TruthSteps(cx: Stacks.Context)
    ensures forall ip :: ip in {0, 5, 6, 11} ==> Stacks.InBounds(cx, TRUTH, ip)
    ensures Stacks.StepOf(cx, TRUTH, 0, []) == Stacks.Continue([Stacks.Slot(Stacks.I32, None)])
    ensures Stacks.StepOf(cx, TRUTH, 5, [Stacks.Slot(Stacks.I32, None)]) ==
      Stacks.Continue([Stacks.Slot(Stacks.I1, None)])
    ensures Stacks.StepOf(cx, TRUTH, 6, [Stacks.Slot(Stacks.I1, None)]) ==
              Stacks.Continue([Stacks.Slot(Stacks.I1, None), Stacks.Slot(Stacks.I32, None)])
    ensures Stacks.StepOf(cx, TRUTH, 11, [Stacks.Slot(Stacks.I1, None), Stacks.Slot(Stacks.I32, None)]) ==
              Stacks.Continue([Stacks.Slot(Stacks.I32, None)])
  {
    hide Stacks.CallEffect, Stacks.AcceptsType, Stacks.Fixed, Stacks.InBounds, Stacks.Popped, Stacks.Operand;
    TruthBounds(cx);
    TruthEffects();
    Verifier.PoppedIs([Stacks.Slot(Stacks.I32, None)], [Stacks.I32]);
    Verifier.PoppedIs([Stacks.Slot(Stacks.I1, None), Stacks.Slot(Stacks.I32, None)], [Stacks.I32, Stacks.I32]);
    TruthPops();
    assert Stacks.Untyped([Stacks.I32]) == [Stacks.Slot(Stacks.I32, None)] &&
        Stacks.Untyped([Stacks.I1]) == [Stacks.Slot(Stacks.I1, None)];
  }

  lemma TruthBounds(cx: Stacks.Context)
    ensures forall ip :: ip in {0, 5, 6, 11} ==> Stacks.InBounds(cx, TRUTH, ip)
  {
    hide Stacks.Operand;
  }

  lemma TruthEffects()
    ensures Stacks.Fixed(34) == Some(Stacks.Effect([], [Stacks.I32]))
    ensures Stacks.Fixed(55) == Some(Stacks.Effect([Stacks.I32], [Stacks.I1]))
    ensures Stacks.Fixed(35) == Some(Stacks.Effect([Stacks.I32, Stacks.I32], [Stacks.I32]))
  {
  }

  lemma TruthPops()
    ensures Stacks.Popped([], []) == Some([])
    ensures Stacks.Popped([Stacks.Slot(Stacks.I1, None)], []) == Some([Stacks.Slot(Stacks.I1, None)])
    ensures Stacks.Popped([Stacks.Slot(Stacks.I32, None)], [Stacks.I32]).Some?
    ensures Stacks.Popped([Stacks.Slot(Stacks.I1, None), Stacks.Slot(Stacks.I32, None)], [Stacks.I32, Stacks.I32]).Some?
  {
    assert Stacks.Dropped([Stacks.Slot(Stacks.I1, None), Stacks.Slot(Stacks.I32, None)], 1) ==
        [Stacks.Slot(Stacks.I1, None)];
    assert [Stacks.I32, Stacks.I32][1..] == [Stacks.I32];
    assert Stacks.Popped([Stacks.Slot(Stacks.I1, None)], [Stacks.I32]).Some?;
  }

  lemma TruthSettles(cx: Stacks.Context)
    ensures Dataflow.PostFixpoint(cx, TRUTH, [], TRUTH_NODES, [Some([])])
  {
    hide Width, Core, Stacks.StepOf, Stacks.InBounds;
    TruthReads();
    TruthSteps(cx);
    var one, two := [Stacks.Slot(Stacks.I32, None)], [Stacks.Slot(Stacks.I1, None), Stacks.Slot(Stacks.I32, None)];
    assert Stacks.ExecOf(cx, TRUTH, 12, 12, one) == Stacks.Continue(one);
    assert Stacks.ExecOf(cx, TRUTH, 11, 12, two) == Stacks.Continue(one);
    assert Stacks.ExecOf(cx, TRUTH, 6, 12, [Stacks.Slot(Stacks.I1, None)]) == Stacks.Continue(one);
    assert Stacks.ExecOf(cx, TRUTH, 5, 12, one) == Stacks.Continue(one);
    assert Stacks.ExecOf(cx, TRUTH, 0, 12, []) == Stacks.Continue(one);
  }

  /** The verifier accepts the body as top-level code: it takes a truth value for an i32. */
  method TruthAccepted(cx: Stacks.Context) returns (r: Verify.Outcome)
    requires cx.top
    ensures r == Verify.Accepted
  {
    hide Width, Core, Arms, Layout, Stacks.InBounds, Checker.IsCfg, Dataflow.PostFixpoint, Stacks.StepOf;
    TruthReads();
    TruthArms();
    TruthNodes();
    TruthSteps(cx);
    TruthSettles(cx);
    r := VerifyLimits.Accepts(cx, TRUTH, TRUTH_STARTS, TRUTH_NODES, [Some([])]);
  }
}
