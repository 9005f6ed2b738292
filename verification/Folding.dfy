/** Constant folding of integer operations, in place: constants and the operation on them become no-ops and one
    constant. */
module Folding {
  import opened Bytecode
  import opened Integers
  import opened IntCode
  import opened Compaction
  import opened Edits
  import opened EditRuns
  import opened InPlace
  import opened Sites
  import opened AlgebraRuns
  import Algebra
  import Blocks
  import Codec

  /** What a window folds to. There is no instruction for a truth value: it is read from the constant pool. */
  datatype Value = Number(w: Precision, v: int) | Truth(b: bool)

  /** An entry of the constant pool. */
  datatype Const = Given(value: int) | Interned(b: bool)

  /** The folded binary operations: the 64-bit bitwise ones are left alone. */
  predicate Folded(w: Precision, op: Op) {
    w == W32 || (op != Xor && op != And && op != Or)
  }

  /** A binary operation on two constants. None when it is not folded, or divides by zero. */
  function FoldTwo(w: Precision, a: int, b: int, op: Byte): Option<Value> {
    match BinOf(op)
    case None => None
    case Some(o) =>
      if o.0 != w || !Folded(w, o.1) then None
      else
        match Apply(w, o.1, a, b)
        case Num(v) => Some(Number(w, v))
        case Bool(t) => Some(Truth(t))
        case Trap => None
  }

  /** A test or conversion of one constant. */
  function FoldOne(w: Precision, a: int, op: Byte): Option<Value> {
    if ZeroTest(op) == Some(w) then Some(Truth(a == 0))
    else if op == I64_TO_I32 && w == W64 then Some(Number(W32, Signed(W32, a)))
    else None
  }

  /** What folds, by opcode: all integer operations on two constants of their width but the 64-bit bitwise ones and
      divisions by zero, the tests for zero, and the narrowing of a 64-bit constant. */
  lemma FoldsIff(w: Precision, a: int, b: int, op: Byte)
    requires IsSigned(w, a) && IsSigned(w, b)
    ensures FoldTwo(w, a, b, op).Some? <==>
              if w == W32 then (35 <= op < 48 || 56 <= op < 66) && !(38 <= op < 42 && b == 0)
              else (74 <= op < 84 || 96 <= op < 106) && !(77 <= op < 81 && b == 0)
    ensures FoldOne(w, a, op).Some? <==> if w == W32 then op == 55 else op == 95 || op == 106
  {
    hide Apply, Signed, BinOf, ZeroTest;
    OpcodesAre();
    if BinOf(op).Some? {
      TrapsIff(w, BinOf(op).value.1, a, b);
    }
  }

  lemma TrapsIff(w: Precision, o: Op, a: int, b: int)
    requires IsSigned(w, a) && IsSigned(w, b)
    ensures Apply(w, o, a, b).Trap? <==> o in {DivS, DivU, RemS, RemU} && b == 0
  {
    hide Signed, Bitwise, Pow2, Quo;
  }

  /** The width of the window at ip that ends by `end`, and what it folds to. */
  function FoldOf(code: seq<Byte>, ip: int, end: int): (r: Option<(int, Value)>)
    requires 0 <= ip < end <= |code|
    ensures r.Some? ==> ip + r.value.0 <= end
  {
    match ConstOf(Core(code, ip))
    case None => None
    case Some(c) =>
      var p := ip + Width(code, ip);
      if p >= end then None
      else
        match ConstOf(Core(code, p))
        case Some(d) =>
          var q := p + Width(code, p);
          if q >= end || d.0 != c.0 then None
          else (match FoldTwo(c.0, c.1, d.1, code[q]) case None => None case Some(v) => Some((q + 1 - ip, v)))
        case None => (match FoldOne(c.0, c.1, code[p]) case None => None case Some(v) => Some((p + 1 - ip, v)))
  }

  /** The instruction that pushes the value; a pool index keeps its low two bytes. */
  function Inst(v: Value, index: nat): seq<Byte> {
    match v
    case Number(w, n) => NumConst(w, n)
    case Truth(_) => [CONST_GET, Low(index), High(index)]
  }

  function ValueOf(vals: Values, v: Value): int {
    match v case Number(w, n) => vals.num(w, n) case Truth(b) => vals.flag(b)
  }

  function PoolOf(vals: Values, pool: seq<Const>): (r: seq<int>)
    ensures |r| == |pool|
  {
    seq(|pool|, i requires 0 <= i < |pool| => match pool[i] case Given(v) => v case Interned(b) => vals.flag(b))
  }

  /** A longer pool reads what a shorter one does. */
  lemma PoolGrows(sem: Semantics, vals: Values, pool: seq<Const>, pool': seq<Const>)
    requires IntCode.Reads(sem, PoolOf(vals, pool'), vals) && pool <= pool'
    ensures IntCode.Reads(sem, PoolOf(vals, pool), vals)
  {
    hide BinAt, UnAt, Sensible, ConstOf, Codec.Read;
    forall core: seq<Byte>, st: State | core != []
      ensures LoadAt(sem, PoolOf(vals, pool), vals, core, st)
    {
      assert LoadAt(sem, PoolOf(vals, pool'), vals, core, st);
    }
  }

  /** Instructions k to m are a window that folds to v: two constants and an operation, or one and a test. */
  ghost predicate WindowAt(code: seq<Byte>, s: seq<int>, k: int, m: int, v: Value) {
    && 0 <= k < m < |s| && (m == k + 2 || m == k + 3) && 0 <= s[k] < s[m] <= |code|
    && (forall q :: k <= q < m ==> 0 <= s[q] < |code|)
    && ConstOf(Core(code, s[k])).Some?
    && var c := ConstOf(Core(code, s[k])).value;
       if m == k + 2 then FoldOne(c.0, c.1, code[s[k + 1]]) == Some(v)
       else
         && ConstOf(Core(code, s[k + 1])).Some?
         && var d := ConstOf(Core(code, s[k + 1])).value;
            d.0 == c.0 && FoldTwo(c.0, c.1, d.1, code[s[k + 2]]) == Some(v)
  }

  lemma OneByte(code: seq<Byte>, ip: int)
    requires 0 <= ip < |code|
    ensures BinOf(code[ip]).Some? || ZeroTest(code[ip]).Some? || code[ip] == I64_TO_I32 ==>
              Width(code, ip) == 1 && Core(code, ip) == [code[ip]] && !IsBranch(code[ip])
  {
  }

  lemma FoldOneOp(w: Precision, a: int, op: Byte)
    requires FoldOne(w, a, op).Some?
    ensures ZeroTest(op).Some? || op == I64_TO_I32
  {
  }

  lemma FoldTwoOp(w: Precision, a: int, b: int, op: Byte)
    requires FoldTwo(w, a, b, op).Some?
    ensures BinOf(op).Some? && BinOf(op).value.0 == w
    ensures match Apply(w, BinOf(op).value.1, a, b)
            case Num(v) => FoldTwo(w, a, b, op) == Some(Number(w, v)) && IsSigned(w, v)
            case Bool(t) => FoldTwo(w, a, b, op) == Some(Truth(t))
            case Trap => false
  {
    hide Apply;
    ApplyFits(w, BinOf(op).value.1, a, b);
  }

  /** What FoldOf finds at instruction k. */
  lemma FoldIsWindow(code: seq<Byte>, s: seq<int>, k: nat, end: int) returns (m: nat)
    requires Layout(code, s) && k < |s| - 1 && 0 <= s[k] < end <= |code| && end in s
    ensures FoldOf(code, s[k], end).Some? ==>
              var r := FoldOf(code, s[k], end).value;
                  k < m < |s| && s[m] == s[k] + r.0 <= end && WindowAt(code, s, k, m, r.1)
    ensures FoldOf(code, s[k], end).None? ==> forall m', v :: WindowAt(code, s, k, m', v) ==> s[m'] > end
  {
    hide ConstOf, Core, FoldOne, FoldTwo, Layout;
    m := k + 1;
    SortedStarts(code, s);
    LayoutNext(code, s, k);
    InstrsInside(code, s);
    LastIsEnd(code, s);
    var c := ConstOf(Core(code, s[k]));
    if c.Some? && s[k + 1] < end {
      LayoutNext(code, s, k + 1);
      Blocks.Ends(code, s, k + 1, end);
      var d := ConstOf(Core(code, s[k + 1]));
      if d.Some? {
        NotOne(code, s[k + 1], c.value.0, c.value.1);
        if s[k + 2] < end {
          LayoutNext(code, s, k + 2);
          Blocks.Ends(code, s, k + 2, end);
          if d.value.0 == c.value.0 && FoldTwo(c.value.0, c.value.1, d.value.1, code[s[k + 2]]).Some? {
            FoldTwoOp(c.value.0, c.value.1, d.value.1, code[s[k + 2]]);
            OneByte(code, s[k + 2]);
            m := k + 3;
          }
        }
      } else if FoldOne(c.value.0, c.value.1, code[s[k + 1]]).Some? {
        FoldOneOp(c.value.0, c.value.1, code[s[k + 1]]);
        OneByte(code, s[k + 1]);
        m := k + 2;
      }
    }
  }

  lemma LastIsEnd(code: seq<Byte>, s: seq<int>)
    requires Layout(code, s)
    ensures |s| > 0 && s[|s| - 1] == |code|
  {
  }

  /** A constant is no test. */
  lemma NotOne(code: seq<Byte>, ip: int, w: Precision, a: int)
    requires 0 <= ip < |code| && ConstOf(Core(code, ip)).Some?
    ensures FoldOne(w, a, code[ip]).None? && !IsBranch(code[ip])
  {
    hide Signed, Codec.Read;
    CoreHead(code, ip);
  }

  /** None of a window's instructions branches, and its value fits. */
  lemma WindowPlain(code: seq<Byte>, s: seq<int>, k: int, m: int, v: Value)
    requires WindowAt(code, s, k, m, v)
    ensures NoBranch(code, s, k, m) && (v.Number? ==> IsSigned(v.w, v.v))
  {
    hide ConstOf, Core, FoldTwo, IsSigned, Apply;
    var c := ConstOf(Core(code, s[k])).value;
    NotOne(code, s[k], c.0, c.1);
    if m == k + 2 {
      FoldOneOp(c.0, c.1, code[s[k + 1]]);
      OneByte(code, s[k + 1]);
      SignedFits(W32, c.1);
    } else {
      NotOne(code, s[k + 1], c.0, c.1);
      var d := ConstOf(Core(code, s[k + 1])).value;
      FoldTwoOp(c.0, c.1, d.1, code[s[k + 2]]);
      OneByte(code, s[k + 2]);
    }
  }

  /** The window pushes the value. */
  lemma WindowPushes(sem: Semantics, pool: seq<int>, vals: Values, code: seq<Byte>, s: seq<int>, k: int, m: int,
                     v: Value, st: State)
    requires Layout(code, s) && IntCode.Reads(sem, pool, vals) && WindowAt(code, s, k, m, v)
    ensures Flow(sem, code, s[k], s[m], st) == Next(Push(st, ValueOf(vals, v)))
  {
    hide IntCode.Reads, ConstOf, Core, Width, FoldOne, FoldTwo, Layout, Flow, Apply, IsSigned;
    var c := ConstOf(Core(code, s[k])).value;
    LayoutNext(code, s, k);
    LayoutNext(code, s, k + 1);
    CoreHead(code, s[k]);
    CoreHead(code, s[k + 1]);
    ConstFits(Core(code, s[k]));
    Constants(sem, pool, vals, Core(code, s[k]), st);
    FlowStep(sem, code, s[k], s[m], st);
    var one := Push(st, vals.num(c.0, c.1));
    if m == k + 2 {
      OnePushes(sem, pool, vals, c.0, c.1, code[s[k + 1]], v, st);
      OneByte(code, s[k + 1]);
      FoldOneOp(c.0, c.1, code[s[k + 1]]);
      FlowStep(sem, code, s[k + 1], s[m], one);
      FlowDone(sem, code, s[m], Push(st, ValueOf(vals, v)));
    } else {
      var d := ConstOf(Core(code, s[k + 1])).value;
      LayoutNext(code, s, k + 2);
      ConstFits(Core(code, s[k + 1]));
      Constants(sem, pool, vals, Core(code, s[k + 1]), one);
      FlowStep(sem, code, s[k + 1], s[m], one);
      FoldTwoOp(c.0, c.1, d.1, code[s[k + 2]]);
      OneByte(code, s[k + 2]);
      TwoPush(sem, pool, vals, c.0, c.1, d.1, code[s[k + 2]], v, st);
      FlowStep(sem, code, s[k + 2], s[m], Push(one, vals.num(d.0, d.1)));
      FlowDone(sem, code, s[m], Push(st, ValueOf(vals, v)));
    }
  }

  lemma OnePushes(sem: Semantics, pool: seq<int>, vals: Values, w: Precision, a: int, op: Byte, v: Value, st: State)
    requires IntCode.Reads(sem, pool, vals) && IsSigned(w, a) && FoldOne(w, a, op) == Some(v)
    ensures sem([op], Push(st, vals.num(w, a))) == Next(Push(st, ValueOf(vals, v)))
  {
    hide LoadAt, BinAt, Signed, IsSigned;
    assert UnAt(sem, vals, op, st, a, I32_TAG);
  }

  lemma TwoPush(sem: Semantics, pool: seq<int>, vals: Values, w: Precision, a: int, b: int, op: Byte, v: Value,
                st: State)
    requires IntCode.Reads(sem, pool, vals) && IsSigned(w, a) && IsSigned(w, b) && FoldTwo(w, a, b, op) == Some(v)
    ensures sem([op], Push(Push(st, vals.num(w, a)), vals.num(w, b))) == Next(Push(st, ValueOf(vals, v)))
  {
    hide IntCode.Reads, Apply, IsSigned, FoldTwo;
    FoldTwoOp(w, a, b, op);
    NumForm(vals, w, a);
    Operations(sem, pool, vals, op, st, a, b, I32_TAG);
  }

  /** The pool entry the instruction reads is the value's. */
  ghost predicate InPool(vals: Values, pool: seq<Const>, v: Value, index: nat) {
    v.Truth? ==> index % 65536 < |pool| && PoolOf(vals, pool)[index % 65536] == vals.flag(v.b)
  }

  lemma InstPlain(v: Value, index: nat)
    ensures Plain(Inst(v, index)) && |Inst(v, index)| <= (if v.Truth? then 3 else if v.w == W32 then 5 else 9)
  {
    hide Codec.Bytes, Wrap;
  }

  lemma IndexReads(index: nat)
    ensures Codec.Read([Low(index), High(index)]) == index % 65536
  {
    ReadTwo(Low(index), High(index));
    LowHigh(index);
  }

  lemma ReadTwo(a: Byte, b: Byte)
    ensures Codec.Read([a, b]) == a + 256 * b
  {
    assert [a, b][1..] == [b] && [b][1..] == [];
    assert Codec.Read([b]) == b + 256 * Codec.Read([]);
  }

  lemma LowHigh(v: nat)
    ensures Low(v) + 256 * High(v) == v % 65536
  {
    DivModUnique(v, 65536, v / 256 / 256, 256 * (v / 256 % 256) + v % 256);
  }

  /** The instruction pushes the value, exactly when the pool entry it reads is the value's. */
  lemma InstPushesIff(sem: Semantics, vals: Values, pool: seq<Const>, v: Value, index: nat, st: State)
    requires IntCode.Reads(sem, PoolOf(vals, pool), vals) && (v.Number? ==> IsSigned(v.w, v.v))
    requires index % 65536 < |pool|
    ensures sem(Inst(v, index), st) == Next(Push(st, ValueOf(vals, v))) <==> InPool(vals, pool, v, index)
  {
    hide BinAt, UnAt, Signed, Codec.Read, NumConst, IsSigned, Low, High;
    var core := Inst(v, index);
    match v
    case Number(w, n) =>
      NumConstReads(w, n);
      InstPlain(v, index);
      assert LoadAt(sem, PoolOf(vals, pool), vals, core, st);
    case Truth(b) =>
      IndexReads(index);
      assert core[1..] == [Low(index), High(index)];
      assert LoadAt(sem, PoolOf(vals, pool), vals, core, st);
      var x := PoolOf(vals, pool)[index % 65536];
      assert Push(st, x).stack[|st.stack|] == x && Push(st, vals.flag(b)).stack[|st.stack|] == vals.flag(b);
  }

  /** On every machine that reads the opcodes so, with this pool, the two bodies end alike. */
  ghost predicate EndsSame(hs: seq<Handler>, c: seq<Byte>, b: seq<Byte>, pool: seq<Const>) {
    forall sem: Semantics, land: Land, vals: Values, st: State :: EndsAt(sem, land, vals, hs, c, b, pool, st)
  }

  ghost predicate EndsAt(sem: Semantics, land: Land, vals: Values, hs: seq<Handler>, c: seq<Byte>, b: seq<Byte>,
                         pool: seq<Const>, st: State) {
    IntCode.Reads(sem, PoolOf(vals, pool), vals) ==> SameEnds(sem, land, hs, c, b, st)
  }

  lemma EndsSameRefl(hs: seq<Handler>, c: seq<Byte>, pool: seq<Const>)
    ensures EndsSame(hs, c, c, pool)
  {
    hide IntCode.Reads, SameEnds;
    forall sem: Semantics, land: Land, vals: Values, st: State
      ensures EndsAt(sem, land, vals, hs, c, c, pool, st)
    {
      SameEndsRefl(sem, land, hs, c, st);
    }
  }

  /** One more window folded. */
  lemma EndsSameNext(hs: seq<Handler>, c: seq<Byte>, b: seq<Byte>, b': seq<Byte>, s: seq<int>, marks: set<int>, k: nat,
                     m: nat, n: nat, v: Value, index: nat, pool: seq<Const>, pool': seq<Const>)
    requires Sited(b, hs, s, marks) && WindowAt(b, s, k, m, v) && Refilled(b, s, k, m, n, Inst(v, index), b')
    requires forall x :: x in marks ==> !(s[k] < x < s[m])
    requires EndsSame(hs, c, b, pool) && pool <= pool' && |pool'| <= 65536
    requires (v.Truth? ==> index < |pool'| && pool'[index] == Interned(v.b))
    ensures EndsSame(hs, c, b', pool')
  {
    hide IntCode.Reads, SameEnds, Sited, WindowAt, Refilled, Inst, EndsAt;
    forall sem: Semantics, land: Land, vals: Values, st: State
      ensures EndsAt(sem, land, vals, hs, c, b', pool', st)
    {
      assert EndsAt(sem, land, vals, hs, c, b, pool, st);
      EndsNext(sem, land, vals, hs, c, b, b', s, marks, k, m, n, v, index, pool, pool', st);
    }
  }

  lemma EndsNext(sem: Semantics, land: Land, vals: Values, hs: seq<Handler>, c: seq<Byte>, b: seq<Byte>, b': seq<Byte>,
                 s: seq<int>, marks: set<int>, k: nat, m: nat, n: nat, v: Value, index: nat, pool: seq<Const>,
                 pool': seq<Const>, st: State)
    requires Sited(b, hs, s, marks) && WindowAt(b, s, k, m, v) && Refilled(b, s, k, m, n, Inst(v, index), b')
    requires forall x :: x in marks ==> !(s[k] < x < s[m])
    requires EndsAt(sem, land, vals, hs, c, b, pool, st) && pool <= pool' && |pool'| <= 65536
    requires v.Truth? ==> index < |pool'| && pool'[index] == Interned(v.b)
    ensures EndsAt(sem, land, vals, hs, c, b', pool', st)
  {
    hide IntCode.Reads, SameEnds, WindowAt, Refilled, Inst, Layout, Target, Arms;
    if IntCode.Reads(sem, PoolOf(vals, pool'), vals) {
      PoolGrows(sem, vals, pool, pool');
      WindowPlain(b, s, k, m, v);
      RefilledIs(b, s, k, m, n, Inst(v, index), b');
      ReadsSensibly(sem, PoolOf(vals, pool'), vals);
      forall a
        ensures PushesAt(sem, b, s[k], s[m], Inst(v, index), ValueOf(vals, v), a)
      {
        WindowPushes(sem, PoolOf(vals, pool'), vals, b, s, k, m, v, a);
        InstPushes(sem, vals, pool', v, index, a);
      }
      RefilledEnds(sem, land, b, hs, s, marks, k, m, n, Inst(v, index), b', ValueOf(vals, v), st);
      SameEndsTrans(sem, land, hs, c, b, b', st);
    }
  }

  lemma InstPushes(sem: Semantics, vals: Values, pool: seq<Const>, v: Value, index: nat, st: State)
    requires IntCode.Reads(sem, PoolOf(vals, pool), vals) && (v.Number? ==> IsSigned(v.w, v.v)) && |pool| <= 65536
    requires v.Truth? ==> index < |pool| && pool[index] == Interned(v.b)
    ensures sem(Inst(v, index), st) == Next(Push(st, ValueOf(vals, v)))
  {
    hide IntCode.Reads, IsSigned, Inst;
    match v
    case Number(w, n) =>
      NumberPushes(sem, vals, pool, w, n, index, st);
    case Truth(b) =>
      assert index % 65536 == index;
      InstPushesIff(sem, vals, pool, v, index, st);
  }

  lemma NumberPushes(sem: Semantics, vals: Values, pool: seq<Const>, w: Precision, n: int, index: nat, st: State)
    requires IntCode.Reads(sem, PoolOf(vals, pool), vals) && IsSigned(w, n)
    ensures sem(Inst(Number(w, n), index), st) == Next(Push(st, vals.num(w, n)))
  {
    hide IntCode.Reads, IsSigned, NumConst, ConstOf;
    NumConstReads(w, n);
    InstPlain(Number(w, n), index);
    Constants(sem, PoolOf(vals, pool), vals, NumConst(w, n), st);
  }

  ghost predicate InOneBlock(blocks: seq<Blocks.Block>, x: int, y: int) {
    exists j :: 0 <= j < |blocks| && blocks[j].start <= x && y <= blocks[j].end
  }

  /** Every window of the original that starts before the front is behind the cursor, and starts with a no-op now. */
  ghost predicate GoneTo(c: seq<Byte>, s: seq<int>, blocks: seq<Blocks.Block>, b: seq<Byte>, ip: int, f: int) {
    forall k, m, v ::
        WindowAt(c, s, k, m, v) && s[k] < f && InOneBlock(blocks, s[k], s[m]) ==>
        s[k] < ip && s[k] < |b| && b[s[k]] == NOP
  }

  /** Every window of the original is folded: its first constant has become a no-op. */
  ghost predicate AllGone(c: seq<Byte>, s: seq<int>, blocks: seq<Blocks.Block>, b: seq<Byte>) {
    GoneTo(c, s, blocks, b, |c|, |c|)
  }

  /** From the front on nothing has changed; between cursor and front there is at most one instruction, just put
      there. */
  ghost predicate Front(c: seq<Byte>, s: seq<int>, b: seq<Byte>, ip: int, f: int) {
    && |b| == |c| && 0 <= ip <= f <= |c| && f in s && (forall x :: f <= x < |c| ==> b[x] == c[x])
    && (ip < f ==> ip + Width(b, ip) == f)
  }

  lemma SameFrom(a: seq<Byte>, b: seq<Byte>, f: int, ip: int)
    requires |a| == |b| && 0 <= f <= ip < |a| && forall x :: f <= x < |a| ==> a[x] == b[x]
    ensures Width(a, ip) == Width(b, ip) && Core(a, ip) == Core(b, ip) && a[ip] == b[ip]
  {
    assert ip + Width(a, ip) <= |a| ==> a[ip..ip + Width(a, ip)] == b[ip..ip + Width(a, ip)];
  }

  /** No window starts at an operation, nor at a constant right before a binary one. */
  lemma NoWindow(c: seq<Byte>, s: seq<int>, k: int)
    requires 0 <= k < |s| && 0 <= s[k] < |c|
    requires ConstOf(Core(c, s[k])).None? || (k + 1 < |s| && 0 <= s[k + 1] < |c| && BinOf(c[s[k + 1]]).Some?)
    ensures forall m, v :: !WindowAt(c, s, k, m, v)
  {
    hide ConstOf, Core, FoldTwo, BinOf, ZeroTest;
    if k + 1 < |s| && 0 <= s[k + 1] < |c| && BinOf(c[s[k + 1]]).Some? {
      BinIsNoTest(c, s[k + 1]);
    }
  }

  lemma BinIsNoTest(c: seq<Byte>, ip: int)
    requires 0 <= ip < |c| && BinOf(c[ip]).Some?
    ensures ZeroTest(c[ip]).None? && c[ip] != I64_TO_I32 && ConstOf(Core(c, ip)).None?
  {
  }

  /** Folding at the cursor, which is at the front: the window is one of the original's. */
  lemma FoldFresh(c: seq<Byte>, s: seq<int>, b: seq<Byte>, ip: int, end: int) returns (k: nat, m: nat)
    requires Layout(c, s) && Front(c, s, b, ip, ip) && ip < end <= |c| && end in s
    ensures k < |s| - 1 && s[k] == ip && FoldOf(c, ip, end) == FoldOf(b, ip, end)
    ensures FoldOf(b, ip, end).Some? ==>
              && k < m < |s| && s[m] == ip + FoldOf(b, ip, end).value.0 <= end
              && WindowAt(c, s, k, m, FoldOf(b, ip, end).value.1)
              && forall q, m', v :: k < q < m ==> !WindowAt(c, s, q, m', v)
    ensures FoldOf(b, ip, end).None? ==> s[k + 1] == ip + Width(b, ip) <= end && forall m', v ::
      WindowAt(c, s, k, m', v) ==> s[m'] > end
  {
    hide Layout, ConstOf, Core, FoldOne, FoldTwo, Width, WindowAt;
    SortedStarts(c, s);
    LastIsEnd(c, s);
    k :| 0 <= k < |s| && s[k] == ip;
    LayoutNext(c, s, k);
    Blocks.Ends(c, s, k, end);
    SameFold(c, b, ip, end);
    SameFrom(c, b, ip, ip);
    m := FoldIsWindow(c, s, k, end);
    if FoldOf(b, ip, end).Some? {
      NoneWithin(c, s, k, m, FoldOf(b, ip, end).value.1);
    }
  }

  lemma SameFold(c: seq<Byte>, b: seq<Byte>, ip: int, end: int)
    requires |c| == |b| && 0 <= ip < end <= |c| && forall x :: ip <= x < |c| ==> b[x] == c[x]
    ensures FoldOf(c, ip, end) == FoldOf(b, ip, end)
  {
    hide ConstOf, Core, FoldOne, FoldTwo, Width;
    SameFrom(c, b, ip, ip);
    var p := ip + Width(c, ip);
    if p < end {
      SameFrom(c, b, ip, p);
      var q := p + Width(c, p);
      if q < end {
        SameFrom(c, b, ip, q);
      }
    }
  }

  /** No window starts inside another. */
  lemma NoneWithin(c: seq<Byte>, s: seq<int>, k: int, m: int, v: Value)
    requires WindowAt(c, s, k, m, v)
    ensures forall q, m', v' :: k < q < m ==> !WindowAt(c, s, q, m', v')
  {
    hide ConstOf, Core, BinOf, ZeroTest, Apply;
    var d := ConstOf(Core(c, s[k])).value;
    forall q, m', v' | k < q < m
      ensures !WindowAt(c, s, q, m', v')
    {
      if m == k + 2 {
        FoldOneOp(d.0, d.1, c[s[q]]);
        OneByteIsNoConst(c, s[q]);
        NoWindow(c, s, q);
      } else {
        FoldTwoOp(d.0, d.1, ConstOf(Core(c, s[k + 1])).value.1, c[s[k + 2]]);
        if q == k + 2 {
          OneByteIsNoConst(c, s[q]);
        }
        NoWindow(c, s, q);
      }
    }
  }

  lemma OneByteIsNoConst(c: seq<Byte>, ip: int)
    requires 0 <= ip < |c| && (BinOf(c[ip]).Some? || ZeroTest(c[ip]).Some? || c[ip] == I64_TO_I32)
    ensures ConstOf(Core(c, ip)).None?
  {
  }

  /** Folding at the cursor, a constant just folded: no window of the original starts in what is taken from the front.
      */
  lemma FoldAgain(c: seq<Byte>, s: seq<int>, b: seq<Byte>, ip: int, f: int, end: int)
    requires Layout(c, s) && Front(c, s, b, ip, f) && ip < f <= end <= |c| && FoldOf(b, ip, end).Some?
    ensures f < ip + FoldOf(b, ip, end).value.0 <= end && ip + FoldOf(b, ip, end).value.0 in s
    ensures forall k, m, v :: WindowAt(c, s, k, m, v) && f <= s[k] ==> s[k] >= ip + FoldOf(b, ip, end).value.0
  {
    hide Layout, ConstOf, Core, Width, WindowAt, FoldOne, FoldTwo;
    SortedStarts(c, s);
    LastIsEnd(c, s);
    var k0 :| 0 <= k0 < |s| && s[k0] == f;
    LayoutNext(c, s, k0);
    SameFrom(c, b, f, f);
    var r := FoldOf(b, ip, end).value;
    var d := ConstOf(Core(b, ip)).value;
    if ConstOf(Core(b, f)).Some? {
      LayoutNext(c, s, k0 + 1);
      SameFrom(c, b, f, s[k0 + 1]);
      FoldTwoOp(d.0, d.1, ConstOf(Core(b, f)).value.1, b[s[k0 + 1]]);
      OneByte(c, s[k0 + 1]);
      OneByteIsNoConst(c, s[k0 + 1]);
      NoWindow(c, s, k0);
      NoWindow(c, s, k0 + 1);
      NoneBefore(c, s, f, k0, 2);
    } else {
      FoldOneOp(d.0, d.1, b[f]);
      OneByte(c, f);
      OneByteIsNoConst(c, f);
      NoWindow(c, s, k0);
      NoneBefore(c, s, f, k0, 1);
    }
  }

  lemma NoneBefore(c: seq<Byte>, s: seq<int>, f: int, k: nat, n: nat)
    requires Layout(c, s) && k + n < |s| && s[k] == f && forall q, m, v :: k <= q < k + n ==> !WindowAt(c, s, q, m, v)
    ensures forall q, m, v :: WindowAt(c, s, q, m, v) && f <= s[q] ==> s[q] >= s[k + n]
  {
    hide ConstOf, Core, FoldOne, FoldTwo;
    forall q, m, v | WindowAt(c, s, q, m, v) && f <= s[q]
      ensures s[q] >= s[k + n]
    {
      Ordered(c, s, q, k);
      Ordered(c, s, q, k + n);
    }
  }

  /** Windows gone stay gone when one more is folded. */
  lemma GoneNext(c: seq<Byte>, s: seq<int>, blocks: seq<Blocks.Block>, b: seq<Byte>, b': seq<Byte>, ip: int, f: int,
                 ip': int, f': int)
    requires GoneTo(c, s, blocks, b, ip, f) && |b| == |b'| && 0 <= ip < ip' <= f' && f <= f'
    requires ip' <= |b'| && (forall x :: 0 <= x < ip ==> b'[x] == b[x]) && b'[ip] == NOP
    requires forall k, m, v :: WindowAt(c, s, k, m, v) && f <= s[k] ==> s[k] == ip || s[k] >= f'
    ensures GoneTo(c, s, blocks, b', ip', f')
  {
    hide ConstOf, Core, FoldOne, FoldTwo;
  }

  /** Windows gone stay gone when the cursor passes an instruction that begins none. */
  lemma GoneOn(c: seq<Byte>, s: seq<int>, blocks: seq<Blocks.Block>, b: seq<Byte>, ip: int, f: int, f': int)
    requires GoneTo(c, s, blocks, b, ip, f) && ip <= f <= f'
    requires forall k, m, v :: WindowAt(c, s, k, m, v) && f <= s[k] < f' ==> !InOneBlock(blocks, s[k], s[m])
    ensures GoneTo(c, s, blocks, b, f', f')
  {
    hide ConstOf, Core, FoldOne, FoldTwo, InOneBlock;
  }

  /** The sweep over a block that ends at `end`: the cursor is at ip, and from f on the code is the original's. */
  ghost predicate Sweeping(c: seq<Byte>, hs: seq<Handler>, s: seq<int>, blocks: seq<Blocks.Block>, marks: set<int>,
                           b: seq<Byte>, last: seq<int>, ip: int, f: int, end: int) {
    && Layout(c, s) && Sited(b, hs, last, marks) && ip in last && end in marks && end in s
    && Front(c, s, b, ip, f) && f <= end <= |c| && GoneTo(c, s, blocks, b, ip, f)
  }

  /** No block starts strictly inside another. */
  lemma NoMarkInside(code: seq<Byte>, s: seq<int>, blocks: seq<Blocks.Block>, j: int, x: int, y: int)
    requires Tiles(code, s, blocks) && 0 <= j < |blocks| && blocks[j].start <= x && y <= blocks[j].end
    ensures forall z :: z in Marks(blocks, |code|) ==> !(x < z < y)
    ensures forall i ::
      0 <= i < |blocks| && i != j ==> blocks[i].end <= blocks[j].start || blocks[j].end <= blocks[i].start
  {
    forall z | z in Marks(blocks, |code|)
      ensures !(x < z < y)
    {
      if i :| 0 <= i < |blocks| && blocks[i].start == z {
        if i < j {
          TilesOrder(code, s, blocks, i, j);
        } else if j < i {
          TilesOrder(code, s, blocks, j, i);
        }
      }
    }
    forall i | 0 <= i < |blocks| && i != j
      ensures blocks[i].end <= blocks[j].start || blocks[j].end <= blocks[i].start
    {
      if i < j {
        TilesOrder(code, s, blocks, i, j);
      } else {
        TilesOrder(code, s, blocks, j, i);
      }
    }
  }

  /** A window is wider than the instruction it becomes. */
  lemma WindowWide(b: seq<Byte>, s: seq<int>, k: int, m: int, v: Value, index: nat)
    requires Layout(b, s) && WindowAt(b, s, k, m, v)
    ensures |Inst(v, index)| < s[m] - s[k]
  {
    hide Layout, ConstOf, Core, FoldOne, FoldTwo, Inst, Width;
    LayoutNext(b, s, k);
    LayoutNext(b, s, k + 1);
    Algebra.ConstSize(b, s[k]);
    InstPlain(v, index);
    var c := ConstOf(Core(b, s[k])).value;
    if m == k + 2 {
      OneSize(c.0, c.1, b[s[k + 1]], v);
      WidthPositive(b, s[k + 1]);
    } else {
      LayoutNext(b, s, k + 2);
      Algebra.ConstSize(b, s[k + 1]);
      FoldTwoOp(c.0, c.1, ConstOf(Core(b, s[k + 1])).value.1, b[s[k + 2]]);
      WidthPositive(b, s[k + 2]);
    }
  }

  lemma OneSize(w: Precision, a: int, op: Byte, v: Value)
    requires FoldOne(w, a, op) == Some(v)
    ensures v.Number? ==> v.w == W32 && w == W64
  {
    hide Signed;
  }

  /** Passing an instruction that begins no window. */
  lemma SweepOn(c: seq<Byte>, hs: seq<Handler>, s: seq<int>, blocks: seq<Blocks.Block>, marks: set<int>, b: seq<Byte>,
                last: seq<int>, j: int, ip: int, f: int, end: int)
    requires Sweeping(c, hs, s, blocks, marks, b, last, ip, f, end) && ip < end && Tiles(c, s, blocks)
    requires 0 <= j < |blocks| && end == blocks[j].end && blocks[j].start <= ip && FoldOf(b, ip, end).None?
    ensures var x := ip + Width(b, ip); ip < x <= end && Sweeping(c, hs, s, blocks, marks, b, last, x, x, end)
  {
    hide Layout, ConstOf, Core, FoldOf, Width, WindowAt, Target, Arms, Tiles, Marks, InOneBlock, GoneTo;
    var x := ip + Width(b, ip);
    var i :| 0 <= i < |last| && last[i] == ip;
    SortedStarts(b, last);
    LastIsEnd(b, last);
    LayoutNext(b, last, i);
    WidthPositive(b, ip);
    assert last[i + 1] == x;
    if ip == f {
      var k, m := FoldFresh(c, s, b, ip, end);
      NoMarkInside(c, s, blocks, j, ip, end);
      forall q, m', v | 0 <= q < m' < |s| && WindowAt(c, s, q, m', v) && f <= s[q] < x
        ensures !InOneBlock(blocks, s[q], s[m'])
      {
        StartOf(c, s, q, k, m', v);
        Beyond(blocks, j, s[q], s[m']);
      }
      assert s[k + 1] == x;
    }
    WindowsIn(c, s);
    GoneOn(c, s, blocks, b, ip, f, x);
  }

  lemma StartOf(c: seq<Byte>, s: seq<int>, q: int, k: int, m: int, v: Value)
    requires Layout(c, s) && WindowAt(c, s, q, m, v) && 0 <= k < |s| - 1 && s[k] <= s[q] < s[k + 1]
    ensures q == k && 0 <= q < m < |s|
  {
    Ordered(c, s, q, k);
    Ordered(c, s, q, k + 1);
  }

  lemma Beyond(blocks: seq<Blocks.Block>, j: int, x: int, y: int)
    requires 0 <= j < |blocks| && blocks[j].start <= x < blocks[j].end < y
    requires forall i ::
      0 <= i < |blocks| && i != j ==> blocks[i].end <= blocks[j].start || blocks[j].end <= blocks[i].start
    ensures !InOneBlock(blocks, x, y)
  {
  }

  /** Folding the window at the cursor. */
  lemma SweepFolds(c: seq<Byte>, hs: seq<Handler>, s: seq<int>, blocks: seq<Blocks.Block>, marks: set<int>,
                   b: seq<Byte>, b': seq<Byte>, last: seq<int>, j: int, ip: int, f: int, end: int, k: nat, m: nat,
                   n: nat, index: nat)
    requires Sweeping(c, hs, s, blocks, marks, b, last, ip, f, end) && ip < end && Tiles(c, s, blocks)
    requires marks == Marks(blocks, |c|)
    requires 0 <= j < |blocks| && end == blocks[j].end && blocks[j].start <= ip && FoldOf(b, ip, end).Some?
    requires k < m < |last| && last[k] == ip && last[m] == ip + FoldOf(b, ip, end).value.0 && n > 0
    requires Refilled(b, last, k, m, n, Inst(FoldOf(b, ip, end).value.1, index), b')
    ensures Sweeping(c, hs, s, blocks, marks, b', Relaid(last, k, m, n), ip + n, ip + FoldOf(b, ip, end).value.0, end)
  {
    hide Layout, ConstOf, Core, FoldOf, WindowAt, Target, Arms, Tiles, Marks, InOneBlock, GoneTo, Inst, Padded, Width;
    var y := ip + FoldOf(b, ip, end).value.0;
    var r := Relaid(last, k, m, n);
    NoMarkInside(c, s, blocks, j, ip, y);
    RelaidSited(b, hs, last, marks, k, m, n, Inst(FoldOf(b, ip, end).value.1, index), b');
    assert r[k + n] == ip + n;
    InsideIs(b, last, k, m, n, Inst(FoldOf(b, ip, end).value.1, index), b', n);
    FirstIsNop(b, last, k, m, n, Inst(FoldOf(b, ip, end).value.1, index), b');
    if ip == f {
      var k0, m0 := FoldFresh(c, s, b, ip, end);
      forall q, m', v | 0 <= q < m' < |s| && WindowAt(c, s, q, m', v) && f <= s[q]
        ensures s[q] == ip || s[q] >= y
      {
        OnlyFirst(c, s, k0, m0, q, m', v);
      }
    } else {
      FoldAgain(c, s, b, ip, f, end);
    }
    WindowsIn(c, s);
    GoneNext(c, s, blocks, b, b', ip, f, ip + n, y);
  }

  lemma WindowsIn(c: seq<Byte>, s: seq<int>)
    ensures forall q, m, v :: WindowAt(c, s, q, m, v) ==> 0 <= q < m < |s|
  {
    hide ConstOf, Core, FoldOne, FoldTwo;
  }

  lemma FirstIsNop(b: seq<Byte>, s: seq<int>, k: nat, m: nat, n: nat, inst: seq<Byte>, b': seq<Byte>)
    requires Layout(b, s) && Refilled(b, s, k, m, n, inst, b') && n > 0
    ensures b'[s[k]] == NOP
  {
    hide Layout;
    assert b'[s[k]] == b'[s[k]..s[m]][0];
  }

  lemma OnlyFirst(c: seq<Byte>, s: seq<int>, k: int, m: int, q: int, m': int, v: Value)
    requires Layout(c, s) && WindowAt(c, s, q, m', v) && 0 <= k < m < |s| && s[k] <= s[q]
    requires forall q, m', v :: k < q < m ==> !WindowAt(c, s, q, m', v)
    ensures s[q] == s[k] || s[q] >= s[m]
  {
    hide ConstOf, Core, FoldOne, FoldTwo;
    Ordered(c, s, q, k);
    Ordered(c, s, q, m);
  }

  /** The sweep has done everything before x, the start of a block or the end. */
  ghost predicate Swept(c: seq<Byte>, hs: seq<Handler>, s: seq<int>, blocks: seq<Blocks.Block>, marks: set<int>,
                        b: seq<Byte>, last: seq<int>, x: int) {
    && Layout(c, s) && Sited(b, hs, last, marks) && x in marks && x in s && Front(c, s, b, x, x)
    && GoneTo(c, s, blocks, b, x, x)
  }

  lemma SweepStarts(c: seq<Byte>, hs: seq<Handler>, s: seq<int>, blocks: seq<Blocks.Block>, marks: set<int>)
    requires Sited(c, hs, s, marks) && Tiles(c, s, blocks) && marks == Marks(blocks, |c|)
    ensures |blocks| > 0 && Swept(c, hs, s, blocks, marks, c, s, blocks[0].start)
  {
    hide Target, Arms, ConstOf, Core, FoldOne, FoldTwo;
    InstrsInside(c, s);
    assert blocks[0].start in marks;
  }

  lemma SweepEnters(c: seq<Byte>, hs: seq<Handler>, s: seq<int>, blocks: seq<Blocks.Block>, marks: set<int>,
                    b: seq<Byte>, last: seq<int>, j: int)
    requires 0 <= j < |blocks| && Swept(c, hs, s, blocks, marks, b, last, blocks[j].start) && Tiles(c, s, blocks)
    requires marks == Marks(blocks, |c|)
    ensures blocks[j].start <= blocks[j].end
    ensures Sweeping(c, hs, s, blocks, marks, b, last, blocks[j].start, blocks[j].start, blocks[j].end)
  {
    hide Layout, Target, Arms, GoneTo;
    assert j + 1 < |blocks| ==> blocks[j + 1].start in marks;
  }

  lemma SweepLeaves(c: seq<Byte>, hs: seq<Handler>, s: seq<int>, blocks: seq<Blocks.Block>, marks: set<int>,
                    b: seq<Byte>, last: seq<int>, j: int, ip: int, f: int)
    requires 0 <= j < |blocks| && Sweeping(c, hs, s, blocks, marks, b, last, ip, f, blocks[j].end)
    requires ip == blocks[j].end && Tiles(c, s, blocks)
    ensures Swept(c, hs, s, blocks, marks, b, last, if j + 1 < |blocks| then blocks[j + 1].start else |c|)
  {
    hide Layout, Target, Arms, GoneTo, Sited;
  }

  lemma SweptAll(c: seq<Byte>, hs: seq<Handler>, s: seq<int>, blocks: seq<Blocks.Block>, marks: set<int>, b: seq<Byte>,
                 last: seq<int>)
    requires Swept(c, hs, s, blocks, marks, b, last, |c|)
    ensures AllGone(c, s, blocks, b)
  {
    hide Layout, Sited, GoneTo;
  }

  lemma SweepFacts(c: seq<Byte>, hs: seq<Handler>, s: seq<int>, blocks: seq<Blocks.Block>, marks: set<int>,
                   b: seq<Byte>, last: seq<int>, ip: int, f: int, end: int)
    requires Sweeping(c, hs, s, blocks, marks, b, last, ip, f, end)
    ensures Layout(b, last) && Sited(b, hs, last, marks) && ip in last && end in last && 0 <= ip && end <= |b| == |c|
  {
    hide Layout, Target, Arms, GoneTo;
  }

  lemma Spot(b: seq<Byte>, last: seq<int>, ip: int) returns (k: nat)
    requires Layout(b, last) && ip in last && ip < |b|
    ensures k < |last| - 1 && last[k] == ip
  {
    k :| 0 <= k < |last| && last[k] == ip;
  }

  class Folder {
    var pool: seq<Const>
    var trueIdx: int
    var falseIdx: int

    ghost predicate Valid()
      reads this
    {
      && -1 <= trueIdx < |pool| && (trueIdx >= 0 ==> pool[trueIdx] == Interned(true))
      && -1 <= falseIdx < |pool| && (falseIdx >= 0 ==> pool[falseIdx] == Interned(false))
    }

    constructor (pool: seq<Const>)
      ensures Valid() && this.pool == pool && trueIdx == falseIdx == -1
    {
      this.pool, trueIdx, falseIdx := pool, -1, -1;
    }

    /** The pool index of a truth value, appended at most once. */
    method BoolConst(b: bool) returns (i: nat)
      requires Valid()
      modifies this
      ensures Valid() && old(pool) <= pool && i < |pool| && pool[i] == Interned(b)
      ensures i == if b then trueIdx else falseIdx
      ensures pool == if old(if b then trueIdx else falseIdx) >= 0 then old(pool) else old(pool) + [Interned(b)]
      ensures |pool| + Unplaced() == old(|pool| + Unplaced())
    {
      if b {
        if trueIdx < 0 {
          trueIdx := |pool|;
          pool := pool + [Interned(true)];
        }
        i := trueIdx;
      } else {
        if falseIdx < 0 {
          falseIdx := |pool|;
          pool := pool + [Interned(false)];
        }
        i := falseIdx;
      }
    }

    /** Looks at the window at ip: the next cursor, after the window became its constant when there is one. */
    method Visit(code: array<Byte>, ip: int, end: int, ghost hs: seq<Handler>, ghost c: seq<Byte>, ghost s: seq<int>,
                 ghost blocks: seq<Blocks.Block>, ghost j: int, ghost c0: seq<Byte>, ghost marks: set<int>,
                 ghost last0: seq<int>, ghost f0: int)
      returns (next: int, ghost last: seq<int>, ghost f: int)
      requires Valid() && c0 == code[..] && |c| == code.Length && marks == Marks(blocks, |c|)
      requires Sweeping(c, hs, s, blocks, marks, c0, last0, ip, f0, end) && ip < end && Tiles(c, s, blocks)
      requires 0 <= j < |blocks| && end == blocks[j].end && blocks[j].start <= ip
      requires |pool| <= 65536 ==> EndsSame(hs, c, c0, pool)
      modifies this, code
      ensures Valid() && old(pool) <= pool && |pool| + Unplaced() <= |old(pool)| + old(Unplaced())
      ensures ip < next <= end && Sweeping(c, hs, s, blocks, marks, code[..], last, next, f, end)
      ensures |pool| <= 65536 ==> EndsSame(hs, c, code[..], pool)
    {
      hide FoldOf, Sweeping, EndsSame, Marks, Tiles, Sited, Refilled, Layout, ConstOf, Core, Width, WindowAt, Inst;
      SweepFacts(c, hs, s, blocks, marks, c0, last0, ip, f0, end);
      ghost var k := Spot(c0, last0, ip);
      ghost var m := FoldIsWindow(c0, last0, k, end);
      var r := FoldOf(code[..], ip, end);
      if r.None? {
        SweepOn(c, hs, s, blocks, marks, c0, last0, j, ip, f0, end);
        next := ip + Width(code[..], ip);
        return next, last0, next;
      }
      var width, v := r.value.0, r.value.1;
      var index := 0;
      if v.Truth? {
        index := BoolConst(v.b);
      }
      var inst := Inst(v, index);
      WindowWide(c0, last0, k, m, v, index);
      InstPlain(v, index);
      Replace(code, ip, width, inst, c0, last0, k, m);
      ghost var n := width - |inst|;
      next := ip + width - |inst|;
      NoMarkInside(c, s, blocks, j, ip, ip + width);
      SweepFolds(c, hs, s, blocks, marks, c0, code[..], last0, j, ip, f0, end, k, m, n, index);
      last, f := Relaid(last0, k, m, n), ip + width;
      if |pool| <= 65536 {
        EndsSameNext(hs, c, c0, code[..], last0, marks, k, m, n, v, index, old(pool), pool);
      }
    }

    /** Overwrites a window by no-ops and the instruction. */
    method Replace(code: array<Byte>, ip: int, width: int, inst: seq<Byte>, ghost b: seq<Byte>, ghost s: seq<int>,
                   ghost k: nat, ghost m: nat)
      requires b == code[..] && Layout(b, s) && k < m < |s| && s[k] == ip && s[m] == ip + width && 0 <= ip
      requires ip + width <= code.Length
      requires Plain(inst) && |inst| < width
      modifies code
      ensures Refilled(b, s, k, m, width - |inst|, inst, code[..])
    {
      hide Layout, Plain;
      var text := Padded(width - |inst|, inst);
      forall i | 0 <= i < width {
        code[ip + i] := text[i];
      }
      assert code[ip..ip + width] == text;
    }

    /** Folds every window of a body's blocks, going on from the constant a window became. */
    method Fold(code: array<Byte>, hs: seq<Handler>, blocks: seq<Blocks.Block>, ghost s: seq<int>)
      requires Valid() && Layout(code[..], s) && Blocks.Targeted(code[..], hs, s)
      requires Blocks.InRange(code[..], s, |s| - 1)
      requires Blocks.IsCfg(code[..], hs, s, blocks)
      modifies this, code
      ensures Valid() && old(pool) <= pool && |pool| <= |old(pool)| + 2
      ensures AllGone(old(code[..]), s, blocks, code[..])
      ensures |pool| <= 65536 ==> EndsSame(hs, old(code[..]), code[..], pool)
    {
      hide Layout, Blocks.Targeted, Blocks.InRange, Blocks.IsCfg, FoldOf, Sited, EndsSame, Marks, Tiles, Valid,
           Sweeping, GoneTo;
      ghost var c, marks, last := code[..], Marks(blocks, code.Length), s;
      SitedStart(c, hs, s, blocks);
      BlocksTile(c, hs, s, blocks);
      EndsSameRefl(hs, c, pool);
      SweepStarts(c, hs, s, blocks, marks);
      for j := 0 to |blocks|
        invariant Valid() && old(pool) <= pool && |pool| + Unplaced() <= |old(pool)| + old(Unplaced())
        invariant code.Length == |c|
        invariant Swept(c, hs, s, blocks, marks, code[..], last, if j < |blocks| then blocks[j].start else |c|)
        invariant |pool| <= 65536 ==> EndsSame(hs, c, code[..], pool)
      {
        var ip, end := blocks[j].start, blocks[j].end;
        ghost var f := ip;
        SweepEnters(c, hs, s, blocks, marks, code[..], last, j);
        while ip < end
          invariant Valid() && old(pool) <= pool && |pool| + Unplaced() <= |old(pool)| + old(Unplaced())
          invariant code.Length == |c| && blocks[j].start <= ip <= end
          invariant Sweeping(c, hs, s, blocks, marks, code[..], last, ip, f, end)
          invariant |pool| <= 65536 ==> EndsSame(hs, c, code[..], pool)
          decreases end - ip
        {
          ip, last, f := Visit(code, ip, end, hs, c, s, blocks, j, code[..], marks, last, f);
        }
        SweepLeaves(c, hs, s, blocks, marks, code[..], last, j, ip, f);
      }
      SweptAll(c, hs, s, blocks, marks, code[..], last);
    }

    /** How many truth values have no pool entry yet. */
    ghost function Unplaced(): nat
      reads this
    {
      (if trueIdx < 0 then 1 else 0) + (if falseIdx < 0 then 1 else 0)
    }
  }

  /** Tests 1 for zero. */
  const TEST: seq<Byte> := [34, 1, 0, 0, 0, 55]

  /** What the test folds to when the truth value stands at index 65536 of the pool. */
  const MISREAD: seq<Byte> := [0, 0, 0, 22, 0, 0]

  lemma TestFolds()
    ensures Layout(TEST, [0, 5, 6]) && WindowAt(TEST, [0, 5, 6], 0, 2, Truth(false))
    ensures Refilled(TEST, [0, 5, 6], 0, 2, 3, Inst(Truth(false), 65536), MISREAD)
  {
    hide Codec.Read, Signed;
    assert Core(TEST, 0) == [34, 1, 0, 0, 0];
    TruthConstants();
    assert Inst(Truth(false), 65536) == [22, 0, 0];
    assert Padded(3, [22, 0, 0]) == MISREAD;
    assert MISREAD[0..6] == MISREAD;
  }

  lemma MisreadReads()
    ensures Core(TEST, 0) == [34, 1, 0, 0, 0] && Width(TEST, 0) == 5 && Core(TEST, 5) == [55] && Width(TEST, 5) == 1
    ensures Core(MISREAD, 0) == Core(MISREAD, 1) == Core(MISREAD, 2) == [NOP] && Core(MISREAD, 3) == [22, 0, 0]
    ensures Width(MISREAD, 0) == Width(MISREAD, 1) == Width(MISREAD, 2) == 1 && Width(MISREAD, 3) == 3
    ensures Codec.Read([0, 0]) == 0
  {
    assert Codec.Read([0]) == 0;
  }

  /** With more than 65536 constants a folded test can read another one: its index does not fit the instruction. */
  lemma WideIndexMisreads(sem: Semantics, land: Land, vals: Values, pool: seq<Const>, locals: seq<int>, world: int)
    requires |pool| == 65537 && pool[65536] == Interned(false) && PoolOf(vals, pool)[0] != vals.flag(false)
    requires IntCode.Reads(sem, PoolOf(vals, pool), vals)
    ensures !SameEnds(sem, land, [], TEST, MISREAD, State([], locals, world))
  {
    hide IntCode.Reads, SameEnds, Core, Width, ConstOf, Step, Run, PoolOf;
    var st, x := State([], locals, world), PoolOf(vals, pool)[0];
    MisreadReads();
    TruthConstants();
    var c, d := Config.At(0, st), Push(st, vals.num(W32, 1));
    NoSteps(sem, land, TEST, [], c);
    Constants(sem, PoolOf(vals, pool), vals, Core(TEST, 0), st);
    RunOn(sem, land, TEST, c, 0, 0, st, d);
    Tests(sem, PoolOf(vals, pool), vals, st);
    RunOn(sem, land, TEST, c, 1, 5, d, Push(st, vals.flag(false)));
    NoSteps(sem, land, MISREAD, [], c);
    Idles(sem, PoolOf(vals, pool), vals, st);
    RunOn(sem, land, MISREAD, c, 0, 0, st, st);
    RunOn(sem, land, MISREAD, c, 1, 1, st, st);
    RunOn(sem, land, MISREAD, c, 2, 2, st, st);
    Loads(sem, PoolOf(vals, pool), vals, st);
    RunOn(sem, land, MISREAD, c, 3, 3, st, Push(st, x));
    assert Push(st, x).stack[0] == x && Push(st, vals.flag(false)).stack[0] == vals.flag(false);
    Differ(sem, land, TEST, MISREAD, 2, 4, st, Push(st, vals.flag(false)), Push(st, x));
  }

  lemma Loads(sem: Semantics, pool: seq<int>, vals: Values, st: State)
    requires IntCode.Reads(sem, pool, vals) && |pool| > 0
    ensures sem([22, 0, 0], st) == Next(Push(st, pool[0]))
  {
    hide BinAt, UnAt, ConstOf;
    MisreadReads();
    assert [22, 0, 0][1..] == [0, 0];
    assert LoadAt(sem, pool, vals, [22, 0, 0], st);
  }
}
