/** Where the verifier's checks stop: two bodies that it accepts, and what their runs do. */
module VerifyLimits {
  import opened Bytecode
  import opened Stacks
  import opened Verifier
  import opened Checker
  import opened Dataflow
  import opened Opcodes
  import opened Heights
  import opened Verify
  import Blocks
  import Compaction

  /** A loop that ends the body with its conditional branch. */
  const LOOP: seq<Byte> := [34, 0, 0, 0, 0, BR_IF, 248, 255]

  lemma LoopReads()
    ensures Width(LOOP, 0) == 5 && Width(LOOP, 5) == 3 && Arms(LOOP, 0) == 0 && Arms(LOOP, 5) == 1
    ensures Target(LOOP, 5, 0) == 0
  {
  }

  lemma LoopBounds(cx: Context)
    ensures InBounds(cx, LOOP, 0) && InBounds(cx, LOOP, 5)
  {
    hide Operand;
  }

  lemma Effects()
    ensures Fixed(34) == Some(Effect([], [I32])) && Fixed(BR_IF) == Some(Effect([I32], []))
    ensures Fixed(BR_TABLE) == Some(Effect([I32], [])) && Fixed(DROP) == Some(Effect([Any], []))
  {
  }

  lemma PushStep(cx: Context, code: seq<Byte>, ip: int)
    requires 0 <= ip < |code| && InBounds(cx, code, ip) && code[ip] == 34
    ensures StepOf(cx, code, ip, []) == Continue([Slot(I32, None)])
  {
    hide Operand, InBounds, CallEffect, AcceptsType, Fixed;
    Effects();
    assert Popped([], []) == Some([]) && Untyped([I32]) == [Slot(I32, None)];
  }

  lemma TakeStep(cx: Context, code: seq<Byte>, ip: int)
    requires 0 <= ip < |code| && InBounds(cx, code, ip) && (code[ip] == BR_IF || code[ip] == BR_TABLE)
    ensures StepOf(cx, code, ip, [Slot(I32, None)]) == Continue([])
  {
    hide Operand, InBounds, CallEffect, AcceptsType, Fixed;
    Effects();
    PoppedIs([Slot(I32, None)], [I32]);
    assert Popped([Slot(I32, None)], [I32]).Some?;
  }

  lemma PlainStep(cx: Context, code: seq<Byte>, ip: int)
    requires 0 <= ip < |code| && InBounds(cx, code, ip) && (code[ip] == NOP || (code[ip] == RETURN && cx.results == 0))
    ensures StepOf(cx, code, ip, []) == Continue([])
  {
    hide Operand, InBounds, CallEffect, AcceptsType, Fixed;
  }

  lemma LoopSteps(cx: Context)
    ensures InBounds(cx, LOOP, 0) && InBounds(cx, LOOP, 5)
    ensures StepOf(cx, LOOP, 0, []) == Continue([Slot(I32, None)])
    ensures StepOf(cx, LOOP, 5, [Slot(I32, None)]) == Continue([])
  {
    hide StepOf, InBounds;
    LoopBounds(cx);
    PushStep(cx, LOOP, 0);
    TakeStep(cx, LOOP, 5);
  }

  lemma LoopLayout(cx: Context)
    ensures Layout(LOOP, [0, 5, 8]) && AllInBounds(cx, LOOP, [0, 5, 8])
  {
    hide Width, InBounds;
    LoopReads();
    LoopBounds(cx);
  }

  lemma LoopLeaders()
    ensures Layout(LOOP, [0, 5, 8])
    ensures forall x :: Leader(LOOP, [], [0, 5, 8], x) <==> x == 0
  {
    hide Width, Arms, Target;
    LoopReads();
    forall x
      ensures Leads(LOOP, [0, 5, 8], 2, x) ==> x == 0 || x == 8
    {
    }
  }

  lemma LoopFlows()
    ensures forall i :: Flows(LOOP, [0], 0, i) <==> i == 0
  {
    hide Width, Arms, Target;
    LoopReads();
    assert Blocks.Last(LOOP, 5, 8) == 5;
    assert Blocks.Last(LOOP, 0, 8) == 5;
    assert Target(LOOP, 5, 0) == 0;
  }

  lemma LoopCfg()
    ensures Layout(LOOP, [0, 5, 8]) && IsCfg(LOOP, [], [0, 5, 8], [Node(0, 8, {0})])
  {
    hide Layout, Leader, Flows;
    LoopLeaders();
    LoopFlows();
    assert NodesBy(LOOP, [], [0, 5, 8], [Node(0, 8, {0})], [0]);
  }

  lemma LoopSettles(cx: Context)
    ensures PostFixpoint(cx, LOOP, [], [Node(0, 8, {0})], [Some([])])
  {
    hide Width, StepOf, InBounds;
    LoopReads();
    LoopSteps(cx);
    assert ExecOf(cx, LOOP, 8, 8, []) == Continue([]);
    assert ExecOf(cx, LOOP, 5, 8, [Slot(I32, None)]) == Continue([]);
    assert ExecOf(cx, LOOP, 0, 8, []) == Continue([]);
    assert Below([], []);
  }

  lemma LoopRuns(cx: Context, calls: int -> Signature)
    ensures IsRun(cx, LOOP, [], calls, [Running(0, 0), Running(5, 1), Running(8, 0)])
  {
    hide Width, Arms, Target, InBounds, Operand, Blocks.ArmLeads, Fixed;
    LoopReads();
    LoopBounds(cx);
    Effects();
    assert Moves(cx, LOOP, [], calls, Running(0, 0), Running(5, 1));
    assert Moves(cx, LOOP, [], calls, Running(5, 1), Running(8, 0));
  }

  /** A layout is what decoding finds. */
  lemma {:induction false} DecodesBy(cx: Context, code: seq<Byte>, s: seq<int>, k: int)
    requires Layout(code, s) && AllInBounds(cx, code, s) && 0 <= k < |s|
    requires forall m :: 0 <= m < |s| - 1 ==> Defined(code[s[m]])
    ensures Decodes(cx, code, s[k]) && Offsets(code, s[k]) == s[k..]
    decreases |s| - k
  {
    hide Layout, Width, InBounds, AllInBounds, Defined;
    LayoutEnds(code, s);
    Blocks.SlotsOf(code, s);
    if k < |s| - 1 {
      Compaction.SortedStarts(code, s);
      InstrHere(cx, code, s, k);
      DecodesBy(cx, code, s, k + 1);
      assert s[k..] == [s[k]] + s[k + 1..];
    }
  }

  /** The blocks of a body are settled by its bytes. */
  lemma CfgUnique(code: seq<Byte>, hs: seq<Handler>, s: seq<int>, a: seq<Node>, b: seq<Node>)
    requires Layout(code, s) && IsCfg(code, hs, s, a) && IsCfg(code, hs, s, b)
    ensures a == b
  {
    hide Layout, Leader, Flows;
    var x :| NodesBy(code, hs, s, a, x);
    var y :| NodesBy(code, hs, s, b, y);
    forall v
      ensures v in x <==> v in y
    {
      assert v in x <==> Leader(code, hs, s, v);
    }
    Blocks.OrderUnique(x, y);
    forall j | 0 <= j < |a|
      ensures a[j] == b[j]
    {
      assert NodeIs(code, x, a[j], j) && NodeIs(code, x, b[j], j);
      assert forall i :: i in a[j].succs <==> i in b[j].succs;
    }
  }

  /** Where every stack at the start of a block is empty, nothing clashes and nothing is stuck. */
  lemma EmptyClears(cx: Context, code: seq<Byte>, hs: seq<Handler>, nodes: seq<Node>, entries: seq<Entry>)
    requires PostFixpoint(cx, code, hs, nodes, entries) && SuccsInRange(nodes)
    requires forall i :: 0 <= i < |entries| && entries[i].Some? ==> entries[i].value == []
    ensures !Clash(cx, code, hs, nodes) && !Blocked(cx, code, hs, nodes) && KindsFit(cx, code, hs, nodes)
  {
    hide Exit, Arises, Clash, Blocked;
    PostFixpointClears(cx, code, hs, nodes, entries);
    forall j, st | Arrives(cx, code, hs, nodes, j, st)
      ensures 0 <= j < |nodes| && st == [] && Exit(cx, code, nodes[j], st).Continue?
    {
      var why :| Arises(cx, code, hs, nodes, j, st, why);
      ArisesBelow(cx, code, hs, nodes, entries, j, st, why);
    }
  }

  /** What the verifier does with a body without handlers whose analysis is settled on empty stacks. */
  method Accepts(cx: Context, code: seq<Byte>, ghost s: seq<int>, ghost want: seq<Node>, ghost stacks: seq<Entry>)
                 returns (r: Verify.Outcome)
    requires Layout(code, s) && AllInBounds(cx, code, s) && |code| > 0 && IsCfg(code, [], s, want)
    requires AllArmsOk(cx, code, Boundary(s), s, |s| - 1)
    requires forall m :: 0 <= m < |s| - 1 ==> Defined(code[s[m]])
    requires Terminates(cx, code, want) && PostFixpoint(cx, code, [], want, stacks) && SuccsInRange(want)
    requires forall i :: 0 <= i < |stacks| && stacks[i].Some? ==> stacks[i].value == []
    ensures r == Verify.Accepted
  {
    hide Layout, AllInBounds, IsCfg, Terminates, PostFixpoint, Clash, Blocked, Stuck, Decodes, Offsets, AllArmsOk;
    LayoutEnds(code, s);
    DecodesBy(cx, code, s, 0);
    assert s[0..] == s;
    assert WellFormed(cx, code, []);
    ghost var nodes, entries;
    r, nodes, entries := Verify.Check(cx, code, []);
    CfgUnique(code, [], s, nodes, want);
    EmptyClears(cx, code, [], want, stacks);
  }

  lemma LoopArms(cx: Context)
    ensures Layout(LOOP, [0, 5, 8]) && AllArmsOk(cx, LOOP, Boundary([0, 5, 8]), [0, 5, 8], 2)
  {
    hide Width, Target, Arms, Layout;
    LoopReads();
    LoopLayout(cx);
    assert 0 in [0, 5, 8];
  }

  /** The verifier accepts a function that ends in a conditional branch. */
  method LoopAccepted(cx: Context) returns (r: Verify.Outcome)
    requires !cx.top
    ensures r == Verify.Accepted
  {
    hide Width, Arms, Target, Layout, InBounds, IsCfg, PostFixpoint, Leader, AllInBounds, AllArmsOk, Stops, Blocks.Last;
    LoopReads();
    LoopLayout(cx);
    LoopCfg();
    LoopSettles(cx);
    LoopArms(cx);
    r := Accepts(cx, LOOP, [0, 5, 8], [Node(0, 8, {0})], [Some([])]);
  }

  /** The accepted loop meets every assumption of the exact condition but the last: a run falls off its end. */
  lemma LoopFallsOff(cx: Context, calls: int -> Signature)
    requires !cx.top
    ensures var s, nodes, entries := [0, 5, 8], [Node(0, 8, {0})], [Some([])];
            && Verified(cx, LOOP, [], s, nodes, entries) && Terminates(cx, LOOP, nodes) && !NoWayOff(LOOP, [], s)
            && IsRun(cx, LOOP, [], calls, [Running(0, 0), Running(5, 1), Running(8, 0)])
  {
    hide Width, Arms, Target, Layout, InBounds, IsCfg, PostFixpoint, Leader, AllInBounds, IsRun, Goes;
    LoopReads();
    LoopLayout(cx);
    LoopCfg();
    LoopSettles(cx);
    LoopRuns(cx, calls);
    LoopReached();
  }

  lemma LoopReached()
    ensures Reached(LOOP, [], 5)
  {
    hide Width, Arms, Target;
    LoopReads();
    assert CanPass(LOOP, [], 0, 5);
    assert Walk(LOOP, [], [0, 5]);
  }

  /** A jump table in the middle of a block, over a return, to an instruction that only it leads to. */
  function Table(last: Byte): seq<Byte> {
    [34, 0, 0, 0, 0, BR_TABLE, 0, 2, 0, NOP, RETURN, last, RETURN]
  }

  ghost const TABLE_STARTS: seq<int> := [0, 5, 9, 10, 11, 12, 13]

  ghost const TABLE_NODES: seq<Node> := [Node(0, 11, {}), Node(11, 13, {})]

  lemma TableReads(x: Byte)
    requires x == DROP || x == NOP
    ensures var c := Table(x);
            && |c| == 13 && c[5] == BR_TABLE && c[10] == RETURN && c[11] == x && c[12] == RETURN && c[9] == NOP
            && c[0] == 34
            && Width(c, 0) == 5 && Width(c, 5) == 4 && Width(c, 9) == 1 && Width(c, 10) == 1 && Width(c, 11) == 1
            && Width(c, 12) == 1
            && Arms(c, 0) == 0 && Arms(c, 5) == 1 && Arms(c, 9) == 0 && Arms(c, 10) == 0 && Arms(c, 11) == 0
            && Arms(c, 12) == 0
            && Target(c, 5, 0) == 11
  {
  }

  lemma TableBounds(cx: Context, x: Byte)
    requires x == DROP || x == NOP
    ensures var c := Table(x);
            InBounds(cx, c, 0) && InBounds(cx, c, 5) && InBounds(cx, c, 9) && InBounds(cx, c, 10) &&
                InBounds(cx, c, 11) && InBounds(cx, c, 12)
  {
    hide Operand;
  }

  lemma TableSteps(cx: Context, x: Byte)
    requires cx.results == 0 && (x == DROP || x == NOP)
    ensures var c := Table(x);
            && InBounds(cx, c, 0) && InBounds(cx, c, 5) && InBounds(cx, c, 9) && InBounds(cx, c, 10)
            && StepOf(cx, c, 0, []) == Continue([Slot(I32, None)])
            && StepOf(cx, c, 5, [Slot(I32, None)]) == Continue([])
            && StepOf(cx, c, 9, []) == Continue([]) && StepOf(cx, c, 10, []) == Continue([])
  {
    hide StepOf, InBounds;
    TableBounds(cx, x);
    PushStep(cx, Table(x), 0);
    TakeStep(cx, Table(x), 5);
    PlainStep(cx, Table(x), 9);
    PlainStep(cx, Table(x), 10);
  }

  lemma TableLayout(cx: Context, x: Byte)
    requires x == DROP || x == NOP
    ensures Layout(Table(x), TABLE_STARTS) && AllInBounds(cx, Table(x), TABLE_STARTS)
  {
    hide Width, InBounds;
    TableReads(x);
    TableBounds(cx, x);
  }

  lemma TableLeaders(cx: Context, x: Byte)
    requires x == DROP || x == NOP
    ensures Layout(Table(x), TABLE_STARTS)
    ensures forall t :: Leader(Table(x), [], TABLE_STARTS, t) <==> t == 0 || t == 11
  {
    hide Width, Arms, Target, Layout, InBounds, Table;
    var s, c := TABLE_STARTS, Table(x);
    TableReads(x);
    TableLayout(cx, x);
    forall t
      ensures Leads(c, s, 6, t) <==> t == 11 || t == 13
    {
      assert Splits(c[s[3]]) && s[3 + 1] == 11;
      assert Splits(c[s[5]]) && s[5 + 1] == 13;
      assert !Splits(c[s[0]]) && !Splits(c[s[1]]) && !Splits(c[s[2]]) && !Splits(c[s[4]]);
    }
  }

  lemma TableFlows(x: Byte)
    requires x == DROP || x == NOP
    ensures forall j, i :: !Flows(Table(x), [0, 11], j, i)
  {
    hide Width, Arms, Target, InBounds, Table;
    TableReads(x);
    var c := Table(x);
    assert Blocks.Last(c, 10, 11) == 10;
    assert Blocks.Last(c, 9, 11) == 10;
    assert Blocks.Last(c, 5, 11) == 10;
    assert Blocks.Last(c, 0, 11) == 10;
    assert Blocks.Last(c, 12, 13) == 12;
    assert Blocks.Last(c, 11, 13) == 12;
  }

  lemma TableCfg(cx: Context, x: Byte)
    requires x == DROP || x == NOP
    ensures Layout(Table(x), TABLE_STARTS) && IsCfg(Table(x), [], TABLE_STARTS, TABLE_NODES)
    ensures Terminates(cx, Table(x), TABLE_NODES)
  {
    hide Width, Arms, Target, Layout, InBounds, Flows, Splits, Table;
    TableReads(x);
    TableLayout(cx, x);
    TableLeaders(cx, x);
    TableFlows(x);
    assert NodesBy(Table(x), [], TABLE_STARTS, TABLE_NODES, [0, 11]);
    var c := Table(x);
    assert Blocks.Last(c, 10, 11) == 10;
    assert Blocks.Last(c, 9, 11) == 10;
    assert Blocks.Last(c, 5, 11) == 10;
    assert Blocks.Last(c, 0, 11) == 10;
    assert Blocks.Last(c, 12, 13) == 12;
    assert Blocks.Last(c, 11, 13) == 12;
  }

  lemma TableSettles(cx: Context, x: Byte)
    requires cx.results == 0 && (x == DROP || x == NOP)
    ensures PostFixpoint(cx, Table(x), [], TABLE_NODES, [Some([]), None])
  {
    hide Width, StepOf, InBounds, Table;
    var c := Table(x);
    TableReads(x);
    TableSteps(cx, x);
    assert ExecOf(cx, c, 10, 11, []) == Continue([]);
    assert ExecOf(cx, c, 9, 11, []) == Continue([]);
    assert ExecOf(cx, c, 5, 11, [Slot(I32, None)]) == Continue([]);
    assert ExecOf(cx, c, 0, 11, []) == Continue([]);
  }

  lemma TableArms(cx: Context, x: Byte)
    requires x == DROP || x == NOP
    ensures Layout(Table(x), TABLE_STARTS) && AllArmsOk(cx, Table(x), Boundary(TABLE_STARTS), TABLE_STARTS, 6)
  {
    hide Width, Target, Arms, Layout, Table;
    TableReads(x);
    TableLayout(cx, x);
    assert 11 in TABLE_STARTS;
  }

  /** The verifier accepts a jump table inside a block without looking at its target. */
  method TableAccepted(cx: Context, x: Byte) returns (r: Verify.Outcome)
    requires cx.results == 0 && (x == DROP || x == NOP)
    ensures r == Verify.Accepted
  {
    hide Width, Arms, Target, Layout, InBounds, IsCfg, PostFixpoint, Leader, AllInBounds, AllArmsOk, Table, Terminates,
         Stops;
    TableReads(x);
    TableLayout(cx, x);
    TableCfg(cx, x);
    TableSettles(cx, x);
    TableArms(cx, x);
    r := Accepts(cx, Table(x), TABLE_STARTS, TABLE_NODES, [Some([]), None]);
  }

  lemma TableRuns(cx: Context, calls: int -> Signature)
    ensures IsRun(cx, Table(DROP), [], calls, [Running(0, 0), Running(5, 1), Running(11, 0), Underflow(11)])
  {
    hide Width, Arms, Target, InBounds, Operand, Table, Fixed;
    var c := Table(DROP);
    TableReads(DROP);
    TableBounds(cx, DROP);
    Effects();
    assert Blocks.ArmLeads(c, 5, 1, 11) by { assert Target(c, 5, 0) == 11; }
    assert Moves(cx, c, [], calls, Running(0, 0), Running(5, 1));
    assert Moves(cx, c, [], calls, Running(5, 1), Running(11, 0));
    assert Moves(cx, c, [], calls, Running(11, 0), Underflow(11));
  }

  /** The accepted table meets the assumptions of the exact condition but the last: its table does not fit, and a run
      underflows at its target. */
  lemma TableUnderflows(cx: Context, calls: int -> Signature)
    requires cx.results == 0
    ensures var nodes, entries := TABLE_NODES, [Some([]), None];
            && Layout(Table(DROP), TABLE_STARTS) && AllInBounds(cx, Table(DROP), TABLE_STARTS)
            && Passes(cx, Table(DROP), [], TABLE_STARTS, nodes, entries)
            && CallsMatch(cx, Table(DROP), TABLE_STARTS, nodes, entries, calls)
            && !TablesFit(cx, Table(DROP), [], TABLE_STARTS, nodes, entries)
            && IsRun(cx, Table(DROP), [], calls, [Running(0, 0), Running(5, 1), Running(11, 0), Underflow(11)])
  {
    hide Width, Arms, Target, Layout, InBounds, IsCfg, PostFixpoint, AllInBounds, Leader, IsRun, Table, TablesFit,
         CallsMatch;
    TableReads(DROP);
    TableLayout(cx, DROP);
    TableCfg(cx, DROP);
    TableSettles(cx, DROP);
    TableRuns(cx, calls);
    var nodes, entries := TABLE_NODES, [Some([]), None];
    assert 11 in TABLE_STARTS;
    assert Passes(cx, Table(DROP), [], TABLE_STARTS, nodes, entries);
    TableCalls(cx, calls, entries);
    SoundIffTablesFit(cx, Table(DROP), [], TABLE_STARTS, nodes, entries, calls);
    var run := [Running(0, 0), Running(5, 1), Running(11, 0), Underflow(11)];
    assert !SoundAt(nodes, entries, run[3]);
  }

  lemma TableCalls(cx: Context, calls: int -> Signature, entries: seq<Entry>)
    requires |entries| == 2
    ensures Layout(Table(DROP), TABLE_STARTS) && AllInBounds(cx, Table(DROP), TABLE_STARTS)
    ensures CallsMatch(cx, Table(DROP), TABLE_STARTS, TABLE_NODES, entries, calls)
  {
    hide Layout, AllInBounds, Before;
    TableLayout(cx, DROP);
    var c, s := Table(DROP), TABLE_STARTS;
    forall m | 0 <= m < |s| - 1
      ensures 0 <= s[m] < |c| && c[s[m]] != CALL && c[s[m]] != RETURN_CALL && c[s[m]] != 180
    {
      assert s[m] in {0, 5, 9, 10, 11, 12};
    }
  }

  /** One element, the number 2, and an array to be made of two. */
  const ARRAY: seq<Byte> := [34, 0, 0, 0, 0, 34, 2, 0, 0, 0, 180, 0, 0, RETURN]

  ghost const ARRAY_STARTS: seq<int> := [0, 5, 10, 13, 14]

  ghost const ARRAY_NODES: seq<Node> := [Node(0, 14, {})]

  lemma ArrayReads()
    ensures Width(ARRAY, 0) == 5 && Width(ARRAY, 5) == 5 && Width(ARRAY, 10) == 3 && Width(ARRAY, 13) == 1
    ensures Arms(ARRAY, 0) == 0 && Arms(ARRAY, 5) == 0 && Arms(ARRAY, 10) == 0 && Arms(ARRAY, 13) == 0
    ensures Operand(ARRAY, 10) == 0
  {
  }

  lemma ArrayBounds(cx: Context)
    requires cx.types != []
    ensures InBounds(cx, ARRAY, 0) && InBounds(cx, ARRAY, 5) && InBounds(cx, ARRAY, 10) && InBounds(cx, ARRAY, 13)
  {
    hide Operand;
    ArrayReads();
  }

  lemma ArrayLayout(cx: Context)
    requires cx.types != []
    ensures Layout(ARRAY, ARRAY_STARTS) && AllInBounds(cx, ARRAY, ARRAY_STARTS)
  {
    hide Width, InBounds;
    ArrayReads();
    ArrayBounds(cx);
  }

  lemma PushOnStep(cx: Context, code: seq<Byte>, ip: int, st: seq<Slot>)
    requires 0 <= ip < |code| && InBounds(cx, code, ip) && code[ip] == 34
    ensures StepOf(cx, code, ip, st) == Continue(st + [Slot(I32, None)])
  {
    hide Operand, InBounds, CallEffect, AcceptsType, Fixed;
    Effects();
    assert Popped(st, []) == Some(st) && Untyped([I32]) == [Slot(I32, None)];
  }

  lemma ArrayStep(cx: Context)
    requires InBounds(cx, ARRAY, 10)
    ensures StepOf(cx, ARRAY, 10, [Slot(I32, None), Slot(I32, None)]) == Continue([Slot(Ref, None)])
  {
    hide Operand, InBounds, CallEffect, AcceptsType, Fixed;
    ArrayEffect();
    var st := [Slot(I32, None), Slot(I32, None)];
    assert Dropped(st, 1) == [Slot(I32, None)] && [I32, Any][1..] == [Any] && [Any][1..] == [];
    assert Popped([Slot(I32, None)], [Any]) == Some([]);
    assert Popped(st, [I32, Any]) == Some([]);
    assert Untyped([Ref]) == [Slot(Ref, None)];
  }

  lemma EndStep(cx: Context, code: seq<Byte>, ip: int, st: seq<Slot>)
    requires 0 <= ip < |code| && InBounds(cx, code, ip) && code[ip] == RETURN && cx.results <= |st|
    ensures StepOf(cx, code, ip, st) == Continue(st)
  {
    hide Operand, InBounds, CallEffect, AcceptsType, Fixed;
  }

  lemma ArrayCfg(cx: Context)
    requires cx.types != []
    ensures Layout(ARRAY, ARRAY_STARTS) && IsCfg(ARRAY, [], ARRAY_STARTS, ARRAY_NODES)
    ensures Terminates(cx, ARRAY, ARRAY_NODES)
  {
    hide Width, Arms, Target, Layout, InBounds;
    ArrayReads();
    ArrayLayout(cx);
    ArrayLasts();
    ArrayLeaders(cx);
    assert NodesBy(ARRAY, [], ARRAY_STARTS, ARRAY_NODES, [0]);
  }

  lemma ArrayLasts()
    ensures Blocks.Last(ARRAY, 0, 14) == 13
  {
    hide Width;
    ArrayReads();
    assert Blocks.Last(ARRAY, 13, 14) == 13;
    assert Blocks.Last(ARRAY, 10, 14) == 13;
    assert Blocks.Last(ARRAY, 5, 14) == 13;
  }

  lemma ArrayLeaders(cx: Context)
    requires cx.types != []
    ensures Layout(ARRAY, ARRAY_STARTS)
    ensures forall t :: Leader(ARRAY, [], ARRAY_STARTS, t) <==> t == 0
  {
    hide Width, Arms, Target, Layout, InBounds;
    ArrayReads();
    ArrayLayout(cx);
    forall t
      ensures Leads(ARRAY, ARRAY_STARTS, 4, t) ==> t == 14
    {
    }
  }

  lemma ArraySettles(cx: Context)
    requires cx.types != [] && cx.results <= 1
    ensures PostFixpoint(cx, ARRAY, [], ARRAY_NODES, [Some([])])
  {
    hide Width, StepOf, InBounds;
    var n := Slot(I32, None);
    ArrayReads();
    ArrayBounds(cx);
    PushOnStep(cx, ARRAY, 0, []);
    PushOnStep(cx, ARRAY, 5, [n]);
    ArrayStep(cx);
    EndStep(cx, ARRAY, 13, [Slot(Ref, None)]);
    assert [] + [n] == [n] && [n] + [n] == [n, n];
    assert ExecOf(cx, ARRAY, 13, 14, [Slot(Ref, None)]) == Continue([Slot(Ref, None)]);
    assert ExecOf(cx, ARRAY, 10, 14, [n, n]) == Continue([Slot(Ref, None)]);
    assert ExecOf(cx, ARRAY, 5, 14, [n]) == Continue([Slot(Ref, None)]);
    assert ExecOf(cx, ARRAY, 0, 14, []) == Continue([Slot(Ref, None)]);
  }

  lemma ArrayArms(cx: Context)
    requires cx.types != []
    ensures Layout(ARRAY, ARRAY_STARTS) && AllArmsOk(cx, ARRAY, Boundary(ARRAY_STARTS), ARRAY_STARTS, 4)
  {
    hide Width, Target, Arms, Layout;
    ArrayReads();
    ArrayLayout(cx);
  }

  /** The verifier accepts an array to be made of more elements than there are. */
  method ArrayAccepted(cx: Context) returns (r: Verify.Outcome)
    requires cx.types != [] && cx.results <= 1
    ensures r == Verify.Accepted
  {
    hide Width, Arms, Target, Layout, InBounds, IsCfg, PostFixpoint, Leader, AllInBounds, AllArmsOk, Stops, Terminates;
    ArrayReads();
    ArrayLayout(cx);
    ArrayCfg(cx);
    ArraySettles(cx);
    ArrayArms(cx);
    r := Accepts(cx, ARRAY, ARRAY_STARTS, ARRAY_NODES, [Some([])]);
  }

  /** The accepted body meets every assumption of the exact condition, but its array is made of two elements: its run
      underflows there. */
  lemma ArrayUnderflows(cx: Context, calls: int -> Signature)
    requires cx.types != [] && cx.results <= 1 && calls(10).params == 2
    ensures Layout(ARRAY, ARRAY_STARTS) && AllInBounds(cx, ARRAY, ARRAY_STARTS)
    ensures Verified(cx, ARRAY, [], ARRAY_STARTS, ARRAY_NODES, [Some([])])
    ensures TablesFit(cx, ARRAY, [], ARRAY_STARTS, ARRAY_NODES, [Some([])])
    ensures IsRun(cx, ARRAY, [], calls, [Running(0, 0), Running(5, 1), Running(10, 2), Underflow(10)])
  {
    hide Width, Arms, Target, Layout, InBounds, IsCfg, PostFixpoint, AllInBounds, Leader, IsRun, TableFits;
    ArrayReads();
    ArrayLayout(cx);
    ArrayCfg(cx);
    ArraySettles(cx);
    ArrayRuns(cx, calls);
  }

  lemma ArrayRuns(cx: Context, calls: int -> Signature)
    requires cx.types != [] && calls(10).params == 2
    ensures IsRun(cx, ARRAY, [], calls, [Running(0, 0), Running(5, 1), Running(10, 2), Underflow(10)])
  {
    hide Width, Arms, Target, InBounds, Operand, Blocks.ArmLeads, Fixed;
    ArrayReads();
    ArrayBounds(cx);
    assert HandsOf(34) == Some(Hands([], [I32]));
    assert Moves(cx, ARRAY, [], calls, Running(0, 0), Running(5, 1));
    assert Moves(cx, ARRAY, [], calls, Running(5, 1), Running(10, 2));
    assert Moves(cx, ARRAY, [], calls, Running(10, 2), Underflow(10));
  }
}
