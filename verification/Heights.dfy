/** What a passed verification promises of every run: operand heights are the computed ones, and nothing
    underflows. */
module Heights {
  import opened Bytecode
  import opened Stacks
  import opened Verifier
  import opened Checker
  import opened Dataflow
  import opened Opcodes
  import Blocks
  import Compaction

  /** Operands an instruction reads, takes and leaves. */
  datatype Use = Use(need: nat, pop: nat, push: nat)

  /** What is settled at an offset only at run time: the signature of the function called, or, of a new array, how many
      elements it is given. */
  datatype Signature = Signature(params: nat, results: nat)

  /** What the machine does with the operand stack. None is decided at run time. */
  function UseOf(cx: Context, code: seq<Byte>, ip: int, sig: Signature): (r: Option<Use>)
    requires 0 <= ip < |code| && InBounds(cx, code, ip)
    ensures r.Some? ==> r.value.pop <= r.value.need
  {
    match code[ip]
    case 0 => Some(Use(0, 0, 0))
    case 1 => Some(Use(0, 0, 0))
    case 3 => Some(Use(1, 0, 1))
    case 4 => Some(Use(2, 0, 0))
    case 5 => Some(Use(0, 0, 0))
    case 8 => Some(Use(3, 3, 1))
    case 9 => Some(Use(1 + sig.params, 1 + sig.params, sig.results))
    case 10 => Some(Use(cx.results, 0, 0))
    case 11 => Some(Use(1 + sig.params, 1 + sig.params, 0))
    case 18 => Some(Use(1, 0, 0))
    case 21 => Some(Use(1, 0, 0))
    case 180 => Some(Use(1 + sig.params, 1 + sig.params, 1))
    case 190 =>
      var n := Operand(code, ip);
      if cx.types[n].Struct? then Some(Use(|cx.types[n].fields|, |cx.types[n].fields|, 1)) else None
    case op =>
      if HandsOf(op).None? then None
      else Some(Use(|HandsOf(op).value.takes|, |HandsOf(op).value.takes|, |HandsOf(op).value.gives|))
  }

  datatype Height = Running(ip: int, h: int) | Left | Underflow(ip: int)

  /** Control can pass from the instruction at ip to ip' without raising. */
  ghost predicate Goes(code: seq<Byte>, ip: int, ip': int)
    requires 0 <= ip < |code|
  {
    || (Blocks.FallsThrough(code[ip]) && ip' == ip + Width(code, ip))
    || (IsBranch(code[ip]) && Blocks.ArmLeads(code, ip, Arms(code, ip), ip'))
  }

  /** The height a handler restores, with the exception on top. */
  function Landed(cx: Context, h: Handler): int {
    h.depth - |cx.locals| + 1
  }

  /** One step of the machine: any instruction may also raise. */
  ghost predicate Moves(cx: Context, code: seq<Byte>, hs: seq<Handler>, calls: int -> Signature, x: Height, y: Height) {
    && x.Running? && 0 <= x.ip < |code| && InBounds(cx, code, x.ip)
    && var u := UseOf(cx, code, x.ip, calls(x.ip));
    if u.Some? && x.h < u.value.need then y == Underflow(x.ip)
    else
      || (y.Running? && Goes(code, x.ip, y.ip) && (u.Some? ==> y.h == x.h - u.value.pop + u.value.push))
      || (y == Left && Stops(code[x.ip]))
      || (match HandlerFor(hs, x.ip)
          case None => y == Left
          case Some(h) => y == Running(h.catch, Landed(cx, h)))
  }

  ghost predicate IsRun(cx: Context, code: seq<Byte>, hs: seq<Handler>, calls: int -> Signature, run: seq<Height>) {
    |run| > 0 && run[0] == Running(0, 0) && forall n ::
        0 <= n < |run| - 1 ==> Moves(cx, code, hs, calls, run[n], run[n + 1])
  }

  /** The abstract stack before instruction m, when it is st before instruction k. */
  ghost function Before(cx: Context, code: seq<Byte>, s: seq<int>, k: int, st: seq<Slot>, m: int): Option<seq<Slot>>
    requires Layout(code, s) && AllInBounds(cx, code, s) && 0 <= k <= m < |s|
    decreases m
  {
    if m == k then Some(st)
    else
      var b := Before(cx, code, s, k, st, m - 1);
      if b.None? || Stops(code[s[m - 1]]) then None
      else
        var v := StepOf(cx, code, s[m - 1], b.value);
        if v.Continue? then Some(v.st) else None
  }

  /** The instruction at which block j starts. */
  ghost predicate StartsAt(s: seq<int>, nodes: seq<Node>, j: int, k: int) {
    0 <= j < |nodes| && 0 <= k < |s| && s[k] == nodes[j].start
  }

  /** Functions called have the signature the analysis found on the stack. */
  ghost predicate CallsMatch(cx: Context, code: seq<Byte>, s: seq<int>, nodes: seq<Node>, entries: seq<Entry>,
                             calls: int -> Signature)
    requires Layout(code, s) && AllInBounds(cx, code, s) && |entries| == |nodes|
  {
    forall j, k, m :: StartsAt(s, nodes, j, k) && k <= m < |s| - 1 && entries[j].Some? ==>
      Matches(code, s[m], Before(cx, code, s, k, entries[j].value, m), calls(s[m]))
  }

  /** A call finds a function of the signature known of it, and an array is made of one element, which is what the
      analysis takes an array to be made of. */
  ghost predicate Matches(code: seq<Byte>, ip: int, b: Option<seq<Slot>>, sig: Signature) {
    0 <= ip < |code| ==>
      && (code[ip] == 180 ==> sig.params == 1)
      && (code[ip] == CALL || code[ip] == RETURN_CALL ==>
            match Known(b) case Some(Fn(params, results)) => sig == Signature(|params|, |results|) case _ => true)
  }

  /** What is known of the type on top. */
  function Known(b: Option<seq<Slot>>): Option<Type> {
    if b.None? || b.value == [] then None else Top(b.value).typ
  }

  lemma VariableHands(op: Byte)
    ensures op in {GLOBAL_GET, LOCAL_GET, CONST_GET, UPVAL_GET} ==> HandsOf(op) == Some(Hands([], [Any]))
    ensures op == GLOBAL_SET ==> HandsOf(op) == Some(Hands([Any], []))
    ensures Bitwise(op) ==> HandsOf(op) == Some(Hands([I32, I32], [I32]))
    ensures op in {187, MAP_NEW, CLOSURE_NEW} ==> HandsOf(op) == None
  {
  }

  /** The verifier lets through the opcodes that have handlers. */
  lemma DefinedIff(op: Byte)
    ensures Defined(op) <==> HandsOf(op).Some? || op in {0, 1, 3, 4, 5, 8, 9, 10, 11, 18, 21, 180, 187, 190, 194, 203}
  {
    if op < 210 {
      DefinedBelow(op);
    }
  }

  lemma DefinedBelow(op: Byte)
    requires op < 210
    ensures HandsOf(op).Some? || op in {0, 1, 3, 4, 5, 8, 9, 10, 11, 18, 21, 180, 187, 190, 194, 203}
  {
  }

  /** The analysis of a block ends at the opcodes that no machine goes on from, branches aside. */
  lemma StopsIff(op: Byte)
    ensures Stops(op) <==> op in {1, 10, 11, 205}
    ensures Stops(op) <==> !Blocks.FallsThrough(op) && !IsBranch(op)
  {
  }

  /** An abstract step has the machine's effect on the height. */
  lemma StepHeight(cx: Context, code: seq<Byte>, ip: int, st: seq<Slot>, sig: Signature)
    requires 0 <= ip < |code| && InBounds(cx, code, ip)
    requires StepOf(cx, code, ip, st).Continue? && Matches(code, ip, Some(st), sig)
    ensures var u := UseOf(cx, code, ip, sig);
            u.Some? && |st| >= u.value.need && |StepOf(cx, code, ip, st).st| == |st| - u.value.pop + u.value.push
  {
    hide Fixed, HandsOf, Popped, AcceptsType, Operand, InBounds;
    ArrayEffect();
    VariableHands(code[ip]);
    if code[ip] != 180 {
      HandsMatch(code[ip]);
    }
  }

  ghost predicate Within(nodes: seq<Node>, j: int, ip: int) {
    0 <= j < |nodes| && nodes[j].start <= ip < nodes[j].end
  }

  /** The machine's height at x is the abstract one. */
  ghost predicate Tracked(cx: Context, code: seq<Byte>, s: seq<int>, nodes: seq<Node>, entries: seq<Entry>, ip: int,
                          h: int, j: int, k: int, m: int)
    requires Layout(code, s) && AllInBounds(cx, code, s) && |entries| == |nodes|
  {
    && StartsAt(s, nodes, j, k) && k <= m < |s| - 1 && s[m] == ip && Within(nodes, j, ip) && entries[j].Some?
    && var b := Before(cx, code, s, k, entries[j].value, m);
    b.Some? && |b.value| == h
  }

  ghost predicate Tracks(cx: Context, code: seq<Byte>, s: seq<int>, nodes: seq<Node>, entries: seq<Entry>, x: Height)
    requires Layout(code, s) && AllInBounds(cx, code, s) && |entries| == |nodes|
  {
    match x
    case Running(ip, h) => ip == |code| || exists j, k, m :: Tracked(cx, code, s, nodes, entries, ip, h, j, k, m)
    case Left => true
    case Underflow(_) => false
  }

  /** From instruction m on, the block does what it does from its start. */
  lemma {:induction false} ExecFrom(cx: Context, code: seq<Byte>, s: seq<int>, k: int, st: seq<Slot>, m: int, end: int)
    requires Layout(code, s) && AllInBounds(cx, code, s) && 0 <= k <= m < |s| - 1 && s[m] < end <= |code|
    requires Before(cx, code, s, k, st, m).Some?
    ensures ExecOf(cx, code, s[k], end, st) == ExecOf(cx, code, s[m], end, Before(cx, code, s, k, st, m).value)
    decreases m
  {
    hide StepOf, Layout, InBounds, Width, AllInBounds;
    if m > k {
      Compaction.SortedStarts(code, s);
      ExecFrom(cx, code, s, k, st, m - 1, end);
      InstrHere(cx, code, s, m - 1);
    }
  }

  /** In a settled block every tracked instruction steps. */
  lemma TrackedSteps(cx: Context, code: seq<Byte>, s: seq<int>, nodes: seq<Node>, entries: seq<Entry>, ip: int, h: int,
                     j: int, k: int, m: int)
    requires Layout(code, s) && AllInBounds(cx, code, s) && |entries| == |nodes|
    requires Tracked(cx, code, s, nodes, entries, ip, h, j, k, m) && Settled(cx, code, nodes, entries, j)
    requires nodes[j].end <= |code|
    ensures 0 <= ip < |code| && InBounds(cx, code, ip)
    ensures StepOf(cx, code, ip, Before(cx, code, s, k, entries[j].value, m).value).Continue?
    ensures s[m + 1] >= nodes[j].end || Stops(code[ip]) ==>
              Exit(cx, code, nodes[j], entries[j].value) ==
                  StepOf(cx, code, ip, Before(cx, code, s, k, entries[j].value, m).value)
  {
    hide StepOf, Layout, Width, AllInBounds, InBounds, Admits;
    ExecFrom(cx, code, s, k, entries[j].value, m, nodes[j].end);
    InstrHere(cx, code, s, m);
  }

  /** Each jump table ends its block. */
  ghost predicate TablesEnd(code: seq<Byte>, hs: seq<Handler>, s: seq<int>)
    requires Layout(code, s)
  {
    forall k :: 0 <= k < |s| - 1 && code[s[k]] == BR_TABLE ==> s[k + 1] == |code| || Leader(code, hs, s, s[k + 1])
  }

  /** A jump table after which neither a block starts nor the code ends. */
  ghost predicate Interior(code: seq<Byte>, hs: seq<Handler>, s: seq<int>, m: int)
    requires Layout(code, s)
  {
    0 <= m < |s| - 1 && code[s[m]] == BR_TABLE && s[m + 1] != |code| && !Leader(code, hs, s, s[m + 1])
  }

  /** No handler restores less than the locals. */
  ghost predicate DepthsOk(cx: Context, hs: seq<Handler>) {
    forall h :: h in hs ==> h.depth >= |cx.locals|
  }

  /** The passes succeeded, on a body whose handlers keep the locals. */
  ghost predicate Passes(cx: Context, code: seq<Byte>, hs: seq<Handler>, s: seq<int>, nodes: seq<Node>,
                         entries: seq<Entry>) {
    && Layout(code, s) && |code| > 0 && AllInBounds(cx, code, s) && Aligned(cx, code, hs, s)
    && IsCfg(code, hs, s, nodes)
    && PostFixpoint(cx, code, hs, nodes, entries) && DepthsOk(cx, hs)
  }

  /** The passes succeeded, with the stated assumptions on what they do not look at. */
  ghost predicate Verified(cx: Context, code: seq<Byte>, hs: seq<Handler>, s: seq<int>, nodes: seq<Node>,
                           entries: seq<Entry>) {
    Passes(cx, code, hs, s, nodes, entries) && TablesEnd(code, hs, s)
  }

  /** Control can pass from x to y: without raising, or to the handler in charge. */
  ghost predicate CanPass(code: seq<Byte>, hs: seq<Handler>, x: int, y: int) {
    0 <= x < |code| && (Goes(code, x, y) || (HandlerFor(hs, x).Some? && y == HandlerFor(hs, x).value.catch))
  }

  ghost predicate Walk(code: seq<Byte>, hs: seq<Handler>, p: seq<int>) {
    |p| > 0 && p[0] == 0 && forall i :: 0 <= i < |p| - 1 ==> CanPass(code, hs, p[i], p[i + 1])
  }

  /** Some way through the code leads to x, whatever the operands. */
  ghost predicate Reached(code: seq<Byte>, hs: seq<Handler>, x: int) {
    exists p :: Walk(code, hs, p) && p[|p| - 1] == x
  }

  /** Every block a jump table leads to starts with the height the table leaves. */
  ghost predicate TableFits(cx: Context, code: seq<Byte>, s: seq<int>, nodes: seq<Node>, entries: seq<Entry>, m: int)
    requires Layout(code, s) && AllInBounds(cx, code, s) && |entries| == |nodes| && 0 <= m < |s| - 1
  {
    forall j, k, i ::
        StartsAt(s, nodes, j, k) && k <= m && Within(nodes, j, s[m]) && LeadsInto(code, s[m], nodes, i) ==>
      FitsAt(cx, code, s, entries, j, k, m, i)
  }

  ghost predicate LeadsInto(code: seq<Byte>, ip: int, nodes: seq<Node>, i: int) {
    0 <= ip < |code| && 0 <= i < |nodes| && Blocks.ArmLeads(code, ip, Arms(code, ip), nodes[i].start)
  }

  ghost predicate FitsAt(cx: Context, code: seq<Byte>, s: seq<int>, entries: seq<Entry>, j: int, k: int, m: int, i: int)
    requires Layout(code, s) && AllInBounds(cx, code, s) && 0 <= k <= m < |s| - 1 && 0 <= j < |entries|
    requires 0 <= i < |entries|
  {
    entries[j].Some? && Before(cx, code, s, k, entries[j].value, m).Some? ==>
      entries[i].Some? && |entries[i].value| == |Before(cx, code, s, k, entries[j].value, m).value| - 1
  }

  /** Every jump table inside a block that control can reach fits the blocks it leads to. */
  ghost predicate TablesFit(cx: Context, code: seq<Byte>, hs: seq<Handler>, s: seq<int>, nodes: seq<Node>,
                            entries: seq<Entry>)
    requires Layout(code, s) && AllInBounds(cx, code, s) && |entries| == |nodes|
  {
    forall m :: Interior(code, hs, s, m) && Reached(code, hs, s[m]) ==> TableFits(cx, code, s, nodes, entries, m)
  }

  /** Blocks are stretches of whole instructions. */
  lemma BlockSpan(cx: Context, code: seq<Byte>, hs: seq<Handler>, s: seq<int>, nodes: seq<Node>, starts: seq<int>,
                  j: int)
    requires Layout(code, s) && |code| > 0 && Aligned(cx, code, hs, s) && NodesBy(code, hs, s, nodes, starts)
    requires 0 <= j < |nodes|
    ensures nodes[j].start == starts[j] && nodes[j].start in s
    ensures nodes[j].end == Blocks.EndOf(starts, |code|, j) && nodes[j].end in s
    ensures 0 <= nodes[j].start < nodes[j].end <= |code|
    ensures j + 1 < |nodes| ==> nodes[j].end == nodes[j + 1].start
    ensures j + 1 == |nodes| ==> nodes[j].end == |code|
  {
    hide Leader, Aligned, Flows, Layout;
    LayoutEnds(code, s);
    LeadersInside(code, hs, s, starts);
    assert NodeIs(code, starts, nodes[j], j);
    assert starts[j] in starts;
    LeaderAligned(cx, code, hs, s, starts[j]);
    if j + 1 < |nodes| {
      assert NodeIs(code, starts, nodes[j + 1], j + 1);
      assert starts[j + 1] in starts;
      LeaderAligned(cx, code, hs, s, starts[j + 1]);
    }
  }

  /** Nothing starts a block strictly inside another. */
  lemma NoLeaderInside(code: seq<Byte>, hs: seq<Handler>, s: seq<int>, starts: seq<int>, j: int, x: int)
    requires Layout(code, s) && StartsOk(code, hs, s, starts) && 0 <= j < |starts|
    requires starts[j] < x < Blocks.EndOf(starts, |code|, j)
    ensures !Leader(code, hs, s, x)
  {
    hide Leader, Layout;
    Blocks.EndsBefore(starts, |code|);
    assert x !in starts;
  }

  /** What ends a block or branches is followed by a block or by the end of the code. */
  lemma LeaderAfter(code: seq<Byte>, hs: seq<Handler>, s: seq<int>, m: int)
    requires Layout(code, s) && 0 <= m < |s| - 1 && !Interior(code, hs, s, m)
    ensures 0 <= s[m] < s[m + 1] <= |code|
    ensures IsBranch(code[s[m]]) && s[m + 1] != |code| ==> Leader(code, hs, s, s[m + 1])
  {
    hide Blocks.Bounds, Blocks.ArmLeads, Layout;
    Blocks.SlotsOf(code, s);
    LayoutNext(code, s, m);
    if Splits(code[s[m]]) {
      assert Leads(code, s, |s| - 1, s[m + 1]);
    }
  }

  /** The last instruction of a block reaches exactly to its end; a branch is always the last. */
  lemma LastOne(cx: Context, code: seq<Byte>, hs: seq<Handler>, s: seq<int>, nodes: seq<Node>, starts: seq<int>, j: int,
                m: int)
    requires Layout(code, s) && |code| > 0 && Aligned(cx, code, hs, s) && NodesBy(code, hs, s, nodes, starts)
    requires !Interior(code, hs, s, m)
    requires 0 <= m < |s| - 1 && Within(nodes, j, s[m]) && (s[m + 1] >= nodes[j].end || IsBranch(code[s[m]]))
    ensures s[m + 1] == nodes[j].end
    ensures 0 <= starts[j] < nodes[j].end <= |code| && Blocks.Last(code, starts[j], nodes[j].end) == s[m]
  {
    hide Leader, Aligned, Flows, Layout, Interior, Blocks.Last, NodesBy;
    BlockSpan(cx, code, hs, s, nodes, starts, j);
    StartsFrom(code, hs, s, nodes, starts);
    LeaderAfter(code, hs, s, m);
    Blocks.Ends(code, s, m, nodes[j].end);
    if s[m + 1] < nodes[j].end {
      NoLeaderInside(code, hs, s, starts, j, s[m + 1]);
    }
    Blocks.StartOf(code, s, starts[j], m, nodes[j].end);
  }

  lemma StartsFrom(code: seq<Byte>, hs: seq<Handler>, s: seq<int>, nodes: seq<Node>, starts: seq<int>)
    requires Layout(code, s) && NodesBy(code, hs, s, nodes, starts)
    ensures |starts| == |nodes| && StartsOk(code, hs, s, starts)
  {
  }

  /** Control that enters a block with a height its entry admits is tracked. */
  lemma Enter(cx: Context, code: seq<Byte>, hs: seq<Handler>, s: seq<int>, nodes: seq<Node>, starts: seq<int>,
              entries: seq<Entry>, i: int, h: int)
    requires Layout(code, s) && |code| > 0 && AllInBounds(cx, code, s) && Aligned(cx, code, hs, s)
    requires NodesBy(code, hs, s, nodes, starts)
    requires |entries| == |nodes| && 0 <= i < |nodes| && entries[i].Some? && |entries[i].value| == h
    ensures Tracks(cx, code, s, nodes, entries, Running(nodes[i].start, h))
  {
    hide Leader, Aligned, Flows, Layout, NodesBy, StepOf, AllInBounds;
    BlockSpan(cx, code, hs, s, nodes, starts, i);
    LayoutEnds(code, s);
    var k :| 0 <= k < |s| && s[k] == nodes[i].start;
    assert Tracked(cx, code, s, nodes, entries, nodes[i].start, h, i, k, k);
  }

  /** Where control goes from instruction m of block j inside the code: on within the block, or along an edge. */
  lemma Edge(cx: Context, code: seq<Byte>, hs: seq<Handler>, s: seq<int>, nodes: seq<Node>, starts: seq<int>, j: int,
             m: int, ip': int) returns (i: int)
    requires Layout(code, s) && |code| > 0 && Aligned(cx, code, hs, s) && NodesBy(code, hs, s, nodes, starts)
    requires !Interior(code, hs, s, m)
    requires 0 <= m < |s| - 1 && Within(nodes, j, s[m]) && 0 <= s[m] < |code| && Goes(code, s[m], ip') && ip' != |code|
    ensures i == -1 ==> ip' == s[m + 1] < nodes[j].end && !Stops(code[s[m]])
    ensures i != -1 ==> 0 <= i < |nodes| && nodes[i].start == ip' && i in nodes[j].succs && s[m + 1] == nodes[j].end
  {
    hide Leader, Aligned, Layout, Interior, Blocks.Last, Width, Arms, Target;
    LayoutNext(code, s, m);
    if s[m + 1] < nodes[j].end && !IsBranch(code[s[m]]) {
      return -1;
    }
    LastOne(cx, code, hs, s, nodes, starts, j, m);
    BlockSpan(cx, code, hs, s, nodes, starts, j);
    assert NodeIs(code, starts, nodes[j], j);
    if Blocks.FallsThrough(code[s[m]]) && ip' == s[m + 1] {
      i := j + 1;
      BlockSpan(cx, code, hs, s, nodes, starts, i);
      assert Flows(code, starts, j, i);
    } else {
      ArmsLead(cx, code, hs, s, starts, m);
      ArmIn(code, s[m], starts, ip');
      i :| 0 <= i < |starts| && starts[i] == ip';
      assert Flows(code, starts, j, i);
      assert NodeIs(code, starts, nodes[i], i);
    }
  }

  lemma ArmIn(code: seq<Byte>, ip: int, starts: seq<int>, t: int)
    requires 0 <= ip < |code| && ArmsIn(code, ip, starts) && Blocks.ArmLeads(code, ip, Arms(code, ip), t) && t != |code|
    ensures t in starts
  {
    hide Arms, Target;
  }

  /** Tracked control that does not raise stays tracked, or a jump table inside a block takes it to another. */
  lemma GoesOn(cx: Context, code: seq<Byte>, hs: seq<Handler>, s: seq<int>, nodes: seq<Node>, starts: seq<int>,
               entries: seq<Entry>, ip: int, h: int, j: int, k: int, m: int, ip': int)
    requires Layout(code, s) && |code| > 0 && AllInBounds(cx, code, s) && Aligned(cx, code, hs, s)
    requires NodesBy(code, hs, s, nodes, starts)
    requires PostFixpoint(cx, code, hs, nodes, entries) && Tracked(cx, code, s, nodes, entries, ip, h, j, k, m)
    requires 0 <= ip < |code| && Goes(code, ip, ip') && InBounds(cx, code, ip)
    ensures var v := StepOf(cx, code, ip, Before(cx, code, s, k, entries[j].value, m).value);
            && v.Continue?
            && (Tracks(cx, code, s, nodes, entries, Running(ip', |v.st|))
                || (Interior(code, hs, s, m) && exists i :: LeadsInto(code, ip, nodes, i) && nodes[i].start == ip'))
  {
    hide Leader, Aligned, Layout, Interior, NodesBy, StepOf, AllInBounds, InBounds, Goes, Admits, SeedsIn, ExecOf,
         LeadsInto;
    BlockSpan(cx, code, hs, s, nodes, starts, j);
    TrackedSteps(cx, code, s, nodes, entries, ip, h, j, k, m);
    var v := StepOf(cx, code, ip, Before(cx, code, s, k, entries[j].value, m).value);
    if ip' != |code| {
      if Interior(code, hs, s, m) {
        var i := TableEdge(cx, code, hs, s, nodes, starts, m, ip');
      } else {
        var i := Edge(cx, code, hs, s, nodes, starts, j, m, ip');
        if i == -1 {
          LayoutNext(code, s, m);
          assert Tracked(cx, code, s, nodes, entries, ip', |v.st|, j, k, m + 1) by { InLast(code, s, m); }
        } else {
          assert Admits(entries[i], v.st);
          AdmitsHeight(entries[i], v.st);
          Enter(cx, code, hs, s, nodes, starts, entries, i, |v.st|);
        }
      }
    }
  }

  lemma AdmitsHeight(x: Entry, st: seq<Slot>)
    requires Admits(x, st)
    ensures x.Some? && |x.value| == |st|
  {
  }

  /** A jump table leads only to blocks. */
  lemma TableEdge(cx: Context, code: seq<Byte>, hs: seq<Handler>, s: seq<int>, nodes: seq<Node>, starts: seq<int>,
                  m: int, ip': int) returns (i: int)
    requires Layout(code, s) && |code| > 0 && Aligned(cx, code, hs, s) && NodesBy(code, hs, s, nodes, starts)
    requires Interior(code, hs, s, m) && 0 <= s[m] < |code| && Goes(code, s[m], ip') && ip' != |code|
    ensures LeadsInto(code, s[m], nodes, i) && nodes[i].start == ip'
  {
    hide Leader, Aligned, Layout, Width, Arms, Target;
    ArmsLead(cx, code, hs, s, starts, m);
    ArmIn(code, s[m], starts, ip');
    i :| 0 <= i < |starts| && starts[i] == ip';
    assert NodeIs(code, starts, nodes[i], i);
  }

  lemma InLast(code: seq<Byte>, s: seq<int>, m: int)
    requires Layout(code, s) && 0 <= m < |s| - 1
    ensures s[m + 1] < |code| ==> m + 1 < |s| - 1
  {
  }

  /** A caught exception is tracked. */
  lemma CaughtOn(cx: Context, code: seq<Byte>, hs: seq<Handler>, s: seq<int>, nodes: seq<Node>, starts: seq<int>,
                 entries: seq<Entry>, h: Handler)
    requires Layout(code, s) && |code| > 0 && AllInBounds(cx, code, s) && Aligned(cx, code, hs, s)
    requires NodesBy(code, hs, s, nodes, starts)
    requires PostFixpoint(cx, code, hs, nodes, entries) && DepthsOk(cx, hs) && h in hs
    ensures Tracks(cx, code, s, nodes, entries, Running(h.catch, Landed(cx, h)))
  {
    hide Layout, AllInBounds, Settled, Admits, Tracks, Flows, Leads;
    CatchLeads(cx, code, hs, s, h);
    assert h.catch in starts;
    var i :| 0 <= i < |starts| && starts[i] == h.catch;
    assert NodeIs(code, starts, nodes[i], i);
    var n :| 0 <= n < |hs| && hs[n] == h;
    assert Admits(entries[i], Seed(cx, hs[n]));
    AdmitsHeight(entries[i], Seed(cx, hs[n]));
    Enter(cx, code, hs, s, nodes, starts, entries, i, |Seed(cx, h)|);
  }

  lemma CatchLeads(cx: Context, code: seq<Byte>, hs: seq<Handler>, s: seq<int>, h: Handler)
    requires Layout(code, s) && Aligned(cx, code, hs, s) && h in hs
    ensures Leader(code, hs, s, h.catch)
  {
    hide Leads;
  }

  /** One machine step from a tracked state does not underflow, and leads to a tracked state or, by a jump table inside
      a block, to the start of a block. */
  lemma StepArrives(cx: Context, code: seq<Byte>, hs: seq<Handler>, s: seq<int>, nodes: seq<Node>, entries: seq<Entry>,
                    calls: int -> Signature, x: Height, y: Height)
    requires Passes(cx, code, hs, s, nodes, entries) && CallsMatch(cx, code, s, nodes, entries, calls)
    requires Tracks(cx, code, s, nodes, entries, x) && Moves(cx, code, hs, calls, x, y)
    ensures Tracks(cx, code, s, nodes, entries, y) ||
      (y.Running? && exists i :: 0 <= i < |nodes| && nodes[i].start == y.ip)
    ensures (forall m ::
      Interior(code, hs, s, m) && x.Running? && s[m] == x.ip ==> TableFits(cx, code, s, nodes, entries, m)) ==>
              Tracks(cx, code, s, nodes, entries, y)
  {
    hide Layout, AllInBounds, Aligned, NodesBy, DepthsOk, PostFixpoint, Goes, UseOf, StepOf, Tracked, InBounds,
         HandlerFor, Landed, Before, CallsMatch, Interior, TableFits, Arms, Blocks.ArmLeads;
    var starts :| NodesBy(code, hs, s, nodes, starts);
    EntriesFit(cx, code, hs, nodes, entries);
    var j, k, m :| Tracked(cx, code, s, nodes, entries, x.ip, x.h, j, k, m);
    StepsHere(cx, code, hs, s, nodes, starts, entries, calls, x.ip, x.h, j, k, m);
    if y.Running? && Goes(code, x.ip, y.ip) && y.h == HeightAfter(cx, code, x.ip, calls(x.ip), x.h) {
      GoesOn(cx, code, hs, s, nodes, starts, entries, x.ip, x.h, j, k, m, y.ip);
      if !Tracks(cx, code, s, nodes, entries, y) {
        var i :| LeadsInto(code, x.ip, nodes, i) && nodes[i].start == y.ip;
        TableArrives(cx, code, hs, s, nodes, starts, entries, x.ip, x.h, j, k, m, i);
        TrackedAt(cx, code, s, nodes, entries, x.ip, x.h, j, k, m);
        TableLowers(cx, code, hs, s, m, Before(cx, code, s, k, entries[j].value, m).value);
      }
    } else {
      Blocks.HandlerIn(hs, x.ip);
      if y.Running? {
        CaughtOn(cx, code, hs, s, nodes, starts, entries, HandlerFor(hs, x.ip).value);
      }
    }
  }

  lemma TrackedAt(cx: Context, code: seq<Byte>, s: seq<int>, nodes: seq<Node>, entries: seq<Entry>, ip: int, h: int,
                  j: int, k: int, m: int)
    requires Layout(code, s) && AllInBounds(cx, code, s) && |entries| == |nodes|
    requires Tracked(cx, code, s, nodes, entries, ip, h, j, k, m)
    ensures 0 <= k <= m < |s| - 1 && s[m] == ip && 0 <= j < |entries| && entries[j].Some? && Within(nodes, j, ip)
    ensures StartsAt(s, nodes, j, k)
    ensures Before(cx, code, s, k, entries[j].value, m).Some?
    ensures |Before(cx, code, s, k, entries[j].value, m).value| == h
  {
    hide Before;
  }

  /** A jump table takes one operand. */
  lemma TableLowers(cx: Context, code: seq<Byte>, hs: seq<Handler>, s: seq<int>, m: int, st: seq<Slot>)
    requires Layout(code, s) && Interior(code, hs, s, m) && 0 <= s[m] < |code| && InBounds(cx, code, s[m])
    ensures var v := StepOf(cx, code, s[m], st); v.Continue? ==> |v.st| == |st| - 1
  {
    hide Leader, Operand, AcceptsType, CallEffect, Layout;
    assert Fixed(BR_TABLE) == Some(Effect([I32], []));
  }

  lemma TableArrives(cx: Context, code: seq<Byte>, hs: seq<Handler>, s: seq<int>, nodes: seq<Node>, starts: seq<int>,
                     entries: seq<Entry>, ip: int, h: int, j: int, k: int, m: int, i: int)
    requires Layout(code, s) && |code| > 0 && AllInBounds(cx, code, s) && Aligned(cx, code, hs, s)
    requires NodesBy(code, hs, s, nodes, starts)
    requires |entries| == |nodes| && Tracked(cx, code, s, nodes, entries, ip, h, j, k, m)
    requires LeadsInto(code, ip, nodes, i)
    ensures 0 <= m < |s| - 1 && s[m] == ip && 0 <= i < |nodes|
    ensures TableFits(cx, code, s, nodes, entries, m) ==>
      Tracks(cx, code, s, nodes, entries, Running(nodes[i].start, h - 1))
  {
    hide Layout, AllInBounds, Aligned, NodesBy, Before, LeadsInto, Within;
    TrackedAt(cx, code, s, nodes, entries, ip, h, j, k, m);
    IntoBlock(code, ip, nodes, i);
    if TableFits(cx, code, s, nodes, entries, m) {
      assert FitsAt(cx, code, s, entries, j, k, m, i);
      Enter(cx, code, hs, s, nodes, starts, entries, i, h - 1);
    }
  }

  lemma IntoBlock(code: seq<Byte>, ip: int, nodes: seq<Node>, i: int)
    requires LeadsInto(code, ip, nodes, i)
    ensures 0 <= ip < |code| && 0 <= i < |nodes|
  {
  }

  lemma EntriesFit(cx: Context, code: seq<Byte>, hs: seq<Handler>, nodes: seq<Node>, entries: seq<Entry>)
    requires PostFixpoint(cx, code, hs, nodes, entries)
    ensures |entries| == |nodes|
  {
  }

  ghost function HeightAfter(cx: Context, code: seq<Byte>, ip: int, sig: Signature, h: int): int
    requires 0 <= ip < |code| && InBounds(cx, code, ip)
  {
    var u := UseOf(cx, code, ip, sig);
    if u.Some? then h - u.value.pop + u.value.push else h
  }

  /** At a tracked instruction the machine has the operands it needs, and the effect the analysis computed. */
  lemma StepsHere(cx: Context, code: seq<Byte>, hs: seq<Handler>, s: seq<int>, nodes: seq<Node>, starts: seq<int>,
                  entries: seq<Entry>, calls: int -> Signature, ip: int, h: int, j: int, k: int, m: int)
    requires Layout(code, s) && |code| > 0 && AllInBounds(cx, code, s) && Aligned(cx, code, hs, s)
    requires NodesBy(code, hs, s, nodes, starts)
    requires PostFixpoint(cx, code, hs, nodes, entries) && CallsMatch(cx, code, s, nodes, entries, calls)
    requires Tracked(cx, code, s, nodes, entries, ip, h, j, k, m)
    ensures 0 <= ip < |code| && InBounds(cx, code, ip)
    ensures var u, v := UseOf(cx, code, ip, calls(ip)),
      StepOf(cx, code, ip, Before(cx, code, s, k, entries[j].value, m).value);
            u.Some? && h >= u.value.need && v.Continue? && |v.st| == HeightAfter(cx, code, ip, calls(ip), h)
  {
    hide Layout, AllInBounds, Aligned, NodesBy, UseOf, StepOf, InBounds, Exit, Admits, SeedsIn;
    BlockSpan(cx, code, hs, s, nodes, starts, j);
    TrackedSteps(cx, code, s, nodes, entries, ip, h, j, k, m);
    StepHeight(cx, code, ip, Before(cx, code, s, k, entries[j].value, m).value, calls(ip));
  }

  /** What a run passes, control can reach. */
  lemma {:induction false} RunWalks(cx: Context, code: seq<Byte>, hs: seq<Handler>, calls: int -> Signature,
                                    run: seq<Height>, n: nat) returns (p: seq<int>)
    requires IsRun(cx, code, hs, calls, run) && n < |run| && run[n].Running?
    ensures Walk(code, hs, p) && p[|p| - 1] == run[n].ip
  {
    hide Goes, UseOf, InBounds, HandlerFor;
    if n == 0 {
      p := [0];
    } else {
      assert Moves(cx, code, hs, calls, run[n - 1], run[n]);
      var q := RunWalks(cx, code, hs, calls, run, n - 1);
      assert CanPass(code, hs, run[n - 1].ip, run[n].ip);
      p := q + [run[n].ip];
    }
  }

  /** The start of every run is tracked. */
  lemma StartTracked(cx: Context, code: seq<Byte>, hs: seq<Handler>, s: seq<int>, nodes: seq<Node>, entries: seq<Entry>)
    requires Passes(cx, code, hs, s, nodes, entries)
    ensures Tracks(cx, code, s, nodes, entries, Running(0, 0))
  {
    hide Layout, AllInBounds, Aligned, DepthsOk, Tracked, Settled, SeedsIn, Leader, Flows;
    var starts :| NodesBy(code, hs, s, nodes, starts);
    assert NodeIs(code, starts, nodes[0], 0);
    Enter(cx, code, hs, s, nodes, starts, entries, 0, 0);
  }

  /** Every state of every run is tracked: no run underflows. */
  lemma {:induction false} RunsTracked(cx: Context, code: seq<Byte>, hs: seq<Handler>, s: seq<int>, nodes: seq<Node>,
                                       entries: seq<Entry>, calls: int -> Signature, run: seq<Height>, n: nat)
    requires Passes(cx, code, hs, s, nodes, entries) && CallsMatch(cx, code, s, nodes, entries, calls)
    requires TablesFit(cx, code, hs, s, nodes, entries)
    requires IsRun(cx, code, hs, calls, run) && n < |run|
    ensures Tracks(cx, code, s, nodes, entries, run[n]) && !run[n].Underflow?
  {
    hide Layout, Passes, AllInBounds, Tracked, Moves, CallsMatch, Interior, TableFits, Walk;
    PassesFit(cx, code, hs, s, nodes, entries);
    if n == 0 {
      StartTracked(cx, code, hs, s, nodes, entries);
    } else {
      RunsTracked(cx, code, hs, s, nodes, entries, calls, run, n - 1);
      assert Moves(cx, code, hs, calls, run[n - 1], run[n]);
      MovesRunning(cx, code, hs, calls, run[n - 1], run[n]);
      var p := RunWalks(cx, code, hs, calls, run, n - 1);
      StepArrives(cx, code, hs, s, nodes, entries, calls, run[n - 1], run[n]);
    }
  }

  lemma MovesRunning(cx: Context, code: seq<Byte>, hs: seq<Handler>, calls: int -> Signature, x: Height, y: Height)
    requires Moves(cx, code, hs, calls, x, y)
    ensures x.Running? && 0 <= x.ip < |code|
  {
    hide UseOf, InBounds, Goes;
  }

  lemma PassesFit(cx: Context, code: seq<Byte>, hs: seq<Handler>, s: seq<int>, nodes: seq<Node>, entries: seq<Entry>)
    requires Passes(cx, code, hs, s, nodes, entries)
    ensures Layout(code, s) && |code| > 0 && AllInBounds(cx, code, s) && |entries| == |nodes|
  {
    hide Layout, AllInBounds, Aligned, IsCfg, DepthsOk;
  }

  /** A body whose jump tables all end their blocks fits. */
  lemma NoneInterior(cx: Context, code: seq<Byte>, hs: seq<Handler>, s: seq<int>, nodes: seq<Node>, entries: seq<Entry>)
    requires Verified(cx, code, hs, s, nodes, entries)
    ensures Layout(code, s) && AllInBounds(cx, code, s) && |entries| == |nodes|
    ensures TablesFit(cx, code, hs, s, nodes, entries)
  {
    hide Layout, Passes, AllInBounds, Leader, Walk;
    PassesFit(cx, code, hs, s, nodes, entries);
  }

  /** A tracked state at the start of a block has the computed height. */
  lemma TrackedStart(cx: Context, code: seq<Byte>, hs: seq<Handler>, s: seq<int>, nodes: seq<Node>, entries: seq<Entry>,
                     x: Height, i: int)
    requires Passes(cx, code, hs, s, nodes, entries) && |entries| == |nodes| && Layout(code, s)
    requires AllInBounds(cx, code, s)
    requires x.Running? && Tracks(cx, code, s, nodes, entries, x) && 0 <= i < |nodes| && x.ip == nodes[i].start
    ensures entries[i].Some? && x.h == |entries[i].value|
  {
    hide Layout, AllInBounds, Aligned, DepthsOk, Settled, SeedsIn, Leader, Flows, StepOf;
    var starts :| NodesBy(code, hs, s, nodes, starts);
    BlockSpan(cx, code, hs, s, nodes, starts, i);
    var j, k, m :| Tracked(cx, code, s, nodes, entries, x.ip, x.h, j, k, m);
    BlockSpan(cx, code, hs, s, nodes, starts, j);
    Blocks.EndsBefore(starts, |code|);
    assert i == j;
    Compaction.Ordered(code, s, m, k);
    Compaction.Ordered(code, s, k, m);
  }

  /** Whenever a run is at the start of a block, its operand height is the computed one. */
  lemma HeightsSound(cx: Context, code: seq<Byte>, hs: seq<Handler>, s: seq<int>, nodes: seq<Node>, entries: seq<Entry>,
                     calls: int -> Signature, run: seq<Height>, n: nat, i: int)
    requires Passes(cx, code, hs, s, nodes, entries) && CallsMatch(cx, code, s, nodes, entries, calls)
    requires TablesFit(cx, code, hs, s, nodes, entries)
    requires IsRun(cx, code, hs, calls, run) && n < |run| && run[n].Running? && 0 <= i < |nodes|
    requires run[n].ip == nodes[i].start
    ensures entries[i].Some? && run[n].h == |entries[i].value|
  {
    hide Layout, Passes, AllInBounds, CallsMatch, TablesFit, IsRun, Tracks;
    PassesFit(cx, code, hs, s, nodes, entries);
    RunsTracked(cx, code, hs, s, nodes, entries, calls, run, n);
    TrackedStart(cx, code, hs, s, nodes, entries, run[n], i);
  }

  /** No run underflows, and every run is at the computed height whenever it is at the start of a block. */
  ghost predicate Sound(cx: Context, code: seq<Byte>, hs: seq<Handler>, nodes: seq<Node>, entries: seq<Entry>,
                        calls: int -> Signature)
    requires |entries| == |nodes|
  {
    forall run: seq<Height>, n: int ::
        IsRun(cx, code, hs, calls, run) && 0 <= n < |run| ==> SoundAt(nodes, entries, run[n])
  }

  ghost predicate SoundAt(nodes: seq<Node>, entries: seq<Entry>, x: Height)
    requires |entries| == |nodes|
  {
    !x.Underflow? &&
        (x.Running? ==> forall i ::
        0 <= i < |nodes| && nodes[i].start == x.ip ==> entries[i].Some? && x.h == |entries[i].value|)
  }

  /** When the analysis is right about every run, every run is tracked. */
  lemma {:induction false} SoundTracks(cx: Context, code: seq<Byte>, hs: seq<Handler>, s: seq<int>, nodes: seq<Node>,
                                       entries: seq<Entry>, calls: int -> Signature, run: seq<Height>, n: nat)
    requires Passes(cx, code, hs, s, nodes, entries) && CallsMatch(cx, code, s, nodes, entries, calls)
    requires |entries| == |nodes| && Sound(cx, code, hs, nodes, entries, calls) && IsRun(cx, code, hs, calls, run)
    requires n < |run|
    ensures Tracks(cx, code, s, nodes, entries, run[n])
  {
    hide Layout, Passes, AllInBounds, Tracked, Moves, CallsMatch, Interior, TableFits, NodesBy;
    PassesFit(cx, code, hs, s, nodes, entries);
    if n == 0 {
      StartTracked(cx, code, hs, s, nodes, entries);
    } else {
      SoundTracks(cx, code, hs, s, nodes, entries, calls, run, n - 1);
      assert Moves(cx, code, hs, calls, run[n - 1], run[n]);
      StepArrives(cx, code, hs, s, nodes, entries, calls, run[n - 1], run[n]);
      assert SoundAt(nodes, entries, run[n]);
      if !Tracks(cx, code, s, nodes, entries, run[n]) {
        var i :| 0 <= i < |nodes| && nodes[i].start == run[n].ip;
        EnterBlock(cx, code, hs, s, nodes, entries, i, run[n].h);
      }
    }
  }

  lemma EnterBlock(cx: Context, code: seq<Byte>, hs: seq<Handler>, s: seq<int>, nodes: seq<Node>, entries: seq<Entry>,
                   i: int, h: int)
    requires Passes(cx, code, hs, s, nodes, entries) && |entries| == |nodes| && Layout(code, s)
    requires AllInBounds(cx, code, s)
    requires 0 <= i < |nodes| && entries[i].Some? && |entries[i].value| == h
    ensures Tracks(cx, code, s, nodes, entries, Running(nodes[i].start, h))
  {
    hide Layout, AllInBounds, Aligned, DepthsOk, PostFixpoint, NodesBy, Tracks;
    var starts :| NodesBy(code, hs, s, nodes, starts);
    Enter(cx, code, hs, s, nodes, starts, entries, i, h);
  }

  /** When every run is tracked, every walk through the code is the way of a run. */
  lemma {:induction false} WalkRuns(cx: Context, code: seq<Byte>, hs: seq<Handler>, s: seq<int>, nodes: seq<Node>,
                                    entries: seq<Entry>, calls: int -> Signature, p: seq<int>)
                                    returns (run: seq<Height>)
    requires Passes(cx, code, hs, s, nodes, entries) && CallsMatch(cx, code, s, nodes, entries, calls)
    requires Walk(code, hs, p)
    requires Layout(code, s) && AllInBounds(cx, code, s) && |entries| == |nodes|
    requires AllTracked(cx, code, hs, s, nodes, entries, calls)
    ensures IsRun(cx, code, hs, calls, run) && run[|run| - 1].Running? && run[|run| - 1].ip == p[|p| - 1]
  {
    hide Layout, Passes, AllInBounds, CallsMatch, Tracks, Goes, HandlerFor, Moves;
    if |p| == 1 {
      run := [Running(0, 0)];
    } else {
      var n := |p| - 1;
      assert CanPass(code, hs, p[n - 1], p[n]);
      assert Walk(code, hs, p[..n]);
      var r := WalkRuns(cx, code, hs, s, nodes, entries, calls, p[..n]);
      var x := r[|r| - 1];
      assert Tracks(cx, code, s, nodes, entries, x);
      var y := StepTo(cx, code, hs, s, nodes, entries, calls, x, p[n]);
      run := r + [y];
    }
  }

  ghost predicate AllTracked(cx: Context, code: seq<Byte>, hs: seq<Handler>, s: seq<int>, nodes: seq<Node>,
                             entries: seq<Entry>, calls: int -> Signature)
    requires Layout(code, s) && AllInBounds(cx, code, s) && |entries| == |nodes|
  {
    forall run: seq<Height>, n: int ::
        IsRun(cx, code, hs, calls, run) && 0 <= n < |run| ==> Tracks(cx, code, s, nodes, entries, run[n])
  }

  /** A tracked state can move wherever control can pass. */
  lemma StepTo(cx: Context, code: seq<Byte>, hs: seq<Handler>, s: seq<int>, nodes: seq<Node>, entries: seq<Entry>,
               calls: int -> Signature, x: Height, ip': int) returns (y: Height)
    requires Passes(cx, code, hs, s, nodes, entries) && CallsMatch(cx, code, s, nodes, entries, calls)
    requires Layout(code, s) && AllInBounds(cx, code, s) && |entries| == |nodes| && x.Running?
    requires Tracks(cx, code, s, nodes, entries, x)
    requires CanPass(code, hs, x.ip, ip')
    ensures y.Running? && y.ip == ip' && Moves(cx, code, hs, calls, x, y)
    ensures Goes(code, x.ip, ip') ==> InBounds(cx, code, x.ip) && y.h == HeightAfter(cx, code, x.ip, calls(x.ip), x.h)
  {
    hide Layout, AllInBounds, Aligned, NodesBy, DepthsOk, PostFixpoint, Goes, UseOf, StepOf, Tracked, InBounds,
         HandlerFor, Landed, Before, CallsMatch;
    var starts :| NodesBy(code, hs, s, nodes, starts);
    var j, k, m :| Tracked(cx, code, s, nodes, entries, x.ip, x.h, j, k, m);
    StepsHere(cx, code, hs, s, nodes, starts, entries, calls, x.ip, x.h, j, k, m);
    if Goes(code, x.ip, ip') {
      y := Running(ip', HeightAfter(cx, code, x.ip, calls(x.ip), x.h));
    } else {
      y := Running(ip', Landed(cx, HandlerFor(hs, x.ip).value));
    }
  }

  /** A body that passes is what the analysis takes it for, in every run, exactly when every reachable jump table inside
      a block leads only to blocks that start with the height it leaves. */
  lemma SoundIffTablesFit(cx: Context, code: seq<Byte>, hs: seq<Handler>, s: seq<int>, nodes: seq<Node>,
                          entries: seq<Entry>, calls: int -> Signature)
    requires Passes(cx, code, hs, s, nodes, entries) && CallsMatch(cx, code, s, nodes, entries, calls)
    ensures |entries| == |nodes| && Layout(code, s) && AllInBounds(cx, code, s)
    ensures Sound(cx, code, hs, nodes, entries, calls) <==> TablesFit(cx, code, hs, s, nodes, entries)
  {
    hide Layout, Passes, AllInBounds, CallsMatch, IsRun, Tracks, TableFits, Walk;
    PassesFit(cx, code, hs, s, nodes, entries);
    if TablesFit(cx, code, hs, s, nodes, entries) {
      forall run: seq<Height>, n: int | IsRun(cx, code, hs, calls, run) && 0 <= n < |run|
        ensures SoundAt(nodes, entries, run[n])
      {
        RunsTracked(cx, code, hs, s, nodes, entries, calls, run, n);
        if run[n].Running? {
          forall i | 0 <= i < |nodes| && nodes[i].start == run[n].ip
            ensures entries[i].Some? && run[n].h == |entries[i].value|
          {
            TrackedStart(cx, code, hs, s, nodes, entries, run[n], i);
          }
        }
      }
    }
    if Sound(cx, code, hs, nodes, entries, calls) {
      forall m | Interior(code, hs, s, m) && Reached(code, hs, s[m])
        ensures TableFits(cx, code, s, nodes, entries, m)
      {
        SoundFits(cx, code, hs, s, nodes, entries, calls, m);
      }
    }
  }

  /** Where the analysis is right about every run, a reachable jump table fits. */
  lemma SoundFits(cx: Context, code: seq<Byte>, hs: seq<Handler>, s: seq<int>, nodes: seq<Node>, entries: seq<Entry>,
                  calls: int -> Signature, m: int)
    requires Passes(cx, code, hs, s, nodes, entries) && CallsMatch(cx, code, s, nodes, entries, calls)
    requires Layout(code, s) && AllInBounds(cx, code, s) && |entries| == |nodes|
    requires Sound(cx, code, hs, nodes, entries, calls)
    requires Interior(code, hs, s, m) && Reached(code, hs, s[m])
    ensures TableFits(cx, code, s, nodes, entries, m)
  {
    hide Layout, Passes, AllInBounds, CallsMatch, IsRun, Tracks, Interior, Before, Within, Sound, CanPass, Arms,
         Blocks.ArmLeads;
    InteriorIs(code, hs, s, m);
    var p :| Walk(code, hs, p) && p[|p| - 1] == s[m];
    forall run: seq<Height>, n: int | IsRun(cx, code, hs, calls, run) && 0 <= n < |run|
      ensures Tracks(cx, code, s, nodes, entries, run[n])
    {
      SoundTracks(cx, code, hs, s, nodes, entries, calls, run, n);
    }
    var run := WalkRuns(cx, code, hs, s, nodes, entries, calls, p);
    var at := LastOf(cx, code, hs, calls, run);
    forall j, k, i | StartsAt(s, nodes, j, k) && k <= m && Within(nodes, j, s[m]) && LeadsInto(code, s[m], nodes, i)
      ensures FitsAt(cx, code, s, entries, j, k, m, i)
    {
      TableSent(cx, code, hs, s, nodes, entries, calls, m, run, at, j, k, i);
    }
  }

  lemma InteriorIs(code: seq<Byte>, hs: seq<Handler>, s: seq<int>, m: int)
    requires Layout(code, s) && Interior(code, hs, s, m)
    ensures 0 <= m < |s| - 1 && 0 <= s[m] < |code| && code[s[m]] == BR_TABLE
  {
    Blocks.SlotsOf(code, s);
  }

  lemma LastOf(cx: Context, code: seq<Byte>, hs: seq<Handler>, calls: int -> Signature, run: seq<Height>)
               returns (at: Height)
    requires IsRun(cx, code, hs, calls, run)
    ensures |run| > 0 && at == run[|run| - 1]
    ensures forall y :: Moves(cx, code, hs, calls, at, y) ==> IsRun(cx, code, hs, calls, run + [y])
  {
    hide Moves;
    at := run[|run| - 1];
  }

  /** A run at a reached jump table can be sent into each block it leads to. */
  lemma TableSent(cx: Context, code: seq<Byte>, hs: seq<Handler>, s: seq<int>, nodes: seq<Node>, entries: seq<Entry>,
                  calls: int -> Signature, m: int, run: seq<Height>, at: Height, j: int, k: int, i: int)
    requires Passes(cx, code, hs, s, nodes, entries) && CallsMatch(cx, code, s, nodes, entries, calls)
    requires Layout(code, s) && AllInBounds(cx, code, s) && |entries| == |nodes|
    requires Sound(cx, code, hs, nodes, entries, calls)
    requires 0 <= m < |s| - 1 && 0 <= s[m] < |code| && code[s[m]] == BR_TABLE
    requires at.Running? && at.ip == s[m] && Tracks(cx, code, s, nodes, entries, at)
    requires forall y :: Moves(cx, code, hs, calls, at, y) ==> IsRun(cx, code, hs, calls, run + [y])
    requires StartsAt(s, nodes, j, k) && k <= m && Within(nodes, j, s[m]) && LeadsInto(code, s[m], nodes, i)
    ensures FitsAt(cx, code, s, entries, j, k, m, i)
  {
    hide Layout, Passes, AllInBounds, CallsMatch, IsRun, Tracks, Before, Moves;
    if entries[j].Some? && Before(cx, code, s, k, entries[j].value, m).Some? {
      var y := StepTo(cx, code, hs, s, nodes, entries, calls, at, nodes[i].start);
      assert SoundAt(nodes, entries, (run + [y])[|run|]);
      SameHeight(cx, code, hs, s, nodes, entries, at, j, k, m);
      TableUse(cx, code, s[m], calls(s[m]), at.h);
    }
  }

  lemma TableUse(cx: Context, code: seq<Byte>, ip: int, sig: Signature, h: int)
    requires 0 <= ip < |code| && InBounds(cx, code, ip) && code[ip] == BR_TABLE
    ensures HeightAfter(cx, code, ip, sig, h) == h - 1
  {
    hide Operand;
    assert ControlHands(7) == Some(Hands([I32], []));
  }

  /** A tracked height at an instruction is the one the analysis has there. */
  lemma SameHeight(cx: Context, code: seq<Byte>, hs: seq<Handler>, s: seq<int>, nodes: seq<Node>, entries: seq<Entry>,
                   x: Height, j: int, k: int, m: int)
    requires Passes(cx, code, hs, s, nodes, entries) && Layout(code, s) && AllInBounds(cx, code, s)
    requires |entries| == |nodes|
    requires x.Running? && Tracks(cx, code, s, nodes, entries, x) && x.ip != |code|
    requires StartsAt(s, nodes, j, k) && k <= m < |s| - 1 && s[m] == x.ip && Within(nodes, j, s[m]) && entries[j].Some?
    ensures Before(cx, code, s, k, entries[j].value, m).Some?
    ensures |Before(cx, code, s, k, entries[j].value, m).value| == x.h
  {
    hide Layout, AllInBounds, Aligned, DepthsOk, Settled, SeedsIn, Leader, Flows, StepOf, Before;
    var starts :| NodesBy(code, hs, s, nodes, starts);
    var j', k', m' :| Tracked(cx, code, s, nodes, entries, x.ip, x.h, j', k', m');
    BlockSpan(cx, code, hs, s, nodes, starts, j);
    BlockSpan(cx, code, hs, s, nodes, starts, j');
    Blocks.EndsBefore(starts, |code|);
    assert j == j';
    Compaction.Ordered(code, s, m, m');
    Compaction.Ordered(code, s, m', m);
    Compaction.Ordered(code, s, k, k');
    Compaction.Ordered(code, s, k', k);
  }
}
