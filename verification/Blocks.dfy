/** Basic blocks of a function body: leaders, and the edges along which control can leave a block. */
module Blocks {
  import opened Bytecode

  /** succs and preds are the sorted, duplicate-free lists of block indices, kept as sets. */
  datatype Block = Block(start: int, end: int, succs: set<int>, preds: set<int>)

  /** The instruction after op starts a block. */
  predicate EndsBlock(op: Byte) {
    Terminator(op) || op == BR || op == BR_IF
  }

  /** Control can pass from op to the instruction after it. */
  predicate FallsThrough(op: Byte) {
    !Terminator(op) && op != BR && op != BR_TABLE
  }

  /** Every target inside the code is an instruction, and so is every handler boundary. */
  ghost predicate Targeted(code: seq<Byte>, hs: seq<Handler>, s: seq<int>)
    requires Layout(code, s)
  {
    && (forall k, a ::
       0 <= k < |s| - 1 && 0 <= a < Arms(code, s[k]) && 0 <= Target(code, s[k], a) <= |code| ==>
       Target(code, s[k], a) in s)
    && (forall h :: h in hs ==> h.start in s && h.end in s && h.catch in s)
  }

  ghost predicate InRange(code: seq<Byte>, s: seq<int>, n: int)
    requires Layout(code, s) && n <= |s| - 1
  {
    forall k, a :: 0 <= k < n && 0 <= a < Arms(code, s[k]) ==> 0 <= Target(code, s[k], a) <= |code|
  }

  /** x starts a block because of one of the first n instructions. */
  ghost predicate Leads(code: seq<Byte>, s: seq<int>, n: int, x: int)
    requires Layout(code, s) && n <= |s| - 1
  {
    || (exists k, a :: 0 <= k < n && 0 <= a < Arms(code, s[k]) && Target(code, s[k], a) == x)
    || (exists k :: 0 <= k < n && EndsBlock(code[s[k]]) && s[k + 1] == x)
  }

  ghost predicate Bounds(hs: seq<Handler>, x: int) {
    x > 0 && exists h :: h in hs && (h.start == x || h.end == x || h.catch == x)
  }

  ghost predicate Leader(code: seq<Byte>, hs: seq<Handler>, s: seq<int>, x: int)
    requires Layout(code, s)
  {
    x == 0 || (0 <= x < |code| && (Leads(code, s, |s| - 1, x) || Bounds(hs, x)))
  }

  /** What starts a block, by opcode: the start of the code, a branch's target, what follows one of six opcodes, and the
      bounds of handlers. */
  lemma LeaderIs(code: seq<Byte>, hs: seq<Handler>, s: seq<int>, x: int)
    requires Layout(code, s)
    ensures Leader(code, hs, s, x) <==>
              || x == 0
              || (0 < x < |code| &&
                 ((exists k, a :: 0 <= k < |s| - 1 && 0 <= a < Arms(code, s[k]) && Target(code, s[k], a) == x)
                  || (exists k :: 0 <= k < |s| - 1 && code[s[k]] in {1, 5, 6, 10, 11, 205} && s[k + 1] == x)
                  || (exists h :: h in hs && x in {h.start, h.end, h.catch})))
  {
    hide Arms, Target;
  }

  /** Block boundaries: strictly rising offsets from 0. */
  ghost predicate Rising(xs: seq<int>) {
    forall i, j :: 0 <= i < j < |xs| ==> xs[i] < xs[j]
  }

  /** One of the first n arms of the branch at ip leads to x. */
  ghost predicate ArmLeads(code: seq<Byte>, ip: int, n: int, x: int)
    requires 0 <= ip < |code|
  {
    exists b :: 0 <= b < n && Target(code, ip, b) == x
  }

  lemma ArmLeadsNext(code: seq<Byte>, ip: int, n: nat)
    requires 0 <= ip < |code|
    ensures forall x :: ArmLeads(code, ip, n + 1, x) <==> ArmLeads(code, ip, n, x) || x == Target(code, ip, n)
    ensures forall x :: !ArmLeads(code, ip, 0, x)
  {
    hide Target;
    forall x
      ensures ArmLeads(code, ip, n + 1, x) <==> ArmLeads(code, ip, n, x) || x == Target(code, ip, n)
    {
      if ArmLeads(code, ip, n + 1, x) {
        var b :| 0 <= b < n + 1 && Target(code, ip, b) == x;
        assert b < n || b == n;
      }
    }
  }

  lemma LeadsNext(code: seq<Byte>, s: seq<int>, n: int)
    requires Layout(code, s) && 0 <= n < |s| - 1
    ensures forall x :: Leads(code, s, n + 1, x) <==>
                          Leads(code, s, n, x) || ArmLeads(code, s[n], Arms(code, s[n]), x)
                          || (EndsBlock(code[s[n]]) && s[n + 1] == x)
    ensures forall x :: !Leads(code, s, 0, x)
    ensures InRange(code, s, 0)
    ensures (forall a :: 0 <= a < Arms(code, s[n]) ==> 0 <= Target(code, s[n], a) <= |code|) && InRange(code, s, n) ==>
              InRange(code, s, n + 1)
    ensures (exists a :: 0 <= a < Arms(code, s[n]) && !(0 <= Target(code, s[n], a) <= |code|)) ==>
      !InRange(code, s, |s| - 1)
  {
    hide Layout;
    SlotsOf(code, s);
    hide Arms, Target, EndsBlock;
    forall x
      ensures Leads(code, s, n + 1, x) <==>
                Leads(code, s, n, x) || ArmLeads(code, s[n], Arms(code, s[n]), x) ||
                    (EndsBlock(code[s[n]]) && s[n + 1] == x)
    {
    }
  }

  lemma SlotsOf(code: seq<Byte>, s: seq<int>)
    requires Layout(code, s)
    ensures |s| > 0 && forall k :: 0 <= k < |s| - 1 ==> 0 <= s[k] < |code|
  {
  }

  /** Collects what starts a block. None is an invalid jump. */
  method Leaders(code: seq<Byte>, hs: seq<Handler>, ghost s: seq<int>) returns (r: Option<set<int>>)
    requires Layout(code, s)
    ensures r.None? <==> !InRange(code, s, |s| - 1)
    ensures r.Some? ==> forall x :: x in r.value <==> Leader(code, hs, s, x)
  {
    hide Leads, ArmLeads, Bounds, InRange, Arms, Target, EndsBlock;
    var offsets: set<int> := {0};
    var ip := 0;
    ghost var n := 0;
    if |s| > 1 {
      LeadsNext(code, s, 0);
    } else {
      NothingLeads(code, s);
    }
    while ip < |code|
      invariant 0 <= n <= |s| - 1 && ip == s[n]
      invariant InRange(code, s, n)
      invariant forall x :: x in offsets <==> (x == 0 || (0 <= x < |code| && Leads(code, s, n, x)))
      decreases |code| - ip
    {
      LayoutNext(code, s, n);
      LeadsNext(code, s, n);
      var found := BranchTargets(code, ip, offsets);
      if found.None? {
        return None;
      }
      offsets := found.value;
      var next := ip + Width(code, ip);
      if EndsBlock(code[ip]) && next < |code| {
        offsets := offsets + {next};
      }
      ip := next;
      n := n + 1;
    }
    assert n == |s| - 1;
    offsets := HandlerBounds(|code|, hs, offsets);
    r := Some(offsets);
  }

  lemma NothingLeads(code: seq<Byte>, s: seq<int>)
    requires Layout(code, s)
    ensures InRange(code, s, 0) && forall x :: !Leads(code, s, 0, x)
  {
  }

  method BranchTargets(code: seq<Byte>, ip: int, offsets: set<int>) returns (r: Option<set<int>>)
    requires 0 <= ip < |code|
    ensures r.None? <==> exists a :: 0 <= a < Arms(code, ip) && !(0 <= Target(code, ip, a) <= |code|)
    ensures r.Some? ==>
              forall x :: x in r.value <==> (x in offsets || (0 <= x < |code| && ArmLeads(code, ip, Arms(code, ip), x)))
  {
    hide Target, Arms, ArmLeads;
    var found := offsets;
    var n := Arms(code, ip);
    ArmLeadsNext(code, ip, 0);
    ArmsNat(code, ip);
    for a := 0 to n
      invariant forall b :: 0 <= b < a ==> 0 <= Target(code, ip, b) <= |code|
      invariant forall x :: x in found <==> (x in offsets || (0 <= x < |code| && ArmLeads(code, ip, a, x)))
    {
      ArmLeadsNext(code, ip, a);
      var target := Target(code, ip, a);
      if target < 0 || target > |code| {
        return None;
      }
      if target < |code| {
        found := found + {target};
      }
    }
    r := Some(found);
  }

  lemma ArmsNat(code: seq<Byte>, ip: int)
    requires 0 <= ip < |code|
    ensures Arms(code, ip) >= 0
  {
  }

  method HandlerBounds(size: int, hs: seq<Handler>, offsets: set<int>) returns (r: set<int>)
    ensures forall x :: x in r <==> x in offsets || (0 < x < size && Bounds(hs, x))
  {
    r := offsets;
    for j := 0 to |hs|
      invariant forall x :: x in r <==> x in offsets || (0 < x < size && Bounds(hs[..j], x))
    {
      var h := hs[j];
      BoundsNext(hs, j);
      if 0 < h.start < size { r := r + {h.start}; }
      if 0 < h.end < size { r := r + {h.end}; }
      if 0 < h.catch < size { r := r + {h.catch}; }
    }
    assert hs[..|hs|] == hs;
  }

  lemma BoundsNext(hs: seq<Handler>, j: nat)
    requires j < |hs|
    ensures forall x :: Bounds(hs[..j + 1], x) <==>
              Bounds(hs[..j], x) || (x > 0 && (hs[j].start == x || hs[j].end == x || hs[j].catch == x))
  {
    assert hs[..j + 1] == hs[..j] + [hs[j]];
    assert forall h :: h in hs[..j + 1] <==> h in hs[..j] || h == hs[j];
    forall x
      ensures Bounds(hs[..j + 1], x) <==>
        Bounds(hs[..j], x) || (x > 0 && (hs[j].start == x || hs[j].end == x || hs[j].catch == x))
    {
      if Bounds(hs[..j], x) {
        var h :| h in hs[..j] && (h.start == x || h.end == x || h.catch == x);
        assert h in hs[..j + 1];
      } else if x > 0 && (hs[j].start == x || hs[j].end == x || hs[j].catch == x) {
        assert hs[j] in hs[..j + 1];
      }
    }
  }

  /** starts are the leaders in order. */
  ghost predicate StartsOk(code: seq<Byte>, hs: seq<Handler>, s: seq<int>, starts: seq<int>)
    requires Layout(code, s)
  {
    |starts| > 0 && starts[0] == 0 && Rising(starts) && forall x :: x in starts <==> Leader(code, hs, s, x)
  }

  function EndOf(starts: seq<int>, size: int, j: int): int
    requires 0 <= j < |starts|
  {
    if j + 1 < |starts| then starts[j + 1] else size
  }

  lemma EndsBefore(starts: seq<int>, size: int)
    requires Rising(starts)
    ensures forall i, j :: 0 <= i < j < |starts| ==> EndOf(starts, size, i) <= starts[j]
  {
  }

  /** The last instruction of [ip, end). */
  function Last(code: seq<Byte>, ip: int, end: int): (r: int)
    requires 0 <= ip < end <= |code|
    ensures ip <= r < end
    decreases end - ip
  {
    if ip + Width(code, ip) >= end then ip else Last(code, ip + Width(code, ip), end)
  }

  /** Control can leave block j for block i: by a branch at its end, or by falling through. */
  ghost predicate Flows(code: seq<Byte>, starts: seq<int>, j: int, i: int) {
    && 0 <= j < |starts| && 0 <= i < |starts| && 0 <= starts[j] < EndOf(starts, |code|, j) <= |code|
    && var ip := Last(code, starts[j], EndOf(starts, |code|, j));
    (ArmLeads(code, ip, Arms(code, ip), starts[i]) && starts[i] < |code|) || (i == j + 1 && FallsThrough(code[ip]))
  }

  ghost predicate CfgBy(code: seq<Byte>, hs: seq<Handler>, s: seq<int>, blocks: seq<Block>, starts: seq<int>)
    requires Layout(code, s)
  {
    |starts| == |blocks| && StartsOk(code, hs, s, starts) && LinkedTo(code, starts, |starts|, {}, blocks)
  }

  /** The blocks are the leaders' blocks and their edges are exactly the ways control can flow. */
  ghost predicate IsCfg(code: seq<Byte>, hs: seq<Handler>, s: seq<int>, blocks: seq<Block>)
    requires Layout(code, s)
  {
    exists starts :: CfgBy(code, hs, s, blocks, starts)
  }

  /** The edges out of the first n blocks are in place, and those from block n to the blocks in done. */
  ghost predicate LinkedTo(code: seq<Byte>, starts: seq<int>, n: int, done: set<int>, blocks: seq<Block>) {
    && |starts| == |blocks|
    && (forall j :: 0 <= j < |blocks| ==> blocks[j].start == starts[j] && blocks[j].end == EndOf(starts, |code|, j))
    && (forall j, i :: 0 <= j < |blocks| ==> (i in blocks[j].succs <==> HasEdge(code, starts, n, done, j, i)))
    && (forall j, i :: 0 <= i < |blocks| ==> (j in blocks[i].preds <==> HasEdge(code, starts, n, done, j, i)))
  }

  ghost predicate HasEdge(code: seq<Byte>, starts: seq<int>, n: int, done: set<int>, j: int, i: int) {
    (0 <= j < n && Flows(code, starts, j, i)) || (j == n && i in done && 0 <= i < |starts|)
  }

  function AddEdge(blocks: seq<Block>, j: int, i: int): (r: seq<Block>)
    requires 0 <= j < |blocks| && 0 <= i < |blocks|
  {
    var out := blocks[j := blocks[j].(succs := blocks[j].succs + {i})];
    out[i := out[i].(preds := out[i].preds + {j})]
  }

  lemma AddEdgeLinks(code: seq<Byte>, starts: seq<int>, n: int, done: set<int>, blocks: seq<Block>, i: int)
    requires LinkedTo(code, starts, n, done, blocks) && 0 <= n < |blocks| && 0 <= i < |blocks|
    ensures LinkedTo(code, starts, n, done + {i}, AddEdge(blocks, n, i)) && |AddEdge(blocks, n, i)| == |blocks|
  {
    hide Flows, HasEdge, AddEdge;
    EdgeAdded(blocks, n, i);
    DoneAdded(code, starts, n, done, i);
  }

  lemma EdgeAdded(blocks: seq<Block>, j: int, i: int)
    requires 0 <= j < |blocks| && 0 <= i < |blocks|
    ensures |AddEdge(blocks, j, i)| == |blocks|
    ensures forall b :: 0 <= b < |blocks| ==>
              AddEdge(blocks, j, i)[b] == blocks[b].(succs := blocks[b].succs + (if b == j then {i} else {}),
                                                     preds := blocks[b].preds + (if b == i then {j} else {}))
  {
  }

  lemma DoneAdded(code: seq<Byte>, starts: seq<int>, n: int, done: set<int>, i: int)
    requires 0 <= i < |starts| && 0 <= n
    ensures forall b, c ::
      HasEdge(code, starts, n, done + {i}, b, c) <==> HasEdge(code, starts, n, done, b, c) || (b == n && c == i)
  {
    hide Flows;
  }

  lemma LinkedNext(code: seq<Byte>, starts: seq<int>, n: int, done: set<int>, blocks: seq<Block>)
    requires LinkedTo(code, starts, n, done, blocks) && 0 <= n < |blocks|
    requires forall i :: i in done && 0 <= i < |starts| <==> Flows(code, starts, n, i)
    ensures LinkedTo(code, starts, n + 1, {}, blocks)
  {
    hide Flows;
  }

  lemma LeadersInside(code: seq<Byte>, hs: seq<Handler>, s: seq<int>)
    requires Layout(code, s)
    ensures forall x :: Leader(code, hs, s, x) ==> 0 <= x < Max(|code|, 1)
  {
  }

  lemma StartsFirst(code: seq<Byte>, hs: seq<Handler>, s: seq<int>, starts: seq<int>)
    requires Layout(code, s) && Rising(starts) && forall x :: x in starts <==> Leader(code, hs, s, x)
    ensures StartsOk(code, hs, s, starts)
    ensures forall j :: 0 <= j < |starts| ==> 0 <= starts[j] < Max(|code|, 1)
  {
    hide Leads, Bounds;
    assert Leader(code, hs, s, 0);
    assert 0 in starts;
    forall j | 0 <= j < |starts|
      ensures 0 <= starts[j] < Max(|code|, 1)
    {
      assert starts[j] in starts;
      assert Leader(code, hs, s, starts[j]);
    }
  }

  lemma NoEdges(code: seq<Byte>, starts: seq<int>, blocks: seq<Block>)
    requires |starts| == |blocks|
    requires forall j :: 0 <= j < |blocks| ==> blocks[j] == Block(starts[j], EndOf(starts, |code|, j), {}, {})
    ensures LinkedTo(code, starts, 0, {}, blocks)
  {
    hide Flows;
  }

  lemma BlockInside(code: seq<Byte>, starts: seq<int>, j: int)
    requires Rising(starts) && 0 <= j < |starts| && forall i :: 0 <= i < |starts| ==> 0 <= starts[i] < Max(|code|, 1)
    ensures starts[j] < |code| ==> 0 <= starts[j] < EndOf(starts, |code|, j) <= |code| && forall i ::
      0 <= i < |starts| ==> starts[i] < |code|
    ensures starts[j] >= |code| ==> |code| == 0 && forall i :: !Flows(code, starts, j, i)
  {
  }

  /** Every target of the branch at ip, the end of the code aside, is in starts. */
  ghost predicate ArmsIn(code: seq<Byte>, ip: int, starts: seq<int>)
    requires 0 <= ip < |code|
  {
    forall a :: 0 <= a < Arms(code, ip) && Target(code, ip, a) != |code| ==> Target(code, ip, a) in starts
  }

  /** The targets of the branch that ends block j all start blocks. */
  lemma ArmsLead(code: seq<Byte>, hs: seq<Handler>, s: seq<int>, starts: seq<int>, ip: int)
    requires Layout(code, s) && StartsOk(code, hs, s, starts) && InRange(code, s, |s| - 1) && ip in s
    requires 0 <= ip < |code|
    ensures ArmsIn(code, ip, starts)
  {
    hide Arms, Target;
    var k :| 0 <= k < |s| && s[k] == ip;
    forall a | 0 <= a < Arms(code, ip) && Target(code, ip, a) != |code|
      ensures Target(code, ip, a) in starts
    {
      assert Leads(code, s, |s| - 1, Target(code, ip, a));
      assert Leader(code, hs, s, Target(code, ip, a));
    }
  }

  /** Scanning a block from an instruction ends on an instruction. */
  lemma {:induction false} LastAligned(code: seq<Byte>, s: seq<int>, k: int, end: int)
    requires Layout(code, s) && 0 <= k < |s| - 1 && s[k] < end <= |code|
    ensures exists m :: k <= m < |s| - 1 && s[m] == Last(code, s[k], end) && s[m] < end <= s[m + 1]
    decreases end - s[k]
  {
    LayoutNext(code, s, k);
    if s[k + 1] < end {
      LastAligned(code, s, k + 1, end);
    }
  }

  /** Every leader is an instruction. */
  lemma LeaderAligned(code: seq<Byte>, hs: seq<Handler>, s: seq<int>, x: int)
    requires Layout(code, s) && Targeted(code, hs, s) && Leader(code, hs, s, x)
    ensures x in s
  {
    if x != 0 {
      if Leads(code, s, |s| - 1, x) {
        hide Arms, Target;
        SlotsOf(code, s);
      }
    }
  }

  /** The blocks of a body. None is an invalid jump. */
  method Build(code: seq<Byte>, hs: seq<Handler>, ghost s: seq<int>) returns (r: Option<seq<Block>>)
    requires Layout(code, s) && Targeted(code, hs, s)
    ensures r.None? <==> !InRange(code, s, |s| - 1)
    ensures r.Some? ==> IsCfg(code, hs, s, r.value)
  {
    hide Layout, Targeted, InRange, Leader, Flows, LinkedTo, Last, Leads, ArmLeads, Rising, EndOf, Max, FallsThrough,
         AddEdge, Arms, Target;
    var offsets := Leaders(code, hs, s);
    if offsets.None? {
      return None;
    }
    LeadersInside(code, hs, s);
    var starts := Sorted(offsets.value, |code|);
    StartsFirst(code, hs, s, starts);
    var blocks := seq(|starts|, j requires 0 <= j < |starts| => Block(starts[j], EndOf(starts, |code|, j), {}, {}));
    NoEdges(code, starts, blocks);
    var index := Index(starts);
    for j := 0 to |blocks|
      invariant |blocks| == |starts| && LinkedTo(code, starts, j, {}, blocks)
    {
      BlockInside(code, starts, j);
      ghost var done: set<int> := {};
      if starts[j] < |code| {
        var ip := Last(code, starts[j], EndOf(starts, |code|, j));
        EndAligned(code, hs, s, starts, j);
        blocks, done := LinkArms(code, starts, index, j, ip, blocks);
        if FallsThrough(code[ip]) && j + 1 < |blocks| {
          AddEdgeLinks(code, starts, j, done, blocks, j + 1);
          blocks := AddEdge(blocks, j, j + 1);
          done := done + {j + 1};
        }
        FlowsAre(code, starts, j, done);
      }
      LinkedNext(code, starts, j, done, blocks);
    }
    assert CfgBy(code, hs, s, blocks, starts);
    r := Some(blocks);
  }

  lemma FlowsAre(code: seq<Byte>, starts: seq<int>, j: int, done: set<int>)
    requires 0 <= j < |starts| && 0 <= starts[j] < EndOf(starts, |code|, j) <= |code|
    requires var ip := Last(code, starts[j], EndOf(starts, |code|, j));
             forall i :: i in done && 0 <= i < |starts| <==>
               0 <= i < |starts| && ((ArmLeads(code, ip, Arms(code, ip), starts[i]) && starts[i] < |code|)
                                     || (i == j + 1 && FallsThrough(code[ip])))
    ensures forall i :: i in done && 0 <= i < |starts| <==> Flows(code, starts, j, i)
  {
    hide Last, ArmLeads, Arms;
  }

  lemma EndAligned(code: seq<Byte>, hs: seq<Handler>, s: seq<int>, starts: seq<int>, j: int)
    requires Layout(code, s) && Targeted(code, hs, s) && StartsOk(code, hs, s, starts) && InRange(code, s, |s| - 1)
    requires 0 <= j < |starts| && 0 <= starts[j] < EndOf(starts, |code|, j) <= |code|
    ensures var ip := Last(code, starts[j], EndOf(starts, |code|, j));
            ArmsIn(code, ip, starts)
  {
    hide Leads, Bounds, Targeted, InRange, Arms, Target, Last;
    assert starts[j] in starts;
    LeaderAligned(code, hs, s, starts[j]);
    var k :| 0 <= k < |s| && s[k] == starts[j];
    LastAligned(code, s, k, EndOf(starts, |code|, j));
    ArmsLead(code, hs, s, starts, Last(code, starts[j], EndOf(starts, |code|, j)));
  }

  /** Where each start is in the list. */
  method Index(starts: seq<int>) returns (index: map<int, int>)
    requires Rising(starts)
    ensures forall x :: x in index <==> x in starts
    ensures forall i :: 0 <= i < |starts| ==> starts[i] in index && index[starts[i]] == i
  {
    index := map[];
    for i := 0 to |starts|
      invariant forall x :: x in index <==> x in starts[..i]
      invariant forall k :: 0 <= k < i ==> starts[k] in index && index[starts[k]] == k
    {
      index := index[starts[i] := i];
      assert starts[..i + 1] == starts[..i] + [starts[i]];
    }
    assert starts[..|starts|] == starts;
  }

  /** Adds an edge for every target of the branch at the end of block j. */
  method LinkArms(code: seq<Byte>, starts: seq<int>, index: map<int, int>, j: int, ip: int, blocks: seq<Block>)
    returns (r: seq<Block>, ghost done: set<int>)
    requires LinkedTo(code, starts, j, {}, blocks) && 0 <= j < |blocks| == |starts| && 0 <= ip < |code|
    requires ArmsIn(code, ip, starts)
    requires forall x :: x in index <==> x in starts
    requires forall i :: 0 <= i < |starts| ==> starts[i] in index && index[starts[i]] == i && starts[i] < |code|
    ensures LinkedTo(code, starts, j, done, r) && |r| == |blocks|
    ensures forall i :: i in done <==> 0 <= i < |starts| && ArmLeads(code, ip, Arms(code, ip), starts[i])
  {
    hide LinkedTo, Arms, Target, ArmLeads;
    r, done := blocks, {};
    ArmLeadsNext(code, ip, 0);
    ArmsNat(code, ip);
    for a := 0 to Arms(code, ip)
      invariant |r| == |blocks| && LinkedTo(code, starts, j, done, r)
      invariant forall i :: i in done <==> 0 <= i < |starts| && ArmLeads(code, ip, a, starts[i])
    {
      var dst := Target(code, ip, a);
      ArmLeadsNext(code, ip, a);
      if dst != |code| {
        var i := index[dst];
        AddEdgeLinks(code, starts, j, done, r, i);
        r := AddEdge(r, j, i);
        done := done + {i};
      }
    }
  }

  /** The leaders in ascending order. */
  method Sorted(offsets: set<int>, size: int) returns (starts: seq<int>)
    requires forall x :: x in offsets ==> 0 <= x < Max(size, 1)
    ensures Rising(starts) && forall x :: x in starts <==> x in offsets
  {
    starts := [];
    for x := 0 to Max(size, 1)
      invariant Rising(starts) && forall y :: y in starts <==> y in offsets && y < x
    {
      if x in offsets {
        ghost var before := starts;
        starts := starts + [x];
        assert forall y :: y in starts <==> y in before || y == x;
        assert forall i :: 0 <= i < |before| ==> before[i] in before;
      }
    }
  }

  /** There is one way to put a set in order. */
  lemma {:induction false} RisingUnique(a: seq<int>, b: seq<int>, n: nat)
    requires Rising(a) && Rising(b) && (forall x :: x in a <==> x in b) && n <= |a|
    ensures n <= |b| && a[..n] == b[..n]
  {
    if n > 0 {
      RisingUnique(a, b, n - 1);
      assert forall i :: 0 <= i < n - 1 ==> a[i] == a[..n - 1][i] == b[..n - 1][i] == b[i];
      assert a[n - 1] in b;
      var k :| 0 <= k < |b| && b[k] == a[n - 1];
      assert k >= n - 1;
      assert b[n - 1] in a;
      var i :| 0 <= i < |a| && a[i] == b[n - 1];
      assert i >= n - 1;
    }
  }

  lemma OrderUnique(a: seq<int>, b: seq<int>)
    requires Rising(a) && Rising(b) && forall x :: x in a <==> x in b
    ensures a == b
  {
    RisingUnique(a, b, |a|);
    RisingUnique(b, a, |b|);
  }

  function Max(a: int, b: int): int { if a < b then b else a }

  /** A jump table after which neither a block starts nor the code ends. */
  ghost predicate TableInside(code: seq<Byte>, hs: seq<Handler>, s: seq<int>, k: int)
    requires Layout(code, s)
  {
    0 <= k < |s| - 1 && code[s[k]] == BR_TABLE && s[k + 1] != |code| && !Leader(code, hs, s, s[k + 1])
  }

  /** A table always ends its own block. */
  ghost predicate TablesEndBlocks(code: seq<Byte>, hs: seq<Handler>, s: seq<int>)
    requires Layout(code, s)
  {
    forall k :: !TableInside(code, hs, s, k)
  }

  lemma TableEnds(code: seq<Byte>, hs: seq<Handler>, s: seq<int>, k: int)
    requires Layout(code, s) && TablesEndBlocks(code, hs, s)
    ensures !TableInside(code, hs, s, k)
  {
    hide TableInside;
  }

  ghost predicate Catches(hs: seq<Handler>, ip: int) {
    exists h :: h in hs && h.catch == ip
  }

  ghost predicate InBlock(blocks: seq<Block>, j: int, ip: int) {
    0 <= j < |blocks| && blocks[j].start <= ip < blocks[j].end
  }

  /** Where control goes after the instruction at ip of block j: to the end of the code, further down the
      block, or along an edge or to a catch point. */
  ghost predicate FollowsEdges(code: seq<Byte>, hs: seq<Handler>, blocks: seq<Block>, j: int, ip: int, ip': int) {
    || ip' == |code|
    || (InBlock(blocks, j, ip') && ip' > ip)
    || exists i :: 0 <= i < |blocks| && blocks[i].start == ip' && (j in blocks[i].preds || Catches(hs, ip'))
  }

  /** Block boundaries split no instruction. */
  lemma BlockAligned(code: seq<Byte>, hs: seq<Handler>, s: seq<int>, starts: seq<int>, j: int)
    requires Layout(code, s) && Targeted(code, hs, s) && StartsOk(code, hs, s, starts) && 0 <= j < |starts|
    ensures starts[j] in s && EndOf(starts, |code|, j) in s
  {
    hide Leader, Targeted;
    assert starts[j] in starts;
    LeaderAligned(code, hs, s, starts[j]);
    if j + 1 < |starts| {
      assert starts[j + 1] in starts;
      LeaderAligned(code, hs, s, starts[j + 1]);
    }
  }

  /** An instruction inside a block but not its last is followed only by the next one. */
  lemma InsideBlock(code: seq<Byte>, hs: seq<Handler>, s: seq<int>, starts: seq<int>, j: int, k: int)
    requires Layout(code, s) && StartsOk(code, hs, s, starts) && !TableInside(code, hs, s, k)
    requires 0 <= j < |starts| && 0 <= k < |s| - 1 && starts[j] <= s[k] && s[k + 1] < EndOf(starts, |code|, j) <= |code|
    ensures !Terminator(code[s[k]]) && !IsBranch(code[s[k]])
  {
    hide Leader, TableInside, Layout;
    LayoutNext(code, s, k);
    LeaderAfter(code, hs, s, k);
    assert s[k + 1] !in starts;
  }

  lemma LeaderAfter(code: seq<Byte>, hs: seq<Handler>, s: seq<int>, k: int)
    requires Layout(code, s) && !TableInside(code, hs, s, k) && 0 <= k < |s| - 1
    ensures 0 <= s[k + 1] <= |code|
    ensures s[k + 1] < |code| && (EndsBlock(code[s[k]]) || code[s[k]] == BR_TABLE) ==> Leader(code, hs, s, s[k + 1])
  {
    hide Bounds, Layout;
    LayoutNext(code, s, k);
    if EndsBlock(code[s[k]]) {
      assert Leads(code, s, |s| - 1, s[k + 1]);
    }
  }

  /** The last instruction of a block is the one that reaches its end. */
  lemma LastIs(code: seq<Byte>, s: seq<int>, m: int, k: int, end: int)
    requires Layout(code, s) && 0 <= m <= k < |s| - 1 && s[k] < end <= s[k + 1] && s[m] < end <= |code|
    ensures Last(code, s[m], end) == s[k]
  {
    LastAligned(code, s, m, end);
    assert forall x :: 0 < x <= k ==> s[x] <= s[k];
    assert forall x :: k < x < |s| ==> s[k + 1] <= s[x];
  }

  /** Falling through from instruction k of block j. */
  lemma NextFollows(code: seq<Byte>, hs: seq<Handler>, s: seq<int>, blocks: seq<Block>, starts: seq<int>, j: int,
                    k: int)
    requires Layout(code, s) && Targeted(code, hs, s) && CfgBy(code, hs, s, blocks, starts)
    requires 0 <= k < |s| - 1 && InBlock(blocks, j, s[k]) && FallsThrough(code[s[k]])
    ensures FollowsEdges(code, hs, blocks, j, s[k], s[k + 1])
  {
    hide Leader, Targeted, Last, ArmLeads, Arms;
    BlockAligned(code, hs, s, starts, j);
    LayoutNext(code, s, k);
    var end := EndOf(starts, |code|, j);
    if s[k + 1] >= end && s[k + 1] != |code| {
      Ends(code, s, k, end);
      StartOf(code, s, starts[j], k, end);
      assert Flows(code, starts, j, j + 1);
      assert j in blocks[j + 1].preds;
    }
  }

  /** No boundary falls inside an instruction. */
  lemma Ends(code: seq<Byte>, s: seq<int>, k: int, end: int)
    requires Layout(code, s) && 0 <= k < |s| - 1 && end in s && s[k] < end
    ensures s[k + 1] <= end
  {
  }

  lemma StartOf(code: seq<Byte>, s: seq<int>, start: int, k: int, end: int)
    requires Layout(code, s) && start in s && 0 <= k < |s| - 1 && start <= s[k] < end <= s[k + 1] && end <= |code|
    ensures 0 <= start < end && Last(code, start, end) == s[k]
  {
    hide Last;
    var m :| 0 <= m < |s| && s[m] == start;
    LastIs(code, s, m, k, end);
  }

  /** Jumping from instruction k of block j. */
  lemma JumpFollows(code: seq<Byte>, hs: seq<Handler>, s: seq<int>, blocks: seq<Block>, starts: seq<int>, j: int,
                    k: int, a: int)
    requires Layout(code, s) && Targeted(code, hs, s) && InRange(code, s, |s| - 1) && !TableInside(code, hs, s, k)
    requires CfgBy(code, hs, s, blocks, starts)
    requires 0 <= k < |s| - 1 && InBlock(blocks, j, s[k]) && 0 <= a < Arms(code, s[k])
    ensures Target(code, s[k], a) in s && FollowsEdges(code, hs, blocks, j, s[k], Target(code, s[k], a))
  {
    hide Last, Target, TableInside, LinkedTo;
    var t := Target(code, s[k], a);
    assert 0 <= t <= |code| && t in s;
    if t != |code| {
      BlockAligned(code, hs, s, starts, j);
      LayoutNext(code, s, k);
      JumpEnds(code, hs, s, blocks, starts, j, k, a);
    }
  }

  /** A branch is the last instruction of its block. */
  lemma BranchEnds(code: seq<Byte>, hs: seq<Handler>, s: seq<int>, starts: seq<int>, j: int, k: int)
    requires Layout(code, s) && Targeted(code, hs, s) && StartsOk(code, hs, s, starts) && !TableInside(code, hs, s, k)
    requires 0 <= j < |starts| && 0 <= k < |s| - 1 && starts[j] <= s[k] < EndOf(starts, |code|, j) <= |code|
    requires IsBranch(code[s[k]])
    ensures s[k + 1] == EndOf(starts, |code|, j)
    ensures 0 <= starts[j] && Last(code, starts[j], EndOf(starts, |code|, j)) == s[k]
  {
    hide Last, TableInside, Targeted, StartsOk;
    var end := EndOf(starts, |code|, j);
    BlockAligned(code, hs, s, starts, j);
    Ends(code, s, k, end);
    if s[k + 1] < end {
      InsideBlock(code, hs, s, starts, j, k);
    }
    StartOf(code, s, starts[j], k, end);
  }

  lemma JumpEnds(code: seq<Byte>, hs: seq<Handler>, s: seq<int>, blocks: seq<Block>, starts: seq<int>, j: int, k: int,
                 a: int)
    requires Layout(code, s) && Targeted(code, hs, s) && InRange(code, s, |s| - 1) && !TableInside(code, hs, s, k)
    requires CfgBy(code, hs, s, blocks, starts)
    requires 0 <= k < |s| - 1 && InBlock(blocks, j, s[k]) && 0 <= a < Arms(code, s[k])
    requires 0 <= Target(code, s[k], a) < |code|
    ensures exists i :: 0 <= i < |blocks| && blocks[i].start == Target(code, s[k], a) && j in blocks[i].preds
  {
    hide Last, Target, TableInside, Targeted, InRange, Layout, Leads;
    SlotsOf(code, s);
    var t := Target(code, s[k], a);
    EndsInside(code, hs, s, starts, j);
    BranchEnds(code, hs, s, starts, j, k);
    TargetLeads(code, s, k, a);
    assert Leader(code, hs, s, t);
    assert t in starts;
    var i :| 0 <= i < |starts| && starts[i] == t;
    assert ArmLeads(code, s[k], Arms(code, s[k]), starts[i]);
    assert Flows(code, starts, j, i);
    assert j in blocks[i].preds;
  }

  lemma TargetLeads(code: seq<Byte>, s: seq<int>, k: int, a: int)
    requires Layout(code, s) && 0 <= k < |s| - 1 && 0 <= a < Arms(code, s[k])
    ensures Leads(code, s, |s| - 1, Target(code, s[k], a))
  {
    hide Target;
  }

  lemma EndsInside(code: seq<Byte>, hs: seq<Handler>, s: seq<int>, starts: seq<int>, j: int)
    requires Layout(code, s) && StartsOk(code, hs, s, starts) && 0 <= j < |starts|
    ensures 0 <= starts[j] && EndOf(starts, |code|, j) <= |code|
  {
    hide Leads, Bounds;
    assert starts[j] in starts;
    assert j + 1 < |starts| ==> starts[j + 1] in starts;
  }

  lemma CatchFollows(code: seq<Byte>, hs: seq<Handler>, s: seq<int>, blocks: seq<Block>, starts: seq<int>, j: int,
                     ip: int, h: Handler)
    requires Layout(code, s) && Targeted(code, hs, s) && CfgBy(code, hs, s, blocks, starts) && h in hs
    ensures h.catch in s && FollowsEdges(code, hs, blocks, j, ip, h.catch)
  {
    hide Leads;
    assert Catches(hs, h.catch);
    if h.catch != |code| {
      assert Leader(code, hs, s, h.catch);
      assert h.catch in starts;
      var i :| 0 <= i < |starts| && starts[i] == h.catch;
      assert blocks[i].start == h.catch;
    }
  }

  lemma {:induction false} HandlerIn(hs: seq<Handler>, ip: int)
    ensures HandlerFor(hs, ip).Some? ==> HandlerFor(hs, ip).value in hs
  {
    if hs != [] {
      HandlerIn(hs[1..], ip);
    }
  }

  /** Control leaves an instruction only along the edges of the blocks, or to a handler. */
  lemma StepFollowsEdges(sem: Semantics, land: Land, code: seq<Byte>, hs: seq<Handler>, s: seq<int>,
                         blocks: seq<Block>, j: int, k: int, st: State)
    requires Layout(code, s) && Targeted(code, hs, s) && InRange(code, s, |s| - 1) && !TableInside(code, hs, s, k)
    requires IsCfg(code, hs, s, blocks) && Sensible(sem)
    requires 0 <= k < |s| - 1 && InBlock(blocks, j, s[k])
    ensures var c := Step(sem, land, code, hs, At(s[k], st));
            c.At? ==> c.ip in s && FollowsEdges(code, hs, blocks, j, s[k], c.ip)
  {
    hide StartsOk, LinkedTo, Flows, InRange, Targeted, TableInside, Core, Target, FollowsEdges, EndOf, HandlerFor;
    var starts :| CfgBy(code, hs, s, blocks, starts);
    LayoutNext(code, s, k);
    CoreHead(code, s[k]);
    match sem(Core(code, s[k]), st)
    case Next(_) =>
      NextFollows(code, hs, s, blocks, starts, j, k);
    case Jump(a, _) =>
      CoreArms(code, s[k]);
      JumpFollows(code, hs, s, blocks, starts, j, k, a);
    case Stop(_) =>
    case Raise(_) =>
      HandlerIn(hs, s[k]);
      if HandlerFor(hs, s[k]).Some? {
        CatchFollows(code, hs, s, blocks, starts, j, s[k], HandlerFor(hs, s[k]).value);
      }
  }

  lemma CoreArms(code: seq<Byte>, ip: int)
    requires 0 <= ip < |code|
    ensures code[ip] == BR || code[ip] == BR_IF ==> Arms(code, ip) == 1
    ensures code[ip] == BR_TABLE && |Core(code, ip)| == 2 ==> Arms(code, ip) == 1 + (Core(code, ip)[1] as int)
  {
  }

  /** A machine whose opcodes do what `does` says and whose branches take the arm `picks` says. Only 1, 5, 7, 10, 11
      and 205 never go on to the next instruction. */
  function Freely(does: (seq<Byte>, State) -> State, picks: (seq<Byte>, State) -> int, core: seq<Byte>,
                  st: State): Outcome {
    if core == [] then Raise(st)
    else if core == [0] then Next(st)
    else
      match core[0]
      case 1 => Raise(does(core, st))
      case 5 => Jump(0, does(core, st))
      case 6 => if picks(core, st) == 0 then Jump(0, does(core, st)) else Next(does(core, st))
      case 7 =>
        if |core| == 2 && 0 <= picks(core, st) <= core[1] then Jump(picks(core, st), does(core, st)) else Raise(st)
      case 10 => Stop(does(core, st))
      case 11 => Stop(does(core, st))
      case 205 => Raise(does(core, st))
      case _ => Next(does(core, st))
  }

  function Free(does: (seq<Byte>, State) -> State, picks: (seq<Byte>, State) -> int): Semantics {
    (core: seq<Byte>, st: State) => Freely(does, picks, core, st)
  }

  /** Nothing else is asked of a machine: whatever opcodes do to the state and whichever arms branches take, some
      machine does so, and every opcode but six goes on to the next instruction. */
  lemma FreeSensible(does: (seq<Byte>, State) -> State, picks: (seq<Byte>, State) -> int)
    ensures Sensible(Free(does, picks))
  {
  }

  lemma SomeFree(does: (seq<Byte>, State) -> State, picks: (seq<Byte>, State) -> int) returns (sem: Semantics)
    ensures Sensible(sem)
    ensures forall core, st :: core != [] && core[0] !in {0, 1, 5, 6, 7, 10, 11, 205} ==>
              sem(core, st) == Next(does(core, st))
    ensures forall core, st :: core != [] && core[0] == 6 ==>
              sem(core, st) == if picks(core, st) == 0 then Jump(0, does(core, st)) else Next(does(core, st))
    ensures forall st, n: Byte ::
              0 <= picks([7, n], st) <= n ==> sem([7, n], st) == Jump(picks([7, n], st), does([7, n], st))
    ensures forall core, st :: core != [] && core[0] == 5 ==> sem(core, st) == Jump(0, does(core, st))
  {
    FreeSensible(does, picks);
    sem := Free(does, picks);
  }

  /** What never goes on to the next instruction. */
  lemma SensibleStops(sem: Semantics, core: seq<Byte>, st: State)
    requires Sensible(sem) && core != [] && sem(core, st).Next?
    ensures core[0] !in {1, 5, 7, 10, 11, 205}
  {
  }

  /** An arm of the branch at ip that leads to x, or none. */
  ghost function ArmTo(code: seq<Byte>, ip: int, x: int): (a: int)
    requires 0 <= ip < |code|
    ensures ArmLeads(code, ip, Arms(code, ip), x) ==> 0 <= a < Arms(code, ip) && Target(code, ip, a) == x
    ensures !ArmLeads(code, ip, Arms(code, ip), x) ==> a == -1
  {
    if ArmLeads(code, ip, Arms(code, ip), x) then var b :| 0 <= b < Arms(code, ip) && Target(code, ip, b) == x; b
    else -1
  }

  lemma BoundariesHold(code: seq<Byte>, s: seq<int>)
    requires Layout(code, s)
    ensures |code| in s && s[|s| - 1] == |code| && forall i, k :: 0 <= i < k < |s| ==> s[i] < s[k]
  {
  }

  /** No boundary lies between two next to each other. */
  lemma NextBoundary(code: seq<Byte>, s: seq<int>, k: int, end: int)
    requires Layout(code, s) && 0 <= k < |s| - 1 && s[k] < end <= s[k + 1] && end in s
    ensures end == s[k + 1]
  {
    var n :| 0 <= n < |s| && s[n] == end;
    assert k < n <= k + 1;
  }

  /** The instruction that ends block j. */
  lemma LastInside(code: seq<Byte>, hs: seq<Handler>, s: seq<int>, starts: seq<int>, j: int) returns (k: int)
    requires Layout(code, s) && Targeted(code, hs, s) && StartsOk(code, hs, s, starts)
    requires 0 <= j < |starts| && 0 <= starts[j] < EndOf(starts, |code|, j) <= |code|
    ensures 0 <= k < |s| - 1 && s[k] == Last(code, starts[j], EndOf(starts, |code|, j)) && starts[j] <= s[k]
    ensures s[k] < EndOf(starts, |code|, j) == s[k + 1]
  {
    hide Layout, Rising, Leads, Bounds, Targeted, Last, Leader;
    var end := EndOf(starts, |code|, j);
    BoundariesHold(code, s);
    assert starts[j] in starts;
    LeaderAligned(code, hs, s, starts[j]);
    var m :| 0 <= m < |s| && s[m] == starts[j];
    LastAligned(code, s, m, end);
    k :| m <= k < |s| - 1 && s[k] == Last(code, s[m], end) && s[k] < end <= s[k + 1];
    if j + 1 < |starts| {
      assert starts[j + 1] in starts;
      LeaderAligned(code, hs, s, starts[j + 1]);
    }
    NextBoundary(code, s, k, end);
  }

  /** What a machine that changes nothing and takes arm a makes of the instruction at ip. */
  lemma FreeSteps(does: (seq<Byte>, State) -> State, picks: (seq<Byte>, State) -> int, code: seq<Byte>, ip: int, a: int,
                  st: State)
    requires 0 <= ip < |code| && does(Core(code, ip), st) == st && picks(Core(code, ip), st) == a
    ensures var o := Free(does, picks)(Core(code, ip), st);
            && (0 <= a < Arms(code, ip) ==> o == Jump(a, st))
            && (a == -1 && FallsThrough(code[ip]) ==> o == Next(st))
  {
    CoreHead(code, ip);
    CoreArms(code, ip);
  }

  /** Every edge is taken: some machine steps along it from an instruction of the block. */
  lemma EdgeTaken(code: seq<Byte>, hs: seq<Handler>, s: seq<int>, blocks: seq<Block>, j: int, i: int, st: State)
    returns (sem: Semantics, k: int)
    requires Layout(code, s) && Targeted(code, hs, s) && IsCfg(code, hs, s, blocks)
    requires 0 <= j < |blocks| && i in blocks[j].succs
    ensures Sensible(sem) && 0 <= k < |s| - 1 && InBlock(blocks, j, s[k]) && 0 <= i < |blocks|
    ensures forall land: Land :: Step(sem, land, code, hs, At(s[k], st)) == At(blocks[i].start, st)
  {
    hide StartsOk, Targeted, ArmLeads, Target, Core, Arms, Last, Free, Freely;
    var starts :| CfgBy(code, hs, s, blocks, starts);
    assert HasEdge(code, starts, |starts|, {}, j, i);
    k := LastInside(code, hs, s, starts, j);
    LayoutNext(code, s, k);
    var a := ArmTo(code, s[k], starts[i]);
    var does: (seq<Byte>, State) -> State, picks: (seq<Byte>, State) -> int := (core, st) => st, (core, st) => a;
    FreeSteps(does, picks, code, s[k], a, st);
    FreeSensible(does, picks);
    sem := Free(does, picks);
  }
}
