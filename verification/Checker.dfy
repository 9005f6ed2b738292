/** The verifier's passes over one function slot. */
module Checker {
  import opened Bytecode
  import opened Stacks
  import opened Verifier
  import Blocks

  predicate Defined(op: Byte) {
    op < 210
  }

  /** What an index operand must stay below, by opcode. */
  lemma IndexesIff(cx: Context, code: seq<Byte>, ip: int)
    requires 0 <= ip < |code|
    ensures InBounds(cx, code, ip) <==>
              match code[ip]
              case 16 => Operand(code, ip) < |cx.globals|
              case 17 => Operand(code, ip) < |cx.globals|
              case 18 => Operand(code, ip) < |cx.globals|
              case 19 => Operand(code, ip) < |cx.locals|
              case 20 => Operand(code, ip) < |cx.locals|
              case 21 => Operand(code, ip) < |cx.locals|
              case 22 => Operand(code, ip) < |cx.constants|
              case 23 => Operand(code, ip) < |cx.captures|
              case 24 => Operand(code, ip) < |cx.captures|
              case op => op in {29, 30, 180, 181, 190, 191, 194, 195} ==> Operand(code, ip) < |cx.types|
  {
    hide Operand;
  }

  /** Decoding from ip reaches the end of the code through defined, whole, in-range instructions. */
  predicate Decodes(cx: Context, code: seq<Byte>, ip: int)
    decreases |code| - ip
  {
    || ip == |code|
    || (0 <= ip < |code| && Defined(code[ip]) && ip + Width(code, ip) <= |code| && InBounds(cx, code, ip)
        && Decodes(cx, code, ip + Width(code, ip)))
  }

  method Structure(cx: Context, code: seq<Byte>) returns (r: Option<Error>)
    ensures r.None? <==> Decodes(cx, code, 0)
    ensures r.Some? ==> r.value in {UnknownOpcode, Truncated, IndexOutOfRange}
  {
    hide Width, InBounds;
    var ip := 0;
    while ip < |code|
      invariant 0 <= ip <= |code| && (Decodes(cx, code, 0) <==> Decodes(cx, code, ip))
      decreases |code| - ip
    {
      if !Defined(code[ip]) {
        return Some(UnknownOpcode);
      }
      var width := Width(code, ip);
      if ip + width > |code| {
        return Some(Truncated);
      }
      if !InBounds(cx, code, ip) {
        return Some(IndexOutOfRange);
      }
      ip := ip + width;
    }
    r := None;
  }

  /** The offsets of the instructions from ip on, and the end. */
  ghost function Offsets(code: seq<Byte>, ip: int): seq<int>
    decreases |code| - ip
  {
    if 0 <= ip < |code| then [ip] + Offsets(code, ip + Width(code, ip)) else [ip]
  }

  lemma {:induction false} OffsetsDecode(cx: Context, code: seq<Byte>, ip: int)
    requires Decodes(cx, code, ip) && 0 <= ip <= |code|
    ensures var s := Offsets(code, ip);
            && |s| > 0 && s[0] == ip && s[|s| - 1] == |code|
            && (forall j, k :: 0 <= j < k < |s| ==> s[j] < s[k])
            && (forall k ::
               0 <= k < |s| - 1 ==>
               0 <= s[k] < |code| && s[k] + Width(code, s[k]) == s[k + 1] && InBounds(cx, code, s[k]))
    decreases |code| - ip
  {
    hide Width, InBounds;
    if ip < |code| {
      OffsetsDecode(cx, code, ip + Width(code, ip));
    }
  }

  /** Structurally sound code has a layout. */
  lemma DecodesIsLayout(cx: Context, code: seq<Byte>)
    requires Decodes(cx, code, 0)
    ensures Layout(code, Offsets(code, 0)) && AllInBounds(cx, code, Offsets(code, 0))
  {
    hide Width, InBounds;
    OffsetsDecode(cx, code, 0);
  }

  /** The offsets that begin an instruction, and the end. */
  method Starts(cx: Context, code: seq<Byte>) returns (starts: set<int>)
    requires Decodes(cx, code, 0)
    ensures forall x :: x in starts <==> x in Offsets(code, 0)
  {
    hide Width, InBounds, Layout;
    DecodesIsLayout(cx, code);
    ghost var s := Offsets(code, 0);
    starts := {|code|};
    var ip := 0;
    ghost var k := 0;
    LayoutEnds(code, s);
    while ip < |code|
      invariant 0 <= k < |s| && ip == s[k] && 0 <= ip
      invariant forall x :: x in starts <==> x in s[..k] || x == |code|
      decreases |code| - ip
    {
      InstrHere(cx, code, s, k);
      starts := starts + {ip};
      assert s[..k + 1] == s[..k] + [s[k]];
      ip := ip + Width(code, ip);
      k := k + 1;
    }
    LayoutTail(code, s, k);
  }

  lemma LayoutEnds(code: seq<Byte>, s: seq<int>)
    requires Layout(code, s)
    ensures |s| > 0 && s[0] == 0 && s[|s| - 1] == |code|
  {
  }

  lemma LayoutTail(code: seq<Byte>, s: seq<int>, k: int)
    requires Layout(code, s) && 0 <= k < |s| && s[k] >= |code|
    ensures k == |s| - 1 && forall x :: x in s <==> x in s[..k] || x == |code|
  {
    assert s == s[..|s| - 1] + [s[|s| - 1]];
  }

  /** A protected region is a non-empty range of whole instructions, caught at an instruction. */
  predicate HandlerOk(h: Handler, size: int, starts: set<int>) {
    && 0 <= h.start < h.end <= size && h.start in starts && h.end in starts
    && 0 <= h.catch < size && h.catch in starts
  }

  /** An entry is sound exactly when its bounds are instruction boundaries, it protects some instruction, and it is
      caught at one. */
  lemma HandlerOkIff(code: seq<Byte>, s: seq<int>, h: Handler, starts: set<int>)
    requires Layout(code, s) && forall x :: x in starts <==> x in s
    ensures HandlerOk(h, |code|, starts) <==>
              && h.start in s && h.end in s && (exists k :: 0 <= k < |s| - 1 && h.start <= s[k] < h.end)
              && exists k :: 0 <= k < |s| - 1 && s[k] == h.catch
  {
    hide Width;
    if h.start in s {
      var k :| 0 <= k < |s| && s[k] == h.start;
      assert h.start < h.end <= |code| ==> k < |s| - 1;
    }
    if h.catch in s && h.catch < |code| {
      var k :| 0 <= k < |s| && s[k] == h.catch;
      assert k < |s| - 1;
    }
  }

  method Handlers(cx: Context, code: seq<Byte>, hs: seq<Handler>, starts: set<int>) returns (r: Option<Error>)
    ensures r.None? <==> forall h :: h in hs ==> HandlerOk(h, |code|, starts)
  {
    for i := 0 to |hs|
      invariant forall j :: 0 <= j < i ==> HandlerOk(hs[j], |code|, starts)
    {
      var h := hs[i];
      assert h in hs;
      if h.start < 0 || h.end > |code| || h.start >= h.end || h.start !in starts || h.end !in starts {
        return Some(HandlerRange);
      }
      if h.catch < 0 || h.catch >= |code| || h.catch !in starts {
        return Some(HandlerTarget);
      }
    }
    r := None;
  }

  /** A block and its successors; a sorted list of block indices, kept as a set. */
  datatype Node = Node(start: int, end: int, succs: set<int>)

  /** The instruction after op starts a block. */
  predicate Splits(op: Byte) {
    op == UNREACHABLE || op == RETURN || op == THROW || op == BR || op == BR_IF
  }

  /** The block after op's is its successor. */
  predicate Chains(op: Byte) {
    op != UNREACHABLE && op != RETURN && op != THROW && op != BR && op != BR_TABLE
  }

  predicate TargetOk(cx: Context, code: seq<Byte>, starts: set<int>, t: int) {
    0 <= t <= |code| && (t == |code| ==> cx.top) && t in starts
  }

  /** The branch at ip leads only to instructions; only top-level code may branch to its end. */
  ghost predicate ArmsOk(cx: Context, code: seq<Byte>, starts: set<int>, ip: int)
    requires 0 <= ip < |code|
  {
    forall a :: 0 <= a < Arms(code, ip) ==> TargetOk(cx, code, starts, Target(code, ip, a))
  }

  ghost predicate AllArmsOk(cx: Context, code: seq<Byte>, starts: set<int>, s: seq<int>, n: int)
    requires Layout(code, s)
  {
    forall k :: 0 <= k < |s| - 1 && k < n ==> ArmsOk(cx, code, starts, s[k])
  }

  /** x starts a block because of one of the first n instructions. */
  ghost predicate Leads(code: seq<Byte>, s: seq<int>, n: int, x: int)
    requires Layout(code, s)
  {
    || (exists k :: 0 <= k < |s| - 1 && k < n && Blocks.ArmLeads(code, s[k], Arms(code, s[k]), x))
    || (exists k :: 0 <= k < |s| - 1 && k < n && Splits(code[s[k]]) && s[k + 1] == x)
  }

  ghost predicate Leader(code: seq<Byte>, hs: seq<Handler>, s: seq<int>, x: int)
    requires Layout(code, s)
  {
    x == 0 || (0 <= x < |code| && (Leads(code, s, |s| - 1, x) || Blocks.Bounds(hs, x)))
  }

  lemma LeadsNext(code: seq<Byte>, s: seq<int>, n: int)
    requires Layout(code, s) && 0 <= n < |s| - 1
    ensures forall x :: Leads(code, s, n + 1, x) <==>
              Leads(code, s, n, x) || Blocks.ArmLeads(code, s[n], Arms(code, s[n]), x) ||
                  (Splits(code[s[n]]) && s[n + 1] == x)
  {
    hide Layout, Arms, Splits, Blocks.ArmLeads;
    Blocks.SlotsOf(code, s);
    forall x
      ensures Leads(code, s, n + 1, x) <==>
                Leads(code, s, n, x) || Blocks.ArmLeads(code, s[n], Arms(code, s[n]), x) ||
                    (Splits(code[s[n]]) && s[n + 1] == x)
    {
      if Leads(code, s, n + 1, x) {
        if k :| 0 <= k < |s| - 1 && k < n + 1 && Blocks.ArmLeads(code, s[k], Arms(code, s[k]), x) {
          assert k < n || k == n;
        } else {
          var k :| 0 <= k < |s| - 1 && k < n + 1 && Splits(code[s[k]]) && s[k + 1] == x;
          assert k < n || k == n;
        }
      }
    }
  }

  lemma NothingLeads(code: seq<Byte>, s: seq<int>)
    requires Layout(code, s)
    ensures forall x :: !Leads(code, s, 0, x)
  {
  }

  method MarkTargets(cx: Context, code: seq<Byte>, starts: set<int>, ip: int, offsets: set<int>)
                     returns (r: Option<set<int>>)
    requires 0 <= ip < |code|
    ensures r.Some? <==> ArmsOk(cx, code, starts, ip)
    ensures r.Some? ==> forall x ::
      x in r.value <==> x in offsets || (0 <= x < |code| && Blocks.ArmLeads(code, ip, Arms(code, ip), x))
  {
    hide Target, Arms, Blocks.ArmLeads;
    var found := offsets;
    Blocks.ArmLeadsNext(code, ip, 0);
    Blocks.ArmsNat(code, ip);
    for a := 0 to Arms(code, ip)
      invariant forall b :: 0 <= b < a ==> TargetOk(cx, code, starts, Target(code, ip, b))
      invariant forall x :: x in found <==> x in offsets || (0 <= x < |code| && Blocks.ArmLeads(code, ip, a, x))
    {
      Blocks.ArmLeadsNext(code, ip, a);
      var target := Target(code, ip, a);
      if target < 0 || target > |code| || (target == |code| && !cx.top) || target !in starts {
        return None;
      }
      if target < |code| {
        found := found + {target};
      }
    }
    r := Some(found);
  }

  /** Collects what starts a block. None is an invalid jump. */
  method Boundaries(cx: Context, code: seq<Byte>, hs: seq<Handler>, starts: set<int>, ghost s: seq<int>)
                    returns (r: Option<set<int>>)
    requires Layout(code, s) && AllInBounds(cx, code, s)
    ensures r.Some? <==> AllArmsOk(cx, code, starts, s, |s| - 1)
    ensures r.Some? ==> forall x :: x in r.value <==> Leader(code, hs, s, x)
  {
    hide Layout, Leads, Blocks.ArmLeads, Blocks.Bounds, ArmsOk, Arms, Splits, Width, AllInBounds, InBounds;
    var offsets := {0};
    var ip := 0;
    ghost var k := 0;
    LayoutEnds(code, s);
    Blocks.SlotsOf(code, s);
    NothingLeads(code, s);
    while ip < |code|
      invariant 0 <= k <= |s| - 1 && ip == s[k] && 0 <= ip
      invariant AllArmsOk(cx, code, starts, s, k)
      invariant forall x :: x in offsets <==> x == 0 || (0 <= x < |code| && Leads(code, s, k, x))
      decreases |code| - ip
    {
      InstrHere(cx, code, s, k);
      LeadsNext(code, s, k);
      var marked := MarkTargets(cx, code, starts, ip, offsets);
      if marked.None? {
        return None;
      }
      offsets := marked.value;
      var next := ip + Width(code, ip);
      if Splits(code[ip]) && next < |code| {
        offsets := offsets + {next};
      }
      ip := next;
      k := k + 1;
    }
    LayoutTail(code, s, k);
    offsets := Blocks.HandlerBounds(|code|, hs, offsets);
    r := Some(offsets);
  }

  /** The block starts in order. */
  ghost predicate StartsOk(code: seq<Byte>, hs: seq<Handler>, s: seq<int>, starts: seq<int>)
    requires Layout(code, s)
  {
    |starts| > 0 && starts[0] == 0 && Blocks.Rising(starts) && forall x :: x in starts <==> Leader(code, hs, s, x)
  }

  /** Control, as the verifier sees it, can pass from block j to block i. */
  ghost predicate Flows(code: seq<Byte>, starts: seq<int>, j: int, i: int) {
    && 0 <= j < |starts| && 0 <= i < |starts| && 0 <= starts[j] < Blocks.EndOf(starts, |code|, j) <= |code|
    && var ip := Blocks.Last(code, starts[j], Blocks.EndOf(starts, |code|, j));
    Blocks.ArmLeads(code, ip, Arms(code, ip), starts[i]) || (i == j + 1 && Chains(code[ip]))
  }

  ghost predicate NodesBy(code: seq<Byte>, hs: seq<Handler>, s: seq<int>, nodes: seq<Node>, starts: seq<int>)
    requires Layout(code, s)
  {
    && |starts| == |nodes| && StartsOk(code, hs, s, starts)
    && forall j :: 0 <= j < |nodes| ==> NodeIs(code, starts, nodes[j], j)
  }

  ghost predicate NodeIs(code: seq<Byte>, starts: seq<int>, n: Node, j: int)
    requires 0 <= j < |starts|
  {
    && n.start == starts[j] && n.end == Blocks.EndOf(starts, |code|, j)
    && forall i :: i in n.succs <==> Flows(code, starts, j, i)
  }

  ghost predicate IsCfg(code: seq<Byte>, hs: seq<Handler>, s: seq<int>, nodes: seq<Node>)
    requires Layout(code, s)
  {
    exists starts :: NodesBy(code, hs, s, nodes, starts)
  }

  /** Without tail calls the verifier cuts code up where the passes do. */
  lemma SameLeaders(code: seq<Byte>, hs: seq<Handler>, s: seq<int>, x: int)
    requires Layout(code, s) && forall k :: 0 <= k < |s| - 1 ==> code[s[k]] != 11
    ensures Leader(code, hs, s, x) <==> Blocks.Leader(code, hs, s, x)
  {
    hide Arms, Target;
  }

  /** Blocks cut up alike have the passes' edges, and one more each where a block ends with a tail call: the verifier
      takes it for an instruction like any other. */
  lemma SameEdges(code: seq<Byte>, starts: seq<int>, j: int, i: int)
    requires 0 <= j < |starts| && 0 <= i < |starts| && 0 <= starts[j] < Blocks.EndOf(starts, |code|, j) <= |code|
    requires starts[i] < |code|
    ensures var ip := Blocks.Last(code, starts[j], Blocks.EndOf(starts, |code|, j));
            Flows(code, starts, j, i) <==> Blocks.Flows(code, starts, j, i) || (code[ip] == 11 && i == j + 1)
  {
    hide Target, Blocks.Last, Blocks.EndOf;
  }

  /** The block that holds offset x. */
  method BlockOf(starts: seq<int>, size: int, x: int) returns (r: Option<int>)
    requires Blocks.Rising(starts)
    ensures x in starts && x < size ==> r.Some? && 0 <= r.value < |starts| && starts[r.value] == x
  {
    for i := 0 to |starts|
      invariant forall j :: 0 <= j < i ==> starts[j] != x || x >= size
    {
      if starts[i] <= x < Blocks.EndOf(starts, size, i) {
        OnlyBlock(starts, size, x, i);
        return Some(i);
      }
    }
    r := None;
  }

  lemma OnlyBlock(starts: seq<int>, size: int, x: int, i: int)
    requires Blocks.Rising(starts) && 0 <= i < |starts| && starts[i] <= x < Blocks.EndOf(starts, size, i)
    ensures x in starts ==> starts[i] == x
  {
    Blocks.EndsBefore(starts, size);
  }

  /** Every arm of the branch at ip leads to a block or to the end of the code. */
  ghost predicate ArmsIn(code: seq<Byte>, ip: int, starts: seq<int>)
    requires 0 <= ip < |code|
  {
    forall a :: 0 <= a < Arms(code, ip) ==>
        Target(code, ip, a) == |code| || (Target(code, ip, a) in starts && 0 <= Target(code, ip, a) < |code|)
  }

  /** The successors of block j. */
  method Successors(code: seq<Byte>, starts: seq<int>, j: int) returns (r: set<int>)
    requires Blocks.Rising(starts) && 0 <= j < |starts| && 0 <= starts[j] < Blocks.EndOf(starts, |code|, j) <= |code|
    requires forall i :: 0 <= i < |starts| ==> starts[i] < |code|
    requires ArmsIn(code, Blocks.Last(code, starts[j], Blocks.EndOf(starts, |code|, j)), starts)
    ensures forall i :: i in r <==> Flows(code, starts, j, i)
  {
    hide Blocks.ArmLeads, Arms, Target, Blocks.Last;
    var ip := Blocks.Last(code, starts[j], Blocks.EndOf(starts, |code|, j));
    r := {};
    Blocks.ArmLeadsNext(code, ip, 0);
    Blocks.ArmsNat(code, ip);
    for a := 0 to Arms(code, ip)
      invariant forall i :: i in r <==> 0 <= i < |starts| && Blocks.ArmLeads(code, ip, a, starts[i])
    {
      Blocks.ArmLeadsNext(code, ip, a);
      var dst := Target(code, ip, a);
      if dst != |code| {
        var i := BlockOf(starts, |code|, dst);
        if i.Some? {
          r := r + {i.value};
        }
      }
    }
    if Chains(code[ip]) && j + 1 < |starts| {
      r := r + {j + 1};
    }
  }

  lemma LeadersInside(code: seq<Byte>, hs: seq<Handler>, s: seq<int>, starts: seq<int>)
    requires Layout(code, s) && Blocks.Rising(starts) && (forall x :: x in starts <==> Leader(code, hs, s, x))
    requires |code| > 0
    ensures StartsOk(code, hs, s, starts)
    ensures forall j ::
      0 <= j < |starts| ==> 0 <= starts[j] < |code| && starts[j] < Blocks.EndOf(starts, |code|, j) <= |code|
  {
    hide Leads, Blocks.Bounds;
    assert Leader(code, hs, s, 0);
    assert 0 in starts;
    forall j | 0 <= j < |starts|
      ensures 0 <= starts[j] < |code|
    {
      assert starts[j] in starts;
      assert Leader(code, hs, s, starts[j]);
    }
  }

  lemma LeaderBounds(code: seq<Byte>, hs: seq<Handler>, s: seq<int>)
    requires Layout(code, s) && |code| > 0
    ensures forall x :: Leader(code, hs, s, x) ==> 0 <= x < |code|
  {
  }

  /** Every boundary the control-flow graph uses is an instruction. */
  ghost predicate Aligned(cx: Context, code: seq<Byte>, hs: seq<Handler>, s: seq<int>)
    requires Layout(code, s)
  {
    && (forall k, a :: 0 <= k < |s| - 1 && 0 <= a < Arms(code, s[k]) ==>
          Target(code, s[k], a) in s && (Target(code, s[k], a) == |code| ==> cx.top))
    && (forall h :: h in hs ==> h.start in s && h.end in s && h.catch in s && 0 <= h.catch < |code|)
  }

  lemma LeaderAligned(cx: Context, code: seq<Byte>, hs: seq<Handler>, s: seq<int>, x: int)
    requires Layout(code, s) && Aligned(cx, code, hs, s) && Leader(code, hs, s, x)
    ensures x in s
  {
    if x != 0 {
      if Leads(code, s, |s| - 1, x) {
        hide Arms, Target;
        Blocks.SlotsOf(code, s);
      }
    }
  }

  lemma ArmsLead(cx: Context, code: seq<Byte>, hs: seq<Handler>, s: seq<int>, starts: seq<int>, k: int)
    requires Layout(code, s) && StartsOk(code, hs, s, starts) && Aligned(cx, code, hs, s) && 0 <= k < |s| - 1
    ensures 0 <= s[k] < |code| && ArmsIn(code, s[k], starts)
  {
    hide Arms, Target, Blocks.Bounds;
    Blocks.SlotsOf(code, s);
    forall a | 0 <= a < Arms(code, s[k]) && Target(code, s[k], a) != |code|
      ensures Target(code, s[k], a) in starts && 0 <= Target(code, s[k], a) < |code|
    {
      InLayout(code, s, Target(code, s[k], a));
      assert Blocks.ArmLeads(code, s[k], Arms(code, s[k]), Target(code, s[k], a));
      assert Leads(code, s, |s| - 1, Target(code, s[k], a));
      assert Leader(code, hs, s, Target(code, s[k], a));
    }
  }

  lemma InLayout(code: seq<Byte>, s: seq<int>, x: int)
    requires Layout(code, s) && x in s
    ensures 0 <= x <= |code|
  {
  }

  lemma EndAligned(cx: Context, code: seq<Byte>, hs: seq<Handler>, s: seq<int>, starts: seq<int>, j: int)
    requires Layout(code, s) && Aligned(cx, code, hs, s) && StartsOk(code, hs, s, starts)
    requires 0 <= j < |starts| && 0 <= starts[j] < Blocks.EndOf(starts, |code|, j) <= |code|
    ensures ArmsIn(code, Blocks.Last(code, starts[j], Blocks.EndOf(starts, |code|, j)), starts)
  {
    hide Leads, Blocks.Bounds, Aligned, Blocks.Last, Arms, Target;
    assert starts[j] in starts;
    LeaderAligned(cx, code, hs, s, starts[j]);
    var k :| 0 <= k < |s| && s[k] == starts[j];
    LayoutEnds(code, s);
    Blocks.LastAligned(code, s, k, Blocks.EndOf(starts, |code|, j));
    var m :| k <= m < |s| - 1 && s[m] == Blocks.Last(code, s[k], Blocks.EndOf(starts, |code|, j));
    ArmsLead(cx, code, hs, s, starts, m);
  }

  /** The control-flow graph. None is an invalid jump. */
  method Cfg(cx: Context, code: seq<Byte>, hs: seq<Handler>, bounds: set<int>, ghost s: seq<int>)
             returns (r: Option<seq<Node>>)
    requires Layout(code, s) && AllInBounds(cx, code, s) && |code| > 0 && forall x :: x in bounds <==> x in s
    requires forall h :: h in hs ==> HandlerOk(h, |code|, bounds)
    ensures r.Some? <==> AllArmsOk(cx, code, bounds, s, |s| - 1)
    ensures r.Some? ==> Aligned(cx, code, hs, s) && IsCfg(code, hs, s, r.value)
  {
    hide Layout, Leader, AllArmsOk, AllInBounds, Aligned, Flows, Blocks.Rising, Blocks.EndOf, ArmsIn, Blocks.Last;
    var offsets := Boundaries(cx, code, hs, bounds, s);
    if offsets.None? {
      return None;
    }
    ArmsAligned(cx, code, hs, bounds, s);
    LeaderBounds(code, hs, s);
    var starts := Blocks.Sorted(offsets.value, |code|);
    LeadersInside(code, hs, s, starts);
    var nodes := [];
    for j := 0 to |starts|
      invariant |nodes| == j && forall i :: 0 <= i < j ==> NodeIs(code, starts, nodes[i], i)
    {
      EndAligned(cx, code, hs, s, starts, j);
      var succs := Successors(code, starts, j);
      nodes := nodes + [Node(starts[j], Blocks.EndOf(starts, |code|, j), succs)];
    }
    assert NodesBy(code, hs, s, nodes, starts);
    r := Some(nodes);
  }

  lemma ArmsAligned(cx: Context, code: seq<Byte>, hs: seq<Handler>, bounds: set<int>, s: seq<int>)
    requires Layout(code, s) && AllArmsOk(cx, code, bounds, s, |s| - 1) && forall x :: x in bounds <==> x in s
    requires forall h :: h in hs ==> HandlerOk(h, |code|, bounds)
    ensures Aligned(cx, code, hs, s)
  {
    hide Arms, Target;
    Blocks.SlotsOf(code, s);
    forall k, a | 0 <= k < |s| - 1 && 0 <= a < Arms(code, s[k])
      ensures Target(code, s[k], a) in s && (Target(code, s[k], a) == |code| ==> cx.top)
    {
      assert ArmsOk(cx, code, bounds, s[k]);
      assert TargetOk(cx, code, bounds, Target(code, s[k], a));
    }
  }

  /** Every block of a function without successors ends in a terminator. */
  ghost predicate Terminates(cx: Context, code: seq<Byte>, nodes: seq<Node>) {
    cx.top || forall j :: 0 <= j < |nodes| && nodes[j].succs == {} && 0 <= nodes[j].start < nodes[j].end <= |code| ==>
                Stops(code[Blocks.Last(code, nodes[j].start, nodes[j].end)])
  }

  method Terminate(cx: Context, code: seq<Byte>, nodes: seq<Node>) returns (r: Option<Error>)
    requires forall j :: 0 <= j < |nodes| ==> 0 <= nodes[j].start < nodes[j].end <= |code|
    ensures r.None? <==> Terminates(cx, code, nodes)
  {
    hide Blocks.Last, Stops;
    if cx.top {
      return None;
    }
    for j := 0 to |nodes|
      invariant forall i ::
        0 <= i < j && nodes[i].succs == {} ==> Stops(code[Blocks.Last(code, nodes[i].start, nodes[i].end)])
    {
      if |nodes[j].succs| == 0 {
        var ip := Blocks.Last(code, nodes[j].start, nodes[j].end);
        if !Stops(code[ip]) {
          return Some(FallThrough);
        }
      }
    }
    r := None;
  }
}
