/** Verification of one function slot, end to end. */
module Verify {
  import opened Bytecode
  import opened Stacks
  import opened Verifier
  import opened Checker
  import opened Dataflow
  import opened Heights
  import Blocks
  import Compaction

  /** Undecided is a pass without a stack verdict: some instruction's effect is not known statically. */
  datatype Outcome = Accepted | Undecided | Refused(error: Error)

  /** Every structural check but termination passes. */
  ghost predicate WellFormed(cx: Context, code: seq<Byte>, hs: seq<Handler>) {
    && Decodes(cx, code, 0)
    && var s := Offsets(code, 0);
       && (forall h :: h in hs ==> HandlerOk(h, |code|, Boundary(s)))
       && Layout(code, s) && AllArmsOk(cx, code, Boundary(s), s, |s| - 1)
  }

  /** Nothing arrives at a block with a kind on the stack that the block's instructions do not take. */
  ghost predicate KindsFit(cx: Context, code: seq<Byte>, hs: seq<Handler>, nodes: seq<Node>) {
    !Stuck(cx, code, hs, nodes, Reject(TypeMismatch))
  }

  ghost function Boundary(s: seq<int>): set<int> {
    set x | x in s
  }

  method Check(cx: Context, code: seq<Byte>, hs: seq<Handler>)
               returns (r: Outcome, ghost nodes: seq<Node>, ghost entries: seq<Entry>)
    ensures code == [] ==> r == Accepted
    ensures code != [] && WellFormed(cx, code, hs) ==>
      Layout(code, Offsets(code, 0)) && IsCfg(code, hs, Offsets(code, 0), nodes)
    ensures r.Accepted? && code != [] ==>
              var s := Offsets(code, 0);
              && Layout(code, s) && AllInBounds(cx, code, s) && Aligned(cx, code, hs, s)
              && PostFixpoint(cx, code, hs, nodes, entries)
    ensures r.Accepted? && code != [] ==>
              WellFormed(cx, code, hs) && Terminates(cx, code, nodes) && !Clash(cx, code, hs, nodes) &&
                  !Blocked(cx, code, hs, nodes)
    ensures r.Refused? ==>
              || !WellFormed(cx, code, hs) || !Terminates(cx, code, nodes)
              || Stuck(cx, code, hs, nodes, Reject(r.error)) || Clash(cx, code, hs, nodes)
    ensures r.Undecided? ==> Stuck(cx, code, hs, nodes, Indeterminate)
    ensures code != [] && KindsFit(cx, code, hs, nodes) ==>
              (r.Accepted? <==> WellFormed(cx, code, hs) && Terminates(cx, code, nodes) && !Clash(cx, code, hs, nodes)
                                && !Blocked(cx, code, hs, nodes))
  {
    hide Decodes, Layout, AllInBounds, Aligned, IsCfg, PostFixpoint, Terminates, AllArmsOk, Stuck, Clash, AllArrive,
         Offsets, HandlerOk;
    nodes, entries := [], [];
    if |code| == 0 {
      return Accepted, [], [];
    }
    var bad := Structure(cx, code);
    if bad.Some? {
      return Refused(bad.value), nodes, entries;
    }
    ghost var s := Offsets(code, 0);
    DecodesIsLayout(cx, code);
    var starts := Starts(cx, code);
    assert forall x :: x in starts <==> x in Boundary(s);
    assert starts == Boundary(s);
    bad := Handlers(cx, code, hs, starts);
    if bad.Some? {
      return Refused(bad.value), nodes, entries;
    }
    var cfg := Cfg(cx, code, hs, starts, s);
    if cfg.None? {
      return Refused(InvalidJump), nodes, entries;
    }
    nodes := cfg.value;
    assert WellFormed(cx, code, hs);
    CfgIsOk(cx, code, hs, s, nodes);
    bad := Terminate(cx, code, cfg.value);
    if bad.Some? {
      return Refused(bad.value), nodes, entries;
    }
    var flow := Flow(cx, code, hs, cfg.value, s);
    match flow
    case Passed(e) => r, entries := Accepted, e;
    case Unknown =>
      assert Blocked(cx, code, hs, nodes);
      r := Undecided;
    case Rejected(e) =>
      assert Clash(cx, code, hs, nodes) || e == TypeMismatch || Blocked(cx, code, hs, nodes);
      r := Refused(e);
  }

  lemma CfgIsOk(cx: Context, code: seq<Byte>, hs: seq<Handler>, s: seq<int>, nodes: seq<Node>)
    requires Layout(code, s) && |code| > 0 && Aligned(cx, code, hs, s) && IsCfg(code, hs, s, nodes)
    ensures NodesOk(code, nodes, s)
    ensures forall j :: 0 <= j < |nodes| ==> 0 <= nodes[j].start < nodes[j].end <= |code|
  {
    hide Layout, Aligned, Leader;
    var starts :| NodesBy(code, hs, s, nodes, starts);
    forall j | 0 <= j < |nodes|
      ensures nodes[j].start in s && 0 <= nodes[j].start < nodes[j].end <= |code|
      ensures NodeIs(code, starts, nodes[j], j) && forall i :: i in nodes[j].succs ==> 0 <= i < |nodes|
    {
      Heights.BlockSpan(cx, code, hs, s, nodes, starts, j);
      assert NodeIs(code, starts, nodes[j], j);
    }
  }

  /** The body does not end in a conditional branch. */
  ghost predicate EndsSafely(code: seq<Byte>, s: seq<int>)
    requires Layout(code, s)
  {
    |s| > 1 ==> code[s[|s| - 2]] != BR_IF
  }

  /** Control that runs off a body's end falls through its last instruction. */
  lemma FallsOff(cx: Context, code: seq<Byte>, hs: seq<Handler>, s: seq<int>, m: int)
    requires Layout(code, s) && Aligned(cx, code, hs, s) && !cx.top && 0 <= m < |s| - 1 && Goes(code, s[m], |code|)
    ensures m == |s| - 2 && Blocks.FallsThrough(code[s[m]])
  {
    hide Target, Arms, Width;
    Blocks.SlotsOf(code, s);
    LayoutNext(code, s, m);
    if Blocks.FallsThrough(code[s[m]]) && s[m + 1] == |code| {
      AtTail(code, s, m + 1);
    }
  }

  lemma AtTail(code: seq<Byte>, s: seq<int>, k: int)
    requires Layout(code, s) && 0 <= k < |s| && s[k] == |code|
    ensures k == |s| - 1
  {
  }

  /** The last instruction of a function that passed is a terminator or a branch. */
  lemma LastTerminates(cx: Context, code: seq<Byte>, hs: seq<Handler>, s: seq<int>, nodes: seq<Node>)
    requires Layout(code, s) && |code| > 0 && Aligned(cx, code, hs, s) && IsCfg(code, hs, s, nodes)
    requires Terminates(cx, code, nodes) && !cx.top
    ensures |s| > 1 && 0 <= s[|s| - 2] < |code| && (Stops(code[s[|s| - 2]]) || IsBranch(code[s[|s| - 2]]))
  {
    hide Layout, Aligned, Leader, Blocks.Last;
    LayoutEnds(code, s);
    TailInside(code, s);
    var starts :| NodesBy(code, hs, s, nodes, starts);
    var m, j := |s| - 2, |nodes| - 1;
    Heights.BlockSpan(cx, code, hs, s, nodes, starts, j);
    assert NodeIs(code, starts, nodes[j], j);
    EndsLast(code, s, m, nodes[j].start);
    assert !Interior(code, hs, s, m);
    if !IsBranch(code[s[m]]) {
      Heights.LastOne(cx, code, hs, s, nodes, starts, j, m);
      NoArmFlows(code, starts, j, s[m]);
      forall i
        ensures i !in nodes[j].succs
      {
        assert !Flows(code, starts, j, i);
      }
    }
  }

  lemma TailInside(code: seq<Byte>, s: seq<int>)
    requires Layout(code, s) && |code| > 0
    ensures |s| > 1 && 0 <= s[|s| - 2] < |code|
  {
  }

  lemma EndsLast(code: seq<Byte>, s: seq<int>, m: int, start: int)
    requires Layout(code, s) && m == |s| - 2 && m >= 0 && start in s && start < |code|
    ensures start <= s[m] < s[m + 1] == |code|
  {
  }

  lemma NoArmFlows(code: seq<Byte>, starts: seq<int>, j: int, ip: int)
    requires j == |starts| - 1 && 0 <= j && 0 <= starts[j] < Blocks.EndOf(starts, |code|, j) <= |code|
    requires ip == Blocks.Last(code, starts[j], Blocks.EndOf(starts, |code|, j)) && !IsBranch(code[ip])
    ensures forall i :: !Flows(code, starts, j, i)
  {
    hide Blocks.Last, Target;
  }

  /** No run is ever at the end of the code. */
  ghost predicate Contained(cx: Context, code: seq<Byte>, hs: seq<Handler>, calls: int -> Signature) {
    forall run: seq<Height>, n: int :: IsRun(cx, code, hs, calls, run) && 0 <= n < |run| ==> Inside(code, run[n])
  }

  ghost predicate Inside(code: seq<Byte>, x: Height) {
    x.Running? ==> x.ip != |code|
  }

  /** The body does not end in a conditional branch, or control cannot reach its last instruction. */
  ghost predicate NoWayOff(code: seq<Byte>, hs: seq<Handler>, s: seq<int>)
    requires Layout(code, s) && |s| > 1
  {
    EndsSafely(code, s) || !Reached(code, hs, s[|s| - 2])
  }

  /** Control that leaves a tracked state for the end of the code leaves a conditional branch, the last instruction. */
  lemma StepOff(cx: Context, code: seq<Byte>, hs: seq<Handler>, s: seq<int>, nodes: seq<Node>, entries: seq<Entry>,
                calls: int -> Signature, x: Height, y: Height)
    requires Passes(cx, code, hs, s, nodes, entries) && Terminates(cx, code, nodes) && !cx.top
    requires Layout(code, s) && AllInBounds(cx, code, s) && |entries| == |nodes|
    requires Tracks(cx, code, s, nodes, entries, x)
    requires Moves(cx, code, hs, calls, x, y) && y.Running? && y.ip == |code|
    ensures |s| > 1 && x.Running? && x.ip == s[|s| - 2] && !EndsSafely(code, s)
  {
    hide Layout, AllInBounds, Aligned, IsCfg, PostFixpoint, DepthsOk, Terminates, Tracked, Goes, UseOf, InBounds,
         HandlerFor;
    var j, k, m :| Tracked(cx, code, s, nodes, entries, x.ip, x.h, j, k, m);
    TrackedIs(cx, code, s, nodes, entries, x.ip, x.h, j, k, m);
    Blocks.HandlerIn(hs, x.ip);
    CatchesInside(cx, code, hs, s);
    FallsOff(cx, code, hs, s, m);
    LastTerminates(cx, code, hs, s, nodes);
  }

  /** A run of a function never reaches the end of its code when the function does not end in a conditional
      branch, or control cannot reach that branch. */
  lemma StaysInside(cx: Context, code: seq<Byte>, hs: seq<Handler>, s: seq<int>, nodes: seq<Node>, entries: seq<Entry>,
                    calls: int -> Signature, run: seq<Height>, n: nat)
    requires Passes(cx, code, hs, s, nodes, entries) && CallsMatch(cx, code, s, nodes, entries, calls)
    requires TablesFit(cx, code, hs, s, nodes, entries)
    requires Terminates(cx, code, nodes) && !cx.top && (|s| > 1 ==> NoWayOff(code, hs, s))
    requires IsRun(cx, code, hs, calls, run) && n < |run| && run[n].Running?
    ensures run[n].ip != |code|
  {
    hide Layout, AllInBounds, Passes, Terminates, CallsMatch, Tracks, TablesFit, Moves, EndsSafely, Reached;
    PassesFit(cx, code, hs, s, nodes, entries);
    if n > 0 && run[n].ip == |code| {
      RunsTracked(cx, code, hs, s, nodes, entries, calls, run, n - 1);
      assert Moves(cx, code, hs, calls, run[n - 1], run[n]);
      ReachedBefore(cx, code, hs, calls, run, n);
      StepOff(cx, code, hs, s, nodes, entries, calls, run[n - 1], run[n]);
    }
  }

  lemma ReachedBefore(cx: Context, code: seq<Byte>, hs: seq<Handler>, calls: int -> Signature, run: seq<Height>, n: nat)
    requires IsRun(cx, code, hs, calls, run) && 0 < n < |run|
    ensures run[n - 1].Running? && Reached(code, hs, run[n - 1].ip)
  {
    hide Walk, CanPass, Goes, UseOf, InBounds, HandlerFor;
    assert Moves(cx, code, hs, calls, run[n - 1], run[n]);
    var p := RunWalks(cx, code, hs, calls, run, n - 1);
  }

  /** A closing conditional branch that control can reach lets a run off the end. */
  lemma RunsOff(cx: Context, code: seq<Byte>, hs: seq<Handler>, s: seq<int>, nodes: seq<Node>, entries: seq<Entry>,
                calls: int -> Signature) returns (run: seq<Height>)
    requires Passes(cx, code, hs, s, nodes, entries) && CallsMatch(cx, code, s, nodes, entries, calls)
    requires Layout(code, s) && AllInBounds(cx, code, s) && |entries| == |nodes|
    requires TablesFit(cx, code, hs, s, nodes, entries)
    requires |s| > 1 && !NoWayOff(code, hs, s)
    ensures IsRun(cx, code, hs, calls, run) && !Inside(code, run[|run| - 1])
  {
    hide Layout, AllInBounds, Passes, CallsMatch, Tracks, TablesFit, Moves, CanPass;
    var p :| Walk(code, hs, p) && p[|p| - 1] == s[|s| - 2];
    forall run: seq<Height>, n: int | IsRun(cx, code, hs, calls, run) && 0 <= n < |run|
      ensures Tracks(cx, code, s, nodes, entries, run[n])
    {
      RunsTracked(cx, code, hs, s, nodes, entries, calls, run, n);
    }
    var r := WalkRuns(cx, code, hs, s, nodes, entries, calls, p);
    BranchEnds(code, hs, s);
    var y := StepTo(cx, code, hs, s, nodes, entries, calls, r[|r| - 1], |code|);
    run := r + [y];
  }

  lemma BranchEnds(code: seq<Byte>, hs: seq<Handler>, s: seq<int>)
    requires Layout(code, s) && |s| > 1 && code[s[|s| - 2]] == BR_IF
    ensures CanPass(code, hs, s[|s| - 2], |code|)
  {
    hide Width, HandlerFor;
    LayoutEnds(code, s);
    LayoutNext(code, s, |s| - 2);
  }

  /** The exact condition under which a function that passed stays inside its code: the termination check looks only
      at blocks without successors, so a conditional branch may come last. */
  lemma StaysInsideIff(cx: Context, code: seq<Byte>, hs: seq<Handler>, s: seq<int>, nodes: seq<Node>,
                       entries: seq<Entry>, calls: int -> Signature)
    requires Passes(cx, code, hs, s, nodes, entries) && CallsMatch(cx, code, s, nodes, entries, calls)
    requires TablesFit(cx, code, hs, s, nodes, entries) && Terminates(cx, code, nodes) && !cx.top
    ensures Layout(code, s) && |s| > 1
    ensures Contained(cx, code, hs, calls) <==> NoWayOff(code, hs, s)
  {
    hide Layout, AllInBounds, Passes, Terminates, CallsMatch, TablesFit, IsRun, NoWayOff;
    PassesFit(cx, code, hs, s, nodes, entries);
    TailInside(code, s);
    if NoWayOff(code, hs, s) {
      forall run: seq<Height>, n: int | IsRun(cx, code, hs, calls, run) && 0 <= n < |run|
        ensures Inside(code, run[n])
      {
        if run[n].Running? {
          StaysInside(cx, code, hs, s, nodes, entries, calls, run, n);
        }
      }
    } else {
      var run := RunsOff(cx, code, hs, s, nodes, entries, calls);
      assert IsRun(cx, code, hs, calls, run);
      RunStarts(cx, code, hs, calls, run);
      assert !Inside(code, run[|run| - 1]);
    }
  }

  lemma RunStarts(cx: Context, code: seq<Byte>, hs: seq<Handler>, calls: int -> Signature, run: seq<Height>)
    requires IsRun(cx, code, hs, calls, run)
    ensures |run| > 0
  {
  }

  lemma TrackedIs(cx: Context, code: seq<Byte>, s: seq<int>, nodes: seq<Node>, entries: seq<Entry>, ip: int, h: int,
                  j: int, k: int, m: int)
    requires Layout(code, s) && AllInBounds(cx, code, s) && |entries| == |nodes|
    requires Tracked(cx, code, s, nodes, entries, ip, h, j, k, m)
    ensures 0 <= m < |s| - 1 && s[m] == ip
  {
  }

  lemma CatchesInside(cx: Context, code: seq<Byte>, hs: seq<Handler>, s: seq<int>)
    requires Layout(code, s) && Aligned(cx, code, hs, s)
    ensures forall h :: h in hs ==> 0 <= h.catch < |code|
  {
  }
}
