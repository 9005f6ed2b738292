/** Edits that overwrite code without moving any: when what they put in does the same under an invariant of the
    original, the results are the same. */
module InPlace {
  import opened Bytecode
  import opened Compaction
  import opened Edits
  import opened Splicer
  import opened EditRuns
  import Blocks

  ghost predicate SameLength(es: seq<Edit>) {
    forall i :: 0 <= i < |es| ==> |es[i].bytes| == es[i].end - es[i].start
  }

  /** out is code with the edits written over it. */
  ghost predicate Overwritten(code: seq<Byte>, es: seq<Edit>, out: seq<Byte>) {
    && |out| == |code|
    && (forall x :: 0 <= x < |code| && !Inside(es, |es|, x) ==> out[x] == code[x])
    && (forall i :: 0 <= i < |es| ==> WrittenAt(es[i], out))
  }

  ghost predicate WrittenAt(e: Edit, out: seq<Byte>) {
    0 <= e.start <= e.end <= |out| && out[e.start..e.end] == e.bytes
  }

  lemma {:induction false} NoShift(es: seq<Edit>, n: nat)
    requires SameLength(es) && n <= |es|
    ensures Shift(es, n) == 0
  {
    if n > 0 {
      NoShift(es, n - 1);
    }
  }

  /** What no edit has in its inside stays where it was. */
  lemma {:induction false} OpenStays(es: seq<Edit>, n: nat, x: int)
    requires SameLength(es) && n <= |es| && forall i :: 0 <= i < |es| ==> !(es[i].start < x < es[i].end)
    ensures Place(es, n, x) == x
  {
    if n > 0 {
      NoShift(es, n);
      NoShift(es, n - 1);
      OpenStays(es, n - 1, x);
    }
  }

  lemma OutsideIsOpen(es: seq<Edit>, x: int)
    requires !Inside(es, |es|, x)
    ensures forall i :: 0 <= i < |es| ==> !(es[i].start < x < es[i].end)
  {
  }

  /** Overwriting is a faithful splice. */
  lemma IsFaithful(code: seq<Byte>, hs: seq<Handler>, es: seq<Edit>, s: seq<int>, out: seq<Byte>)
    requires Layout(code, s) && Apart(es, |code|) && SameLength(es) && EditsAligned(code, es, s)
    requires ClearTargets(code, hs, es, s)
    requires Overwritten(code, es, out)
    ensures Faithful(code, hs, es, s, out, hs)
  {
    hide Layout, Place, Moved, Inside, EditsAligned, Arms, Target, Shift, TextAt;
    SortedStarts(code, s);
    LastOpen(es, |code|);
    OpenStays(es, |es|, |code|);
    forall k | Unedited(code, es, s, k)
      ensures Moved(code, es, s, out, k)
    {
      MovedNowhere(code, hs, es, s, out, k);
    }
    forall i | 0 <= i < |es|
      ensures TextAt(es, out, i)
    {
      TextStands(es, out, i);
    }
    forall n | 0 <= n < |hs|
      ensures hs[n] == MovedHandler(es, hs[n])
    {
      assert hs[n] in hs;
      OpenStays(es, |es|, hs[n].start);
      OpenStays(es, |es|, hs[n].end);
      OpenStays(es, |es|, hs[n].catch);
    }
  }

  lemma LastOpen(es: seq<Edit>, size: int)
    requires Apart(es, size)
    ensures forall i :: 0 <= i < |es| ==> !(es[i].start < size < es[i].end)
  {
  }

  lemma TextStands(es: seq<Edit>, out: seq<Byte>, i: nat)
    requires i < |es| && SameLength(es) && WrittenAt(es[i], out)
    ensures TextAt(es, out, i)
  {
    NoShift(es, i);
  }

  lemma MovedNowhere(code: seq<Byte>, hs: seq<Handler>, es: seq<Edit>, s: seq<int>, out: seq<Byte>, k: int)
    requires Layout(code, s) && Apart(es, |code|) && SameLength(es) && EditsAligned(code, es, s)
    requires ClearTargets(code, hs, es, s)
    requires Overwritten(code, es, out) && Unedited(code, es, s, k)
    ensures Moved(code, es, s, out, k)
  {
    hide Layout, Place, EditsAligned, InstrAt, Arms, Disp, Inside, ArmAt;
    LayoutNext(code, s, k);
    OutsideIsOpen(es, s[k]);
    OpenStays(es, |es|, s[k]);
    Edits.Together(code, es, s, k);
    forall z | s[k] <= z < s[k + 1]
      ensures out[z - s[k] + s[k]] == code[z]
    {
      assert !Inside(es, |es|, z);
    }
    SlicesMeet(out, s[k], code, s[k], s[k + 1] - s[k]);
    BytesSame(code, s[k], out, s[k]);
    InstrSame(code, s[k], out, s[k]);
    forall i | 0 <= i < Arms(code, s[k])
      ensures Target(out, s[k], i) == To(es, Target(code, s[k], i))
    {
      OpenTarget(code, hs, es, s, k, i);
      OpenStays(es, |es|, Target(code, s[k], i));
    }
  }

  /** A property of the original's states at each instruction. */
  type Invariant = (int, State) -> bool

  /** A step from x keeps inv. */
  ghost predicate Keeps(sem: Semantics, land: Land, code: seq<Byte>, hs: seq<Handler>, inv: Invariant, x: int,
                        st: State)
    requires 0 <= x < |code|
  {
    match sem(Core(code, x), st)
    case Next(a) => inv(x + Width(code, x), a)
    case Jump(arm, a) => inv(Target(code, x, arm), a)
    case Stop(_) => true
    case Raise(a) => HandlerFor(hs, x).Some? ==>
        inv(HandlerFor(hs, x).value.catch, land(HandlerFor(hs, x).value.depth, a))
  }

  /** Every step of the original keeps inv. */
  ghost predicate Invariably(sem: Semantics, land: Land, code: seq<Byte>, hs: seq<Handler>, s: seq<int>, inv: Invariant)
    requires Layout(code, s)
  {
    forall k, st :: 0 <= k < |s| - 1 && inv(s[k], st) ==> Keeps(sem, land, code, hs, inv, s[k], st)
  }

  /** Where inv holds, each edit's text does what the range it replaces does. */
  ghost predicate InterchangeUnder(sem: Semantics, code: seq<Byte>, es: seq<Edit>, inv: Invariant) {
    forall i, st :: 0 <= i < |es| && inv(es[i].start, st) ==> Interchanges(sem, code, es, i, st)
  }

  ghost function SameUnder(inv: Invariant): Relation {
    (i: nat, x: int, a: State, b: State) => a == b && inv(x, a)
  }

  lemma KeepsAt(sem: Semantics, land: Land, code: seq<Byte>, hs: seq<Handler>, s: seq<int>, inv: Invariant, k: int,
                st: State)
    requires Layout(code, s) && Invariably(sem, land, code, hs, s, inv) && 0 <= k < |s| - 1 && inv(s[k], st)
    ensures 0 <= s[k] < |code| && Keeps(sem, land, code, hs, inv, s[k], st)
  {
    hide Keeps;
    LayoutNext(code, s, k);
  }

  /** Straight-line code under one handler keeps inv. */
  lemma {:induction false} FlowKeeps(sem: Semantics, land: Land, code: seq<Byte>, hs: seq<Handler>, s: seq<int>,
                                     inv: Invariant, h: Option<Handler>, j: int, m: int, st: State)
    requires Layout(code, s) && Sensible(sem) && Invariably(sem, land, code, hs, s, inv) && 0 <= j <= m < |s|
    requires inv(s[j], st)
    requires Stretch(code, hs, h, 0, code, s, j, m)
    ensures match Flow(sem, code, s[j], s[m], st)
            case Next(a) => inv(s[m], a)
            case Raise(a) => h.Some? ==> inv(h.value.catch, land(h.value.depth, a))
            case _ => true
    decreases m - j
  {
    hide Layout, Sensible, Invariably, Core, Width, HandlerFor, InstrAt;
    SortedStarts(code, s);
    if j < m {
      LayoutNext(code, s, j);
      KeepsAt(sem, land, code, hs, s, inv, j, st);
      assert StretchAt(code, hs, h, 0, code, s[j]);
      if sem(Core(code, s[j]), st).Next? {
        FlowKeeps(sem, land, code, hs, s, inv, h, j + 1, m, sem(Core(code, s[j]), st).state);
      }
    }
  }

  lemma TextRightUnder(sem: Semantics, land: Land, code: seq<Byte>, hs: seq<Handler>, es: seq<Edit>, s: seq<int>,
                       ts: seq<seq<int>>, inv: Invariant, i: nat, a: State)
    requires Layout(code, s) && Sensible(sem) && Invariably(sem, land, code, hs, s, inv)
    requires InterchangeUnder(sem, code, es, inv) && i < |es|
    requires Apart(es, |code|) && EditsAligned(code, es, s) && ClearTargets(code, hs, es, s) && StraightTexts(es, ts)
    requires inv(es[i].start, a)
    ensures Agrees(SameUnder(inv), Equal, land, es, hs, es[i].end - 1, i + 1, es[i].end,
                   Flow(sem, code, es[i].start, es[i].end, a), Flow(sem, es[i].bytes, 0, |es[i].bytes|, a))
  {
    hide Layout, Sensible, Invariably, Flow, HandlerFor, Landing, ClearTargets, Apart, EditsAligned, StraightTexts,
         Stretch;
    EditEnds(code, hs, es, s, ts, i);
    var j := InOffsets(code, s, es[i].start);
    var m := InOffsets(code, s, es[i].end);
    Ordered(code, s, m, j);
    OldStretch(code, hs, es, s, i, j, m);
    FlowKeeps(sem, land, code, hs, s, inv, HandlerFor(hs, es[i].end - 1), j, m, a);
    RangeStraight(sem, land, code, hs, es, s, ts, i, a);
    assert Interchanges(sem, code, es, i, a);
  }

  lemma TextsRightUnder(sem: Semantics, land: Land, code: seq<Byte>, hs: seq<Handler>, es: seq<Edit>, s: seq<int>,
                        ts: seq<seq<int>>, inv: Invariant, i: nat)
    requires Layout(code, s) && Sensible(sem) && Invariably(sem, land, code, hs, s, inv)
    requires InterchangeUnder(sem, code, es, inv) && i < |es|
    requires Apart(es, |code|) && EditsAligned(code, es, s) && ClearTargets(code, hs, es, s) && StraightTexts(es, ts)
    ensures TextRight(sem, land, SameUnder(inv), Equal, code, hs, es, i)
  {
    hide Layout, Sensible, Invariably, InterchangeUnder, Flow, ClearTargets, Apart, EditsAligned, StraightTexts, Agrees;
    forall a, b | SameUnder(inv)(i, es[i].start, a, b)
      ensures Agrees(SameUnder(inv), Equal, land, es, hs, es[i].end - 1, i + 1, es[i].end,
                     Flow(sem, code, es[i].start, es[i].end, a), Flow(sem, es[i].bytes, 0, |es[i].bytes|, b))
    {
      TextRightUnder(sem, land, code, hs, es, s, ts, inv, i, a);
    }
  }

  lemma StepRightUnder(sem: Semantics, land: Land, code: seq<Byte>, hs: seq<Handler>, es: seq<Edit>, s: seq<int>,
                       inv: Invariant, i: nat, k: int)
    requires Layout(code, s) && Invariably(sem, land, code, hs, s, inv) && 0 <= k < |s| - 1 && 0 <= s[k] < |code|
    ensures StepRight(sem, land, SameUnder(inv), Equal, code, hs, es, i, s[k])
  {
    hide Layout, Invariably, HandlerFor, Core, Width, Target, Landing;
    forall a | inv(s[k], a)
      ensures Keeps(sem, land, code, hs, inv, s[k], a)
    {
      KeepsAt(sem, land, code, hs, s, inv, k, a);
    }
  }

  lemma RightUnder(sem: Semantics, land: Land, code: seq<Byte>, hs: seq<Handler>, es: seq<Edit>, s: seq<int>,
                   ts: seq<seq<int>>, inv: Invariant, fin: (State, State) -> bool)
    requires Layout(code, s) && Sensible(sem) && Invariably(sem, land, code, hs, s, inv)
    requires InterchangeUnder(sem, code, es, inv) && fin == Equal
    requires Apart(es, |code|) && EditsAligned(code, es, s) && ClearTargets(code, hs, es, s) && StraightTexts(es, ts)
    ensures LocallyRight(sem, land, SameUnder(inv), fin, code, hs, es, s)
  {
    hide Layout, Sensible, Invariably, InterchangeUnder, ClearTargets, Apart, EditsAligned, StraightTexts, TextRight,
         StepRight, PointOk, SameUnder, Equal;
    InstrsInside(code, s);
    forall i | 0 <= i < |es|
      ensures TextRight(sem, land, SameUnder(inv), fin, code, hs, es, i)
    {
      TextsRightUnder(sem, land, code, hs, es, s, ts, inv, i);
    }
    forall i: nat, k | 0 <= k < |s| - 1
      ensures StepRight(sem, land, SameUnder(inv), fin, code, hs, es, i, s[k])
    {
      StepRightUnder(sem, land, code, hs, es, s, inv, i, k);
    }
  }

  /** Whatever a run of one program ends with, at the same offset if it ran to its end, a run of the other ends with. */
  ghost predicate Covers(sem: Semantics, land: Land, hs: seq<Handler>, a: seq<Byte>, b: seq<Byte>, st: State) {
    forall n: nat ::
        Finished(a, Run(sem, land, a, hs, Config.At(0, st), n)) ==>
        EndsAs(sem, land, hs, b, st, Run(sem, land, a, hs, Config.At(0, st), n))
  }

  ghost predicate EndsAs(sem: Semantics, land: Land, hs: seq<Handler>, b: seq<Byte>, st: State, x: Config) {
    exists m: nat :: Run(sem, land, b, hs, Config.At(0, st), m) == x
  }

  /** The two programs end alike. */
  ghost predicate SameEnds(sem: Semantics, land: Land, hs: seq<Handler>, a: seq<Byte>, b: seq<Byte>, st: State) {
    |a| == |b| && Covers(sem, land, hs, a, b, st) && Covers(sem, land, hs, b, a, st)
  }

  lemma CoversTrans(sem: Semantics, land: Land, hs: seq<Handler>, a: seq<Byte>, b: seq<Byte>, c: seq<Byte>, st: State)
    requires Covers(sem, land, hs, a, b, st) && Covers(sem, land, hs, b, c, st) && |a| == |b|
    ensures Covers(sem, land, hs, a, c, st)
  {
    hide Run;
    forall n: nat | Finished(a, Run(sem, land, a, hs, Config.At(0, st), n))
      ensures EndsAs(sem, land, hs, c, st, Run(sem, land, a, hs, Config.At(0, st), n))
    {
      assert EndsAs(sem, land, hs, b, st, Run(sem, land, a, hs, Config.At(0, st), n));
      var m: nat :| Run(sem, land, b, hs, Config.At(0, st), m) == Run(sem, land, a, hs, Config.At(0, st), n);
      assert Finished(b, Run(sem, land, b, hs, Config.At(0, st), m));
    }
  }

  lemma SameEndsTrans(sem: Semantics, land: Land, hs: seq<Handler>, a: seq<Byte>, b: seq<Byte>, c: seq<Byte>, st: State)
    requires SameEnds(sem, land, hs, a, b, st) && SameEnds(sem, land, hs, b, c, st)
    ensures SameEnds(sem, land, hs, a, c, st)
  {
    hide Covers;
    CoversTrans(sem, land, hs, a, b, c, st);
    CoversTrans(sem, land, hs, c, b, a, st);
  }

  lemma SameEndsRefl(sem: Semantics, land: Land, hs: seq<Handler>, a: seq<Byte>, st: State)
    ensures SameEnds(sem, land, hs, a, a, st)
  {
    hide Run;
  }

  /** Related ends of the two programs are one end. */
  lemma OneEnd(inv: Invariant, code: seq<Byte>, es: seq<Edit>, s: seq<int>, out: seq<Byte>, x: Config, y: Config,
               i: nat)
    requires EditRuns.Together(SameUnder(inv), Equal, code, es, s, x, y, i) && SameLength(es) && |out| == |code|
    ensures Finished(code, x) <==> Finished(out, y)
    ensures Finished(code, x) ==> x == y
  {
    if x.At? {
      NoShift(es, i);
    }
  }

  /** Code overwritten in place by code that does the same wherever the original's invariant holds ends as the
      original does. */
  lemma InPlaceEnds(sem: Semantics, land: Land, code: seq<Byte>, hs: seq<Handler>, es: seq<Edit>, s: seq<int>,
                    ts: seq<seq<int>>, inv: Invariant, out: seq<Byte>, st: State)
    requires Layout(code, s) && Sensible(sem) && Invariably(sem, land, code, hs, s, inv)
    requires InterchangeUnder(sem, code, es, inv) && inv(0, st)
    requires Apart(es, |code|) && SameLength(es) && EditsAligned(code, es, s) && ClearTargets(code, hs, es, s)
    requires StraightTexts(es, ts)
    requires Overwritten(code, es, out)
    ensures SameEnds(sem, land, hs, code, out, st)
  {
    hide Layout, Sensible, Invariably, InterchangeUnder, Apart, SameLength, EditsAligned, ClearTargets, StraightTexts,
         Faithful, Run, LocallyRight;
    IsFaithful(code, hs, es, s, out);
    RightUnder(sem, land, code, hs, es, s, ts, inv, Equal);
    assert Setting(sem, land, SameUnder(inv), Equal, code, hs, es, s, ts, out, hs);
    forall n: nat | Finished(code, Run(sem, land, code, hs, Config.At(0, st), n))
      ensures EndsAs(sem, land, hs, out, st, Run(sem, land, code, hs, Config.At(0, st), n))
    {
      EndsForth(sem, land, code, hs, es, s, ts, inv, out, st, n);
    }
    forall m: nat | Finished(out, Run(sem, land, out, hs, Config.At(0, st), m))
      ensures EndsAs(sem, land, hs, code, st, Run(sem, land, out, hs, Config.At(0, st), m))
    {
      EndsBack(sem, land, code, hs, es, s, ts, inv, out, st, m);
    }
  }

  lemma EndsForth(sem: Semantics, land: Land, code: seq<Byte>, hs: seq<Handler>, es: seq<Edit>, s: seq<int>,
                  ts: seq<seq<int>>, inv: Invariant, out: seq<Byte>, st: State, n: nat)
    requires Layout(code, s) && Setting(sem, land, SameUnder(inv), Equal, code, hs, es, s, ts, out, hs) && inv(0, st)
    requires SameLength(es) && |out| == |code| && Finished(code, Run(sem, land, code, hs, Config.At(0, st), n))
    ensures EndsAs(sem, land, hs, out, st, Run(sem, land, code, hs, Config.At(0, st), n))
  {
    hide Layout, Setting, Run, EditRuns.Together, SameLength;
    var a, b, i := Simulates(sem, land, SameUnder(inv), Equal, code, hs, es, s, ts, out, hs, st, st, n);
    FinishedStays(sem, land, code, hs, Config.At(0, st), n, a);
    OneEnd(inv, code, es, s, out, Run(sem, land, code, hs, Config.At(0, st), a),
        Run(sem, land, out, hs, Config.At(0, st), b), i);
  }

  lemma EndsBack(sem: Semantics, land: Land, code: seq<Byte>, hs: seq<Handler>, es: seq<Edit>, s: seq<int>,
                 ts: seq<seq<int>>, inv: Invariant, out: seq<Byte>, st: State, m: nat)
    requires Layout(code, s) && Setting(sem, land, SameUnder(inv), Equal, code, hs, es, s, ts, out, hs) && inv(0, st)
    requires SameLength(es) && |out| == |code| && Finished(out, Run(sem, land, out, hs, Config.At(0, st), m))
    ensures EndsAs(sem, land, hs, code, st, Run(sem, land, out, hs, Config.At(0, st), m))
  {
    hide Layout, Setting, Run, EditRuns.Together, SameLength;
    var a, b, i := Outlasts(sem, land, SameUnder(inv), Equal, code, hs, es, s, ts, out, hs, st, st,
        (m + 1) * (|code| + 1));
    var x, y := Run(sem, land, code, hs, Config.At(0, st), a), Run(sem, land, out, hs, Config.At(0, st), b);
    OneEnd(inv, code, es, s, out, x, y, i);
    if !Finished(code, x) {
      RoundsPass(b, m, |code|, x.ip);
    }
    if b <= m && Finished(out, y) {
      FinishedStays(sem, land, out, hs, Config.At(0, st), b, m);
    } else {
      FinishedStays(sem, land, out, hs, Config.At(0, st), m, b);
    }
  }

  /** An edit of whole instructions inside one block, none of them a branch. */
  ghost predicate InBlocks(code: seq<Byte>, s: seq<int>, blocks: seq<Blocks.Block>, e: Edit) {
    && 0 <= e.start <= e.end <= |code| && e.start in s && e.end in s
    && (exists j :: 0 <= j < |blocks| && blocks[j].start <= e.start && e.end <= blocks[j].end)
    && (forall k :: 0 <= k < |s| - 1 && e.start <= s[k] < e.end ==> 0 <= s[k] < |code| && !IsBranch(code[s[k]]))
  }

  ghost predicate AllInBlocks(code: seq<Byte>, s: seq<int>, blocks: seq<Blocks.Block>, es: seq<Edit>) {
    forall i :: 0 <= i < |es| ==> InBlocks(code, s, blocks, es[i])
  }

  /** A leader is in no edit's inside. */
  lemma LeaderOpen(code: seq<Byte>, hs: seq<Handler>, s: seq<int>, blocks: seq<Blocks.Block>, e: Edit, x: int)
    requires Layout(code, s) && Blocks.IsCfg(code, hs, s, blocks) && InBlocks(code, s, blocks, e)
    requires Blocks.Leader(code, hs, s, x)
    ensures !(e.start < x < e.end)
  {
    hide Layout, Blocks.Flows, Blocks.Leader;
    var starts :| Blocks.CfgBy(code, hs, s, blocks, starts);
    var j :| 0 <= j < |blocks| && blocks[j].start <= e.start && e.end <= blocks[j].end;
    assert x in starts;
    var i :| 0 <= i < |starts| && starts[i] == x;
    assert blocks[j].start == starts[j] && blocks[j].end == Blocks.EndOf(starts, |code|, j);
  }

  /** Branch targets and handler boundaries are in no edit's inside. */
  lemma ClearInBlocks(code: seq<Byte>, hs: seq<Handler>, s: seq<int>, blocks: seq<Blocks.Block>, es: seq<Edit>)
    requires Layout(code, s) && Blocks.Targeted(code, hs, s) && Blocks.InRange(code, s, |s| - 1)
    requires Blocks.IsCfg(code, hs, s, blocks)
    requires AllInBlocks(code, s, blocks, es)
    ensures ClearTargets(code, hs, es, s) && EditsAligned(code, es, s)
  {
    hide Layout, Blocks.IsCfg, Target, Arms, InBlocks;
    InstrsInside(code, s);
    forall h | h in hs
      ensures Open(es, s, h.start) && Open(es, s, h.end) && Open(es, s, h.catch)
    {
      BoundOpen(code, hs, s, blocks, es, h, h.start);
      BoundOpen(code, hs, s, blocks, es, h, h.end);
      BoundOpen(code, hs, s, blocks, es, h, h.catch);
    }
    forall k, a | 0 <= k < |s| - 1 && 0 <= a < Arms(code, s[k])
      ensures Open(es, s, Target(code, s[k], a))
    {
      ArmOpen(code, hs, s, blocks, es, k, a);
    }
    AlignedInBlocks(code, s, blocks, es);
  }

  lemma AlignedInBlocks(code: seq<Byte>, s: seq<int>, blocks: seq<Blocks.Block>, es: seq<Edit>)
    requires Layout(code, s) && AllInBlocks(code, s, blocks, es)
    ensures EditsAligned(code, es, s)
  {
    hide Layout;
    forall i | 0 <= i < |es|
      ensures es[i].start in s && es[i].end in s
    {
      assert InBlocks(code, s, blocks, es[i]);
    }
    InstrsInside(code, s);
    forall k | 0 <= k < |s| - 1 && IsBranch(code[s[k]])
      ensures !Inside(es, |es|, s[k])
    {
      BranchOutside(code, s, blocks, es, k);
    }
  }

  lemma BranchOutside(code: seq<Byte>, s: seq<int>, blocks: seq<Blocks.Block>, es: seq<Edit>, k: int)
    requires AllInBlocks(code, s, blocks, es) && 0 <= k < |s| - 1 && 0 <= s[k] < |code| && IsBranch(code[s[k]])
    ensures !Inside(es, |es|, s[k])
  {
    forall i | 0 <= i < |es|
      ensures !(es[i].start <= s[k] < es[i].end)
    {
      assert InBlocks(code, s, blocks, es[i]);
    }
  }

  lemma InsideCode(code: seq<Byte>, s: seq<int>, blocks: seq<Blocks.Block>, e: Edit)
    requires InBlocks(code, s, blocks, e)
    ensures 0 <= e.start <= e.end <= |code|
  {
  }

  lemma BoundOpen(code: seq<Byte>, hs: seq<Handler>, s: seq<int>, blocks: seq<Blocks.Block>, es: seq<Edit>, h: Handler,
                  x: int)
    requires Layout(code, s) && Blocks.Targeted(code, hs, s) && Blocks.IsCfg(code, hs, s, blocks)
    requires AllInBlocks(code, s, blocks, es)
    requires h in hs && (x == h.start || x == h.end || x == h.catch)
    ensures Open(es, s, x)
  {
    hide Layout, Blocks.IsCfg, Blocks.Leads, InBlocks;
    SortedStarts(code, s);
    forall i | 0 <= i < |es|
      ensures !(es[i].start < x < es[i].end)
    {
      InsideCode(code, s, blocks, es[i]);
      if 0 < x < |code| {
        assert Blocks.Bounds(hs, x);
        LeaderOpen(code, hs, s, blocks, es[i], x);
      }
    }
  }

  lemma ArmOpen(code: seq<Byte>, hs: seq<Handler>, s: seq<int>, blocks: seq<Blocks.Block>, es: seq<Edit>, k: int,
                a: int)
    requires Layout(code, s) && Blocks.Targeted(code, hs, s) && Blocks.InRange(code, s, |s| - 1)
    requires Blocks.IsCfg(code, hs, s, blocks)
    requires AllInBlocks(code, s, blocks, es) && 0 <= k < |s| - 1 && 0 <= s[k] < |code| && 0 <= a < Arms(code, s[k])
    ensures Open(es, s, Target(code, s[k], a))
  {
    hide Layout, Blocks.IsCfg, InBlocks, Target, Blocks.Leads, Blocks.Bounds;
    var x := Target(code, s[k], a);
    Blocks.TargetLeads(code, s, k, a);
    forall i | 0 <= i < |es|
      ensures !(es[i].start < x < es[i].end)
    {
      InsideCode(code, s, blocks, es[i]);
      if 0 < x < |code| {
        LeaderOpen(code, hs, s, blocks, es[i], x);
      }
    }
  }

  /** The blocks lie side by side over the code, on instructions. */
  ghost predicate Tiles(code: seq<Byte>, s: seq<int>, blocks: seq<Blocks.Block>) {
    && |blocks| > 0 && blocks[0].start == 0 && blocks[|blocks| - 1].end == |code|
    && (forall j ::
       0 <= j < |blocks| ==>
       blocks[j].start in s && blocks[j].end in s && 0 <= blocks[j].start <= blocks[j].end <= |code|)
    && forall j :: 0 <= j < |blocks| - 1 ==> blocks[j].end == blocks[j + 1].start
  }

  lemma BlocksTile(code: seq<Byte>, hs: seq<Handler>, s: seq<int>, blocks: seq<Blocks.Block>)
    requires Layout(code, s) && Blocks.Targeted(code, hs, s) && Blocks.IsCfg(code, hs, s, blocks)
    ensures Tiles(code, s, blocks)
  {
    hide Layout, Blocks.Leader, Blocks.Flows, Blocks.Targeted;
    var starts :| Blocks.CfgBy(code, hs, s, blocks, starts);
    SortedStarts(code, s);
    forall j | 0 <= j < |blocks|
      ensures blocks[j].start == starts[j] && blocks[j].end == Blocks.EndOf(starts, |code|, j)
      ensures blocks[j].start in s && blocks[j].end in s && 0 <= blocks[j].start <= blocks[j].end <= |code|
    {
      Blocks.BlockAligned(code, hs, s, starts, j);
    }
  }

  lemma {:induction false} TilesOrder(code: seq<Byte>, s: seq<int>, blocks: seq<Blocks.Block>, i: int, j: int)
    requires Tiles(code, s, blocks) && 0 <= i < j < |blocks|
    ensures blocks[i].end <= blocks[j].start
    decreases j - i
  {
    if i + 1 < j {
      TilesOrder(code, s, blocks, i, j - 1);
    }
  }
}
