/** The whole pass over one body, and exactly when its result is the compacted original. */
module DcePass {
  import opened Bytecode
  import opened Blocks
  import opened Compaction
  import opened Dce
  import opened DceRuns

  datatype Body = Body(size: int, handlers: seq<Handler>)

  /** No survivor lies in the stretch by which the relinker misjudges where the first survivor was. The
      stretch is empty when the first instruction survives. */
  ghost predicate LeadHarmless(c: seq<Byte>, s: seq<int>, dead: set<int>)
    requires Layout(c, s)
  {
    forall k, i, j :: Kept(c, s, dead, k) && 0 <= i < Arms(c, s[k]) && Kept(c, s, dead, j) ==>
      !(Seen(c, s, dead, k, i) <= s[j] < Target(c, s[k], i))
  }

  /** Relocating any offset between two instructions gives the next one's place. */
  lemma RelocateBetween(c: seq<Byte>, s: seq<int>, dead: set<int>, offs: seq<int>, x: int) returns (m: int)
    requires Layout(c, s) && Offsets(c, s, dead, offs, |s| - 1) && 0 <= x <= |c|
    ensures 0 <= m < |s| && x <= s[m] && (forall j :: 0 <= j < m ==> s[j] < x)
    ensures Relocate(offs, x, Pos(c, s, dead, |s| - 1)) == Pos(c, s, dead, m)
  {
    hide Offsets, Relocate, Pos, Layout;
    SortedStarts(c, s);
    EndsAt(c, s);
    m := 0;
    while s[m] < x
      invariant 0 <= m < |s| && forall j :: 0 <= j < m ==> s[j] < x
    {
      m := m + 1;
    }
    RelocateIs(c, s, dead, offs, m);
    if m > 0 {
      SkipTo(c, s, dead, offs, m - 1, x);
    } else {
      assert s[0] == 0 by { FirstAt(c, s); }
    }
  }

  lemma FirstAt(c: seq<Byte>, s: seq<int>)
    requires Layout(c, s)
    ensures |s| > 0 && s[0] == 0
  {
  }

  lemma PosStep(c: seq<Byte>, s: seq<int>, dead: set<int>, k: int)
    requires Layout(c, s) && 0 <= k < |s| - 1
    ensures Pos(c, s, dead, k + 1) == Pos(c, s, dead, k) + (if Kept(c, s, dead, k) then s[k + 1] - s[k] else 0)
    ensures s[k + 1] - s[k] > 0
  {
    LayoutNext(c, s, k);
  }

  /** Places coincide exactly when nothing in between survives. */
  lemma {:induction false} PlacesMeet(c: seq<Byte>, s: seq<int>, dead: set<int>, j: int, m: int)
    requires Layout(c, s) && 0 <= j <= m <= |s| - 1
    ensures Pos(c, s, dead, j) == Pos(c, s, dead, m) <==> forall k :: j <= k < m ==> !Kept(c, s, dead, k)
    decreases m - j
  {
    hide Layout, Kept;
    if j < m {
      PlacesMeet(c, s, dead, j, m - 1);
      PosMonotone(c, s, dead, j, m - 1);
      PosStep(c, s, dead, m - 1);
    }
  }

  /** The relinker looks no further right than the real target. */
  lemma SeenAt(c: seq<Byte>, s: seq<int>, dead: set<int>, k: int, i: int)
    requires Layout(c, s) && Kept(c, s, dead, k)
    ensures k != NextKept(c, s, dead, 0) ==> Seen(c, s, dead, k, i) == Target(c, s[k], i)
    ensures k == NextKept(c, s, dead, 0) ==>
      Seen(c, s, dead, k, i) == Target(c, s[k], i) - s[k] && Pos(c, s, dead, k) == 0
    ensures Seen(c, s, dead, k, i) <= Target(c, s[k], i)
    ensures 0 < s[k + 1] - s[k] < 0x8000
  {
    hide Pos, Layout;
    InstrsInside(c, s);
    FirstAt(c, s);
    PosBounds(c, s, dead, 0);
    LayoutNext(c, s, k);
    WidthSmall(c, s[k]);
  }

  lemma WidthSmall(c: seq<Byte>, ip: int)
    requires 0 <= ip < |c|
    ensures 0 < Width(c, ip) <= 514
  {
  }

  /** Where a relinked arm leads. */
  lemma ArmLands(c: seq<Byte>, s: seq<int>, dead: set<int>, offs: seq<int>, size: int, b: seq<Byte>, k: int, i: int,
                 top: bool)
    requires Layout(c, s) && Offsets(c, s, dead, offs, |s| - 1) && size == Pos(c, s, dead, |s| - 1)
    requires Kept(c, s, dead, k) && 0 <= i < Arms(c, s[k]) && Target(c, s[k], i) in s
    requires Valid(Seen(c, s, dead, k, i), |c|, top)
    requires ArmsDone(c, s, dead, offs, size, b, k, Arms(c, s[k]))
    ensures 0 <= Pos(c, s, dead, k) < |b|
    ensures Target(b, Pos(c, s, dead, k), i) == Where(c, s, dead, Target(c, s[k], i)) <==>
              forall j :: Kept(c, s, dead, j) ==> !(Seen(c, s, dead, k, i) <= s[j] < Target(c, s[k], i))
  {
    hide Pos, Where, Relocate, Offsets, Seen, Disp, Width, Wrapped, Kept, Layout, Arms, I16;
    InstrsInside(c, s);
    KeptRange(c, s, dead, k);
    var m :| 0 <= m < |s| && s[m] == Target(c, s[k], i);
    SeenAt(c, s, dead, k, i);
    var x := Seen(c, s, dead, k, i);
    var m' := RelocateBetween(c, s, dead, offs, x);
    DispShrinks(c, s, dead, k, i, m);
    WhereIs(c, s, dead, m);
    LayoutNext(c, s, k);
    InstrSame(c, s[k], b, Pos(c, s, dead, k));
    SortedStarts(c, s);
    assert m' <= m;
    PosMonotone(c, s, dead, m', m);
    PosBounds(c, s, dead, m');
    PlacesMeet(c, s, dead, m', m);
    Wraps(Pos(c, s, dead, m') - Pos(c, s, dead, k) - (s[k + 1] - s[k]));
    BetweenIs(c, s, dead, x, m', m);
  }

  lemma BetweenIs(c: seq<Byte>, s: seq<int>, dead: set<int>, x: int, m': int, m: int)
    requires Layout(c, s) && 0 <= m' <= m < |s| && x <= s[m'] && forall j :: 0 <= j < m' ==> s[j] < x
    ensures (forall k :: m' <= k < m ==> !Kept(c, s, dead, k)) <==>
      (forall j :: Kept(c, s, dead, j) ==> !(x <= s[j] < s[m]))
  {
    forall j | Kept(c, s, dead, j)
      ensures x <= s[j] < s[m] <==> m' <= j < m
    {
      Ordered(c, s, j, m);
      Ordered(c, s, j, m');
    }
  }

  lemma PrefixSlice(b: seq<Byte>, n: int, p: int, q: int)
    requires 0 <= p <= q <= n <= |b|
    ensures b[..n][p..q] == b[p..q]
  {
  }

  /** Cutting the array to its new length changes no survivor. */
  lemma Trimmed(c: seq<Byte>, s: seq<int>, dead: set<int>, b: seq<Byte>, k: int)
    requires Layout(c, s) && Kept(c, s, dead, k) && |b| == |c| && InstrAt(c, s[k], b, Pos(c, s, dead, k))
    ensures 0 <= Pos(c, s, dead, k) < Pos(c, s, dead, |s| - 1) <= |b|
    ensures var p, b' := Pos(c, s, dead, k), b[..Pos(c, s, dead, |s| - 1)];
            && InstrAt(c, s[k], b', p)
            && forall i :: 0 <= i < Arms(c, s[k]) ==> Target(b', p, i) == Target(b, p, i)
  {
    hide Pos;
    LayoutNext(c, s, k);
    PosBounds(c, s, dead, k);
    PosBounds(c, s, dead, |s| - 1);
    var p, b' := Pos(c, s, dead, k), b[..Pos(c, s, dead, |s| - 1)];
    PrefixSlice(b, |b'|, p, p + Width(c, s[k]));
    InstrSame(c, s[k], b, p);
    BytesSame(b, p, b', p);
    InstrSame(b, p, b', p);
  }

  /** After relinking, the survivors stand as they should exactly when the lead is harmless. */
  lemma RelinkedIsRight(c: seq<Byte>, hs: seq<Handler>, s: seq<int>, dead: set<int>, offs: seq<int>, b: seq<Byte>,
                        top: bool)
    requires Layout(c, s) && Targeted(c, hs, s) && InRange(c, s, |s| - 1) && |b| == |c|
    requires Offsets(c, s, dead, offs, |s| - 1) && AllValid(c, s, dead, top, |s| - 1)
    requires Relinked(c, s, dead, offs, Pos(c, s, dead, |s| - 1), b, |s| - 1, 0)
    ensures 0 <= Pos(c, s, dead, |s| - 1) <= |b|
    ensures (forall k :: Kept(c, s, dead, k) ==> Survives(c, s, dead, b[..Pos(c, s, dead, |s| - 1)], k)) <==>
      LeadHarmless(c, s, dead)
  {
    hide Pos, Where, Offsets, Relinked, AllValid, Seen, Target, Targeted, InRange, Survives, Layout;
    InstrsInside(c, s);
    PosBounds(c, s, dead, |s| - 1);
    forall k | Kept(c, s, dead, k)
      ensures Survives(c, s, dead, b[..Pos(c, s, dead, |s| - 1)], k) <==> LeadAt(c, s, dead, k)
    {
      SurvivorRight(c, hs, s, dead, offs, b, top, k);
    }
    if LeadHarmless(c, s, dead) {
      forall k | Kept(c, s, dead, k) ensures LeadAt(c, s, dead, k) { }
    }
  }

  ghost predicate LeadAt(c: seq<Byte>, s: seq<int>, dead: set<int>, k: int)
    requires Layout(c, s) && 0 <= k < |s| - 1
  {
    forall i, j :: 0 <= i < Arms(c, s[k]) && Kept(c, s, dead, j) ==>
        !(Seen(c, s, dead, k, i) <= s[j] < Target(c, s[k], i))
  }

  lemma SurvivorRight(c: seq<Byte>, hs: seq<Handler>, s: seq<int>, dead: set<int>, offs: seq<int>, b: seq<Byte>,
                      top: bool, k: int)
    requires Layout(c, s) && Targeted(c, hs, s) && InRange(c, s, |s| - 1) && |b| == |c| && Kept(c, s, dead, k)
    requires Offsets(c, s, dead, offs, |s| - 1) && AllValid(c, s, dead, top, |s| - 1)
    requires Relinked(c, s, dead, offs, Pos(c, s, dead, |s| - 1), b, |s| - 1, 0)
    requires 0 <= Pos(c, s, dead, |s| - 1) <= |b|
    ensures Survives(c, s, dead, b[..Pos(c, s, dead, |s| - 1)], k) <==> LeadAt(c, s, dead, k)
  {
    hide Pos, Where, Offsets, Seen, Target, InRange, Layout, Disp, NewDisp, Wrapped, InstrAt;
    InstrsInside(c, s);
    var size := Pos(c, s, dead, |s| - 1);
    assert ArmsDone(c, s, dead, offs, size, b, k, Progress(Arms(c, s[k]), k, |s| - 1, 0));
    Trimmed(c, s, dead, b, k);
    forall i | 0 <= i < Arms(c, s[k])
      ensures Target(b, Pos(c, s, dead, k), i) == Where(c, s, dead, Target(c, s[k], i)) <==>
                forall j :: Kept(c, s, dead, j) ==> !(Seen(c, s, dead, k, i) <= s[j] < Target(c, s[k], i))
    {
      TargetAligned(c, hs, s, k, i);
      ArmLands(c, s, dead, offs, size, b, k, i, top);
    }
  }

  lemma TargetAligned(c: seq<Byte>, hs: seq<Handler>, s: seq<int>, k: int, i: int)
    requires Layout(c, s) && Targeted(c, hs, s) && InRange(c, s, |s| - 1) && 0 <= k < |s| - 1 && 0 <= i < Arms(c, s[k])
    ensures Target(c, s[k], i) in s
  {
    hide Target;
  }

  /** Dead blocks hold whole instructions. */
  lemma DeadAligned(c: seq<Byte>, hs: seq<Handler>, s: seq<int>, blocks: seq<Block>)
    requires Layout(c, s) && Targeted(c, hs, s) && IsCfg(c, hs, s, blocks)
    ensures Aligned(s, DeadBytes(c, blocks, hs))
    ensures forall j :: 0 <= j < |blocks| ==> 0 <= blocks[j].start <= blocks[j].end <= |c|
  {
    hide LinkedTo, Leader, Flows, Targeted, DeadBlock;
    var starts :| CfgBy(c, hs, s, blocks, starts);
    SortedStarts(c, s);
    forall j | 0 <= j < |blocks|
      ensures blocks[j].start in s && blocks[j].end in s && 0 <= blocks[j].start <= blocks[j].end <= |c|
    {
      BlockSpan(c, starts, blocks, j);
      BlockAligned(c, hs, s, starts, j);
    }
    forall k, x | 0 <= k < |s| - 1 && s[k] <= x < s[k + 1]
      ensures x in DeadBytes(c, blocks, hs) <==> s[k] in DeadBytes(c, blocks, hs)
    {
      forall j | 0 <= j < |blocks|
        ensures InBlock(blocks, j, x) <==> InBlock(blocks, j, s[k])
      {
        NoneBetween(s, k, x, blocks[j].start);
        NoneBetween(s, k, x, blocks[j].end);
      }
    }
  }

  lemma NoneBetween(s: seq<int>, k: int, x: int, t: int)
    requires 0 <= k < |s| - 1 && s[k] <= x < s[k + 1] && t in s && forall i, j :: 0 <= i < j < |s| ==> s[i] < s[j]
    ensures t <= x <==> t <= s[k]
  {
  }

  method RelocateAt(offs: seq<int>, off: int, size: int) returns (r: int)
    requires off >= 0
    ensures r == Relocate(offs, off, size)
  {
    var at := off;
    while at < |offs| && offs[at] == -1
      invariant 0 <= at && Relocate(offs, at, size) == Relocate(offs, off, size)
    {
      at := at + 1;
    }
    r := if at >= |offs| then size else offs[at];
  }

  method Rehandle(hs: seq<Handler>, offs: seq<int>, size: int, ghost c: seq<Byte>, ghost s: seq<int>,
                  ghost dead: set<int>)
    returns (r: seq<Handler>)
    requires Layout(c, s) && Offsets(c, s, dead, offs, |s| - 1) && size == Pos(c, s, dead, |s| - 1)
    requires forall h :: h in hs ==> h.start in s && h.end in s && h.catch in s
    ensures |r| == |hs| && forall n :: 0 <= n < |hs| ==> r[n] == MovedHandler(c, s, dead, hs[n])
  {
    hide Offsets, Pos, Where, Relocate, Layout;
    SortedStarts(c, s);
    r := [];
    for n := 0 to |hs|
      invariant |r| == n && forall j :: 0 <= j < n ==> r[j] == MovedHandler(c, s, dead, hs[j])
    {
      var h := hs[n];
      assert h in hs;
      RelocatesTo(c, s, dead, offs, h.start);
      RelocatesTo(c, s, dead, offs, h.end);
      RelocatesTo(c, s, dead, offs, h.catch);
      var start := RelocateAt(offs, h.start, size);
      var end := RelocateAt(offs, h.end, size);
      var catch := RelocateAt(offs, h.catch, size);
      r := r + [Handler(start, end, catch, h.depth)];
    }
  }

  lemma RelocatesTo(c: seq<Byte>, s: seq<int>, dead: set<int>, offs: seq<int>, t: int)
    requires Layout(c, s) && Offsets(c, s, dead, offs, |s| - 1) && t in s
    ensures Relocate(offs, t, Pos(c, s, dead, |s| - 1)) == Where(c, s, dead, t)
  {
    hide Where, Pos, Offsets;
    var m :| 0 <= m < |s| && s[m] == t;
    RelocateIs(c, s, dead, offs, m);
    WhereIs(c, s, dead, m);
  }

  /** Eliminates dead code from one body in place: b's first `size` bytes are the new body. None is an
      invalid jump. */
  method Eliminate(b: array<Byte>, hs: seq<Handler>, top: bool, ghost s: seq<int>)
                   returns (r: Option<Body>, ghost blocks: seq<Block>)
    requires Layout(b[..], s) && Targeted(b[..], hs, s)
    modifies b
    ensures r.Some? ==> InRange(old(b[..]), s, |s| - 1) && IsCfg(old(b[..]), hs, s, blocks)
    ensures InRange(old(b[..]), s, |s| - 1) ==>
              (r.Some? <==> AllValid(old(b[..]), s, DeadBytes(old(b[..]), blocks, hs), top, |s| - 1))
    ensures r.Some? ==> 0 <= r.value.size <= b.Length
    ensures r.Some? ==>
              var dead := DeadBytes(old(b[..]), blocks, hs);
              Compacted(old(b[..]), hs, s, dead, b[..r.value.size], r.value.handlers) <==>
                  LeadHarmless(old(b[..]), s, dead)
  {
    hide Layout, Targeted, InRange, IsCfg, DeadAt, Aligned, Offsets, Packed, Pos, Relinked, AllValid, MovedHandler,
         Survives, Kept, LeadHarmless;
    ghost var c := b[..];
    blocks := [];
    var built := Build(b[..], hs, s);
    if built.None? {
      return None, [];
    }
    blocks := built.value;
    ghost var dead := DeadBytes(c, blocks, hs);
    DeadAligned(c, hs, s, blocks);
    Stamp(b, built.value, hs);
    assert Stamped(c, dead, b[..]);
    var offs, size := Compact(b, c, s, dead);
    OffsetsSize(c, s, dead, offs);
    var ok := Relink(b, offs, size, top, c, s, dead);
    if !ok {
      return None, blocks;
    }
    HandlersIn(c, hs, s);
    var handlers := Rehandle(hs, offs, size, c, s, dead);
    RelinkedIsRight(c, hs, s, dead, offs, b[..], top);
    r := Some(Body(size, handlers));
  }

  lemma OffsetsSize(c: seq<Byte>, s: seq<int>, dead: set<int>, offs: seq<int>)
    requires Layout(c, s) && Offsets(c, s, dead, offs, |s| - 1)
    ensures |offs| == |c|
  {
  }

  lemma HandlersIn(c: seq<Byte>, hs: seq<Handler>, s: seq<int>)
    requires Layout(c, s) && Targeted(c, hs, s)
    ensures forall h :: h in hs ==> h.start in s && h.end in s && h.catch in s
  {
  }

  /** A body whose first instruction survives is always compacted right, and rejected exactly when some
      surviving branch of a function leads to the end of the code. */
  lemma FirstSurvives(c: seq<Byte>, hs: seq<Handler>, s: seq<int>, dead: set<int>, top: bool)
    requires Layout(c, s) && Targeted(c, hs, s) && InRange(c, s, |s| - 1) && Kept(c, s, dead, 0)
    ensures LeadHarmless(c, s, dead)
    ensures AllValid(c, s, dead, top, |s| - 1) <==>
              top || forall k, i :: Kept(c, s, dead, k) && 0 <= i < Arms(c, s[k]) ==> Target(c, s[k], i) != |c|
  {
    hide Target, Seen, Pos, Arms;
    forall k, i | Kept(c, s, dead, k)
      ensures Seen(c, s, dead, k, i) == Target(c, s[k], i)
    {
      SeenAt(c, s, dead, k, i);
    }
  }
}
