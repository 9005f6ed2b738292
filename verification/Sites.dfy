/** Folding one window of a body in place: the layout that results, and why every run ends as before. */
module Sites {
  import opened Bytecode
  import opened Compaction
  import opened Edits
  import opened EditRuns
  import opened InPlace
  import Blocks

  /** Branches and handlers name only marked offsets, all of them instructions or the end of the code. */
  ghost predicate Sited(code: seq<Byte>, hs: seq<Handler>, s: seq<int>, marks: set<int>) {
    && Layout(code, s) && (forall x :: x in marks ==> x in s)
    && (forall k, a :: 0 <= k < |s| - 1 && 0 <= a < Arms(code, s[k]) ==> Target(code, s[k], a) in marks)
    && (forall h :: h in hs ==> h.start in marks && h.end in marks && h.catch in marks)
  }

  /** The starts of blocks and the end of the code. */
  ghost function Marks(blocks: seq<Blocks.Block>, size: int): set<int> {
    (set j | 0 <= j < |blocks| :: blocks[j].start) + {size}
  }

  lemma SitedStart(code: seq<Byte>, hs: seq<Handler>, s: seq<int>, blocks: seq<Blocks.Block>)
    requires Layout(code, s) && Blocks.Targeted(code, hs, s) && Blocks.InRange(code, s, |s| - 1)
    requires Blocks.IsCfg(code, hs, s, blocks)
    ensures Sited(code, hs, s, Marks(blocks, |code|))
  {
    hide Layout, Blocks.Leads, Blocks.Bounds, Blocks.Flows, Target, Arms, Marks;
    InstrsInside(code, s);
    BlocksTile(code, hs, s, blocks);
    MarksAre(code, s, blocks);
    forall k, a | 0 <= k < |s| - 1 && 0 <= a < Arms(code, s[k])
      ensures Target(code, s[k], a) in Marks(blocks, |code|)
    {
      Blocks.TargetLeads(code, s, k, a);
      LeaderMarked(code, hs, s, blocks, Target(code, s[k], a));
    }
    forall h | h in hs
      ensures h.start in Marks(blocks, |code|) && h.end in Marks(blocks, |code|) && h.catch in Marks(blocks, |code|)
    {
      BoundMarked(code, hs, s, blocks, h, h.start);
      BoundMarked(code, hs, s, blocks, h, h.end);
      BoundMarked(code, hs, s, blocks, h, h.catch);
    }
  }

  lemma MarksAre(code: seq<Byte>, s: seq<int>, blocks: seq<Blocks.Block>)
    requires Layout(code, s) && Tiles(code, s, blocks)
    ensures forall x :: x in Marks(blocks, |code|) ==> x in s
  {
    assert s[|s| - 1] == |code|;
  }

  lemma LeaderMarked(code: seq<Byte>, hs: seq<Handler>, s: seq<int>, blocks: seq<Blocks.Block>, x: int)
    requires Layout(code, s) && Blocks.IsCfg(code, hs, s, blocks) && (x == |code| || Blocks.Leader(code, hs, s, x))
    ensures x in Marks(blocks, |code|)
  {
    hide Layout, Blocks.Leader, Blocks.Flows;
    if x != |code| {
      var starts :| Blocks.CfgBy(code, hs, s, blocks, starts);
      assert x in starts;
      var j :| 0 <= j < |starts| && starts[j] == x;
      assert blocks[j].start == x;
    }
  }

  lemma BoundMarked(code: seq<Byte>, hs: seq<Handler>, s: seq<int>, blocks: seq<Blocks.Block>, h: Handler, x: int)
    requires Layout(code, s) && Blocks.Targeted(code, hs, s) && Blocks.IsCfg(code, hs, s, blocks) && h in hs
    requires (x == h.start || x == h.end || x == h.catch)
    ensures x in Marks(blocks, |code|)
  {
    hide Layout, Blocks.Leads, Blocks.IsCfg, Marks;
    SortedStarts(code, s);
    if 0 < x < |code| {
      assert Blocks.Bounds(hs, x);
    }
    LeaderMarked(code, hs, s, blocks, x);
  }

  /** n no-ops and one instruction. */
  function Padded(n: nat, inst: seq<Byte>): seq<Byte> {
    seq(n, _ => NOP) + inst
  }

  /** An instruction of fixed width that does not branch. */
  predicate Plain(inst: seq<Byte>) {
    |inst| > 0 && !IsBranch(inst[0]) && Width(inst, 0) == |inst|
  }

  /** The layout once instructions k to m have become n no-ops and one instruction. */
  function Relaid(s: seq<int>, k: nat, m: nat, n: nat): (r: seq<int>)
    requires k < m < |s|
    ensures |r| == k + n + 1 + |s| - m
    ensures forall q :: 0 <= q < k ==> r[q] == s[q]
    ensures forall q :: k <= q <= k + n ==> r[q] == s[k] + (q - k)
    ensures forall q :: k + n < q < |r| ==> r[q] == s[q - k - n - 1 + m]
  {
    s[..k] + seq(n + 1, i => s[k] + i) + s[m..]
  }

  /** b is code with the window from instruction k to m padded. */
  ghost predicate Refilled(code: seq<Byte>, s: seq<int>, k: nat, m: nat, n: nat, inst: seq<Byte>, b: seq<Byte>)
    requires Layout(code, s)
  {
    && k < m < |s| && Plain(inst) && n + |inst| == s[m] - s[k] && |b| == |code| && 0 <= s[k] < s[m] <= |code|
    && b[s[k]..s[m]] == Padded(n, inst) && forall x :: 0 <= x < |code| && !(s[k] <= x < s[m]) ==> b[x] == code[x]
  }

  /** An instruction outside the window stands as it was. */
  lemma OutsideSame(code: seq<Byte>, s: seq<int>, k: nat, m: nat, n: nat, inst: seq<Byte>, b: seq<Byte>, q: int)
    requires Layout(code, s) && Refilled(code, s, k, m, n, inst, b) && 0 <= q < |s| - 1 && (q < k || m <= q)
    ensures 0 <= s[q] < |code| && Width(b, s[q]) == Width(code, s[q]) && Arms(b, s[q]) == Arms(code, s[q])
    ensures forall a :: 0 <= a < Arms(code, s[q]) ==> Target(b, s[q], a) == Target(code, s[q], a)
  {
    hide Layout, Arms, Disp, Width, Padded;
    LayoutNext(code, s, q);
    Ordered(code, s, k, q + 1);
    Ordered(code, s, q, m);
    forall x | s[q] <= x < s[q + 1]
      ensures b[x] == code[x]
    {
    }
    SlicesMeet(b, s[q], code, s[q], s[q + 1] - s[q]);
    BytesSame(code, s[q], b, s[q]);
    InstrSame(code, s[q], b, s[q]);
  }

  /** What stands inside the window. */
  lemma InsideIs(code: seq<Byte>, s: seq<int>, k: nat, m: nat, n: nat, inst: seq<Byte>, b: seq<Byte>, i: nat)
    requires Layout(code, s) && Refilled(code, s, k, m, n, inst, b) && i <= n
    ensures 0 <= s[k] + i < |b| && Width(b, s[k] + i) == (if i < n then 1 else |inst|) && Arms(b, s[k] + i) == 0
  {
    hide Layout;
    assert b[s[k]..s[m]][i] == b[s[k] + i];
  }

  lemma RelaidLayout(code: seq<Byte>, s: seq<int>, k: nat, m: nat, n: nat, inst: seq<Byte>, b: seq<Byte>)
    requires Layout(code, s) && Refilled(code, s, k, m, n, inst, b)
    ensures Layout(b, Relaid(s, k, m, n))
  {
    hide Layout, Width, Refilled;
    RefilledIs(code, s, k, m, n, inst, b);
    var r := Relaid(s, k, m, n);
    SortedStarts(code, s);
    LayoutRim(code, s);
    forall q | 0 <= q < |r| - 1
      ensures 0 <= r[q] < |b| && r[q] + Width(b, r[q]) == r[q + 1]
    {
      if q < k {
        OutsideSame(code, s, k, m, n, inst, b, q);
        LayoutNext(code, s, q);
      } else if q <= k + n {
        InsideIs(code, s, k, m, n, inst, b, q - k);
      } else {
        OutsideSame(code, s, k, m, n, inst, b, q - k - n - 1 + m);
        LayoutNext(code, s, q - k - n - 1 + m);
      }
    }
    Rises(b, r);
  }

  lemma LayoutRim(code: seq<Byte>, s: seq<int>)
    requires Layout(code, s)
    ensures |s| > 0 && s[0] == 0 && s[|s| - 1] == |code|
  {
  }

  lemma RefilledIs(code: seq<Byte>, s: seq<int>, k: nat, m: nat, n: nat, inst: seq<Byte>, b: seq<Byte>)
    requires Layout(code, s) && Refilled(code, s, k, m, n, inst, b)
    ensures k < m < |s| && |inst| > 0 && n + |inst| == s[m] - s[k] && |b| == |code| && 0 <= s[k] < s[m] <= |code|
  {
  }

  lemma Rises(b: seq<Byte>, r: seq<int>)
    requires |r| > 0 && r[0] == 0 && r[|r| - 1] == |b|
    requires forall q :: 0 <= q < |r| - 1 ==> 0 <= r[q] < |b| && r[q] + Width(b, r[q]) == r[q + 1]
    ensures Layout(b, r)
  {
    hide Width;
    forall i, j | 0 <= i < j < |r|
      ensures r[i] < r[j]
    {
      RisesTo(b, r, i, j);
    }
  }

  lemma {:induction false} RisesTo(b: seq<Byte>, r: seq<int>, i: int, j: int)
    requires forall q :: 0 <= q < |r| - 1 ==> 0 <= r[q] < |b| && r[q] + Width(b, r[q]) == r[q + 1]
    requires 0 <= i < j < |r|
    ensures r[i] < r[j]
    decreases j - i
  {
    hide Width;
    assert r[j - 1] + Width(b, r[j - 1]) == r[j];
    if i < j - 1 {
      RisesTo(b, r, i, j - 1);
    }
  }

  /** Marked offsets stay what they are. */
  lemma RelaidSited(code: seq<Byte>, hs: seq<Handler>, s: seq<int>, marks: set<int>, k: nat, m: nat, n: nat,
                    inst: seq<Byte>, b: seq<Byte>)
    requires Sited(code, hs, s, marks) && Refilled(code, s, k, m, n, inst, b) && forall x ::
      x in marks ==> !(s[k] < x < s[m])
    ensures Sited(b, hs, Relaid(s, k, m, n), marks)
  {
    hide Layout, Width, Refilled, Arms, Target;
    RefilledIs(code, s, k, m, n, inst, b);
    var r := Relaid(s, k, m, n);
    RelaidLayout(code, s, k, m, n, inst, b);
    InstrsInside(b, r);
    InstrsInside(code, s);
    forall x | x in marks
      ensures x in r
    {
      var q :| 0 <= q < |s| && s[q] == x;
      Ordered(code, s, q, m);
      Ordered(code, s, k, q);
      if q < k {
        assert r[q] == x;
      } else if q >= m {
        assert r[q - m + k + n + 1] == x;
      } else {
        assert r[k] == x;
      }
    }
    forall q, a | 0 <= q < |r| - 1 && 0 <= a < Arms(b, r[q])
      ensures Target(b, r[q], a) in marks
    {
      if q < k {
        OutsideSame(code, s, k, m, n, inst, b, q);
      } else if q <= k + n {
        InsideIs(code, s, k, m, n, inst, b, q - k);
      } else {
        OutsideSame(code, s, k, m, n, inst, b, q - k - n - 1 + m);
      }
    }
  }

  ghost function Always(): Invariant {
    (x: int, st: State) => true
  }

  /** Pushing x is all the window does, and all the instruction that replaces it does. */
  ghost predicate Pushes(sem: Semantics, code: seq<Byte>, from: int, to: int, inst: seq<Byte>, x: int) {
    forall st :: PushesAt(sem, code, from, to, inst, x, st)
  }

  ghost predicate PushesAt(sem: Semantics, code: seq<Byte>, from: int, to: int, inst: seq<Byte>, x: int, st: State) {
    && Flow(sem, code, from, to, st) == Next(State(st.stack + [x], st.locals, st.world))
    && sem(inst, st) == Next(State(st.stack + [x], st.locals, st.world))
  }

  lemma {:induction false} FlowPadded(sem: Semantics, n: nat, inst: seq<Byte>, at: nat, st: State)
    requires Sensible(sem) && Plain(inst) && at <= n && sem(inst, st).Next?
    ensures Flow(sem, Padded(n, inst), at, n + |inst|, st) == sem(inst, st)
    decreases n - at
  {
    var text := Padded(n, inst);
    if at < n {
      assert text[at..at + 1] == [NOP];
      FlowPadded(sem, n, inst, at + 1, st);
    } else {
      PaddedEnd(n, inst);
    }
  }

  lemma PaddedEnd(n: nat, inst: seq<Byte>)
    requires Plain(inst)
    ensures var text := Padded(n, inst); Core(text, n) == inst && Width(text, n) == |inst|
  {
    var text := Padded(n, inst);
    assert text[n..] == inst;
    assert text[n..n + |inst|] == inst;
  }

  lemma PaddedLayout(n: nat, inst: seq<Byte>)
    requires Plain(inst)
    ensures var text, ts := Padded(n, inst), seq(n + 1, i => i) + [n + |inst|]; Layout(text, ts) && Straight(text, ts)
  {
    var text, ts := Padded(n, inst), seq(n + 1, i => i) + [n + |inst|];
    PaddedEnd(n, inst);
    forall q | 0 <= q < |ts| - 1
      ensures 0 <= ts[q] < |text| && ts[q] + Width(text, ts[q]) == ts[q + 1] && !IsBranch(text[ts[q]])
    {
    }
    Rises(text, ts);
  }

  ghost predicate NoBranch(code: seq<Byte>, s: seq<int>, k: nat, m: nat) {
    forall q :: k <= q < m && q < |s| ==> 0 <= s[q] < |code| && !IsBranch(code[s[q]])
  }

  lemma OneClear(code: seq<Byte>, hs: seq<Handler>, s: seq<int>, marks: set<int>, k: nat, m: nat, e: Edit)
    requires Sited(code, hs, s, marks) && k < m < |s| && e.start == s[k] && e.end == s[m] && NoBranch(code, s, k, m)
    requires forall x :: x in marks ==> !(s[k] < x < s[m])
    ensures EditsAligned(code, [e], s) && ClearTargets(code, hs, [e], s) && Apart([e], |code|)
  {
    hide Layout, Target, Arms;
    InstrsInside(code, s);
    SortedStarts(code, s);
    forall q | 0 <= q < |s| - 1 && IsBranch(code[s[q]])
      ensures !Inside([e], 1, s[q])
    {
      Ordered(code, s, q, k);
      Ordered(code, s, q, m);
    }
    forall x | x in marks
      ensures Open([e], s, x)
    {
    }
  }

  /** Code with one window folded ends as it did. */
  lemma RefilledEnds(sem: Semantics, land: Land, code: seq<Byte>, hs: seq<Handler>, s: seq<int>, marks: set<int>,
                     k: nat, m: nat, n: nat, inst: seq<Byte>, b: seq<Byte>, x: int, st: State)
    requires Sited(code, hs, s, marks) && Refilled(code, s, k, m, n, inst, b) && NoBranch(code, s, k, m)
    requires Sensible(sem)
    requires (forall y :: y in marks ==> !(s[k] < y < s[m])) && Pushes(sem, code, s[k], s[m], inst, x)
    ensures SameEnds(sem, land, hs, code, b, st)
  {
    hide Layout, Sensible, Padded, Flow, Target, Arms, ClearTargets, EditsAligned, SameEnds, Straight, Plain;
    var e := Edit(s[k], s[m], Padded(n, inst));
    var ts := [seq(n + 1, i => i) + [n + |inst|]];
    OneClear(code, hs, s, marks, k, m, e);
    PaddedSize(n, inst);
    PaddedLayout(n, inst);
    forall y | 0 <= y < |code| && !Inside([e], 1, y)
      ensures b[y] == code[y]
    {
      assert [e][0] == e;
    }
    assert WrittenAt(e, b);
    forall a
      ensures Interchanges(sem, code, [e], 0, a)
    {
      assert PushesAt(sem, code, s[k], s[m], inst, x, a);
      FlowPadded(sem, n, inst, 0, a);
    }
    InPlaceEnds(sem, land, code, hs, [e], s, ts, Always(), b, st);
  }

  lemma PaddedSize(n: nat, inst: seq<Byte>)
    ensures |Padded(n, inst)| == n + |inst|
  {
  }
}
