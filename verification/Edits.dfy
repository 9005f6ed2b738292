/** Length-changing edits to a body: splicing, and repairing branches and handler ranges. */
module Edits {
  import opened Bytecode
  import opened Compaction

  /** Replaces [start, end) by bytes; an insertion when the range is empty. */
  datatype Edit = Edit(start: int, end: int, bytes: seq<Byte>)

  predicate InOrder(a: Edit, b: Edit) {
    a.start < b.start || (a.start == b.start && a.end <= b.end)
  }

  predicate Clear(a: Edit, b: Edit) {
    a.end <= b.start || b.end <= a.start
  }

  /** Ranges of the code that do not overlap. */
  ghost predicate Disjoint(es: seq<Edit>, size: int) {
    && (forall i :: 0 <= i < |es| ==> 0 <= es[i].start <= es[i].end <= size)
    && (forall i, j :: 0 <= i < j < |es| ==> Clear(es[i], es[j]))
  }

  /** In order and apart. */
  ghost predicate Apart(es: seq<Edit>, size: int) {
    && (forall i :: 0 <= i < |es| ==> 0 <= es[i].start <= es[i].end <= size)
    && (forall i, j :: 0 <= i < j < |es| ==> es[i].end <= es[j].start)
  }

  /** How far the first n edits move what follows them. */
  ghost function Shift(es: seq<Edit>, n: nat): int
    requires n <= |es|
  {
    if n == 0 then 0 else Shift(es, n - 1) + |es[n - 1].bytes| - (es[n - 1].end - es[n - 1].start)
  }

  /** Where offset x goes under the first n edits: past everything spliced in before it, or to the start of
      the replacement it was in. */
  ghost function Place(es: seq<Edit>, n: nat, x: int): int
    requires n <= |es|
  {
    if n == 0 then x
    else if es[n - 1].end <= x then x + Shift(es, n)
    else if es[n - 1].start <= x then es[n - 1].start + Shift(es, n - 1)
    else Place(es, n - 1, x)
  }

  ghost predicate Inside(es: seq<Edit>, n: nat, x: int)
    requires n <= |es|
  {
    exists i :: 0 <= i < n && es[i].start <= x < es[i].end
  }

  ghost function Done(es: seq<Edit>, n: nat): int
    requires n <= |es|
  {
    if n == 0 then 0 else es[n - 1].end
  }

  lemma PlaceBefore(es: seq<Edit>, size: int, n: nat, x: int)
    requires Apart(es, size) && n <= |es| && x >= Done(es, n)
    ensures Place(es, n, x) == x + Shift(es, n) && !Inside(es, n, x)
    ensures n < |es| && x < es[n].start ==> Place(es, n + 1, x) == Place(es, n, x)
    ensures n < |es| && es[n].start <= x < es[n].end ==> Place(es, n + 1, x) == es[n].start + Shift(es, n)
  {
  }

  /** Later edits do not move x. */
  lemma {:induction false} PlaceSettled(es: seq<Edit>, size: int, n: nat, m: nat, x: int)
    requires Apart(es, size) && n <= m <= |es| && (n < |es| ==> x < es[n].start)
    ensures Place(es, m, x) == Place(es, n, x)
    ensures Inside(es, m, x) <==> Inside(es, n, x)
    decreases m - n
  {
    if n < m {
      PlaceSettled(es, size, n, m - 1, x);
      assert es[n].start <= es[m - 1].start;
    }
  }

  lemma {:induction false} ShiftBounds(es: seq<Edit>, size: int, n: nat)
    requires Apart(es, size) && n <= |es|
    ensures Done(es, n) + Shift(es, n) >= 0
  {
    if n > 0 {
      ShiftBounds(es, size, n - 1);
    }
  }

  /** Order is kept, and what is outside every edit keeps its distance to what follows. */
  lemma {:induction false} PlaceMonotone(es: seq<Edit>, size: int, n: nat, x: int, y: int)
    requires Apart(es, size) && n <= |es| && 0 <= x <= y
    ensures 0 <= Place(es, n, x) <= Place(es, n, y)
    ensures x < y && !Inside(es, n, x) ==> Place(es, n, x) < Place(es, n, y)
  {
    if n > 0 {
      PlaceMonotone(es, size, n - 1, x, y);
      var e := es[n - 1];
      ShiftBounds(es, size, n - 1);
      PlaceBefore(es, size, n - 1, e.start);
      if x < e.start <= y {
        PlaceMonotone(es, size, n - 1, x, e.start);
      }
    }
  }

  /** Nothing starts or ends strictly between x and y, or at y's end of it. */
  ghost predicate Unbroken(es: seq<Edit>, n: nat, x: int, y: int)
    requires n <= |es|
  {
    !Inside(es, n, x) && forall i :: 0 <= i < n ==> !(x < es[i].start < y) && !(x < es[i].end < y)
  }

  lemma {:induction false} PlaceTogether(es: seq<Edit>, size: int, n: nat, x: int, y: int, z: int)
    requires Apart(es, size) && n <= |es| && 0 <= x <= z < y && Unbroken(es, n, x, y)
    ensures Place(es, n, z) == Place(es, n, x) + (z - x) && !Inside(es, n, z)
  {
    if n > 0 {
      assert !(es[n - 1].start <= x < es[n - 1].end);
      PlaceTogether(es, size, n - 1, x, y, z);
    }
  }

  /** The bytes of edit i start here. */
  ghost function TextStart(es: seq<Edit>, i: nat): int
    requires i < |es|
  {
    es[i].start + Shift(es, i)
  }

  /** Everything outside the edits stands at its place, and so does every edit's text. */
  ghost predicate Spliced(code: seq<Byte>, es: seq<Edit>, out: seq<Byte>)
  {
    && |out| == Place(es, |es|, |code|)
    && (forall x :: 0 <= x < |code| && !Inside(es, |es|, x) ==> ByteAt(code, es, |es|, out, x))
    && (forall i :: 0 <= i < |es| ==> TextAt(es, out, i))
  }

  ghost predicate ByteAt(code: seq<Byte>, es: seq<Edit>, n: nat, out: seq<Byte>, x: int)
    requires n <= |es| && 0 <= x < |code|
  {
    0 <= Place(es, n, x) < |out| && out[Place(es, n, x)] == code[x]
  }

  ghost predicate TextAt(es: seq<Edit>, out: seq<Byte>, i: nat)
    requires i < |es|
  {
    0 <= TextStart(es, i) && TextStart(es, i) + |es[i].bytes| <= |out| &&
        out[TextStart(es, i)..TextStart(es, i) + |es[i].bytes|] == es[i].bytes
  }

  /** Built so far: n edits are in, and everything before `at` is copied and mapped. */
  ghost predicate Building(code: seq<Byte>, es: seq<Edit>, n: nat, at: int, out: seq<Byte>, remap: seq<int>) {
    && n <= |es| && |remap| == |code| + 1 && Done(es, n) <= at <= |code| && |out| == at + Shift(es, n)
    && (forall x :: 0 <= x < at ==> remap[x] == Place(es, n, x))
    && (forall x :: 0 <= x < at && !Inside(es, n, x) ==> ByteAt(code, es, n, out, x))
    && (forall i :: 0 <= i < n ==> TextAt(es, out, i))
  }

  lemma CopyOne(code: seq<Byte>, es: seq<Edit>, n: nat, at: int, out: seq<Byte>, remap: seq<int>)
    requires Building(code, es, n, at, out, remap) && Apart(es, |code|) && at < |code|
    ensures Building(code, es, n, at + 1, out + [code[at]], remap[at := |out|])
  {
    hide Place, Shift, Inside;
    PlaceBefore(es, |code|, n, at);
    ShiftBounds(es, |code|, n);
    var out' := out + [code[at]];
    forall i | 0 <= i < n
      ensures TextAt(es, out', i)
    {
      assert TextAt(es, out, i);
      assert out'[TextStart(es, i)..TextStart(es, i) + |es[i].bytes|] ==
          out[TextStart(es, i)..TextStart(es, i) + |es[i].bytes|];
    }
    forall x | 0 <= x < at + 1 && !Inside(es, n, x)
      ensures ByteAt(code, es, n, out', x)
    {
      if x < at { assert ByteAt(code, es, n, out, x); }
    }
  }

  /** Splicing edit n in. */
  lemma AddEdit(code: seq<Byte>, es: seq<Edit>, n: nat, out: seq<Byte>, remap: seq<int>, remap': seq<int>)
    requires n < |es| && Apart(es, |code|) && Building(code, es, n, es[n].start, out, remap)
    requires |remap'| == |remap|
    requires forall x :: 0 <= x < |remap| ==> remap'[x] == if es[n].start <= x < es[n].end then |out| else remap[x]
    ensures Building(code, es, n + 1, es[n].end, out + es[n].bytes, remap')
  {
    hide Inside;
    var out' := out + es[n].bytes;
    ShiftBounds(es, |code|, n);
    forall i | 0 <= i < n + 1
      ensures TextAt(es, out', i)
    {
      if i < n {
        assert TextAt(es, out, i);
        assert out'[TextStart(es, i)..TextStart(es, i) + |es[i].bytes|] ==
            out[TextStart(es, i)..TextStart(es, i) + |es[i].bytes|];
      } else {
        assert out'[|out|..|out'|] == es[n].bytes;
      }
    }
    var n' := n + 1;
    forall x | 0 <= x < es[n].end
      ensures remap'[x] == Place(es, n', x)
      ensures !Inside(es, n', x) ==> ByteAt(code, es, n', out', x)
    {
      InsideNext(es, n, x);
      if x < es[n].start {
        PlaceSettled(es, |code|, n, n + 1, x);
        if !Inside(es, n, x) { assert ByteAt(code, es, n, out, x); }
      }
    }
  }

  lemma InsideNext(es: seq<Edit>, n: nat, x: int)
    requires n < |es|
    ensures Inside(es, n + 1, x) <==> Inside(es, n, x) || es[n].start <= x < es[n].end
  {
  }

  lemma BuildEnds(code: seq<Byte>, es: seq<Edit>, out: seq<Byte>, remap: seq<int>)
    requires Building(code, es, |es|, |code|, out, remap) && Apart(es, |code|)
    ensures Spliced(code, es, out) && |out| == Place(es, |es|, |code|)
    ensures forall x :: 0 <= x <= |code| ==> remap[|code| := |out|][x] == Place(es, |es|, x)
  {
    PlaceBefore(es, |code|, |es|, |code|);
  }

  /** The edited code, and where each old offset went. */
  method Build(code: seq<Byte>, es: seq<Edit>) returns (out: seq<Byte>, remap: seq<int>)
    requires Apart(es, |code|)
    ensures Spliced(code, es, out) && |remap| == |code| + 1
    ensures forall x :: 0 <= x <= |code| ==> remap[x] == Place(es, |es|, x)
  {
    hide Building, Spliced, Place, Shift;
    remap := seq(|code| + 1, _ => 0);
    out := [];
    var at := 0;
    BuildStarts(code, es, remap);
    for n := 0 to |es|
      invariant Building(code, es, n, at, out, remap) && at == Done(es, n) && |remap| == |code| + 1
    {
      var e := es[n];
      DoneBefore(es, |code|, n);
      while at < e.start
        invariant 0 <= at <= e.start && Building(code, es, n, at, out, remap) && |remap| == |code| + 1
      {
        CopyOne(code, es, n, at, out, remap);
        remap := remap[at := |out|];
        out := out + [code[at]];
        at := at + 1;
      }
      ghost var before := remap;
      for o := e.start to e.end
        invariant |remap| == |code| + 1
        invariant forall x :: 0 <= x < |remap| ==> remap[x] == if e.start <= x < o then |out| else before[x]
      {
        remap := remap[o := |out|];
      }
      AddEdit(code, es, n, out, before, remap);
      out := out + e.bytes;
      at := e.end;
    }
    DoneBefore(es, |code|, |es|);
    while at < |code|
      invariant 0 <= at <= |code| && Building(code, es, |es|, at, out, remap) && |remap| == |code| + 1
    {
      CopyOne(code, es, |es|, at, out, remap);
      remap := remap[at := |out|];
      out := out + [code[at]];
      at := at + 1;
    }
    BuildEnds(code, es, out, remap);
    remap := remap[|code| := |out|];
  }

  lemma BuildStarts(code: seq<Byte>, es: seq<Edit>, remap: seq<int>)
    requires |remap| == |code| + 1
    ensures Building(code, es, 0, 0, [], remap)
  {
  }

  lemma DoneBefore(es: seq<Edit>, size: int, n: nat)
    requires Apart(es, size) && n <= |es| && size >= 0
    ensures 0 <= Done(es, n) <= (if n < |es| then es[n].start else size)
  {
  }

  /** Edits start and end between instructions and cover no branch. */
  ghost predicate EditsAligned(code: seq<Byte>, es: seq<Edit>, s: seq<int>)
    requires Layout(code, s)
  {
    && (forall i :: 0 <= i < |es| ==> es[i].start in s && es[i].end in s)
    && (forall k :: 0 <= k < |s| - 1 && IsBranch(code[s[k]]) ==> !Inside(es, |es|, s[k]))
  }

  ghost predicate Unedited(code: seq<Byte>, es: seq<Edit>, s: seq<int>, k: int) {
    0 <= k < |s| - 1 && !Inside(es, |es|, s[k])
  }

  /** Where an unedited instruction goes. */
  ghost function To(es: seq<Edit>, x: int): int {
    Place(es, |es|, x)
  }

  /** The bytes of an unedited instruction stay together. */
  lemma Together(code: seq<Byte>, es: seq<Edit>, s: seq<int>, k: int)
    requires Layout(code, s) && Apart(es, |code|) && EditsAligned(code, es, s) && Unedited(code, es, s, k)
    ensures 0 <= s[k] < s[k + 1] <= |code|
    ensures forall z :: s[k] <= z < s[k + 1] ==> To(es, z) == To(es, s[k]) + (z - s[k]) && !Inside(es, |es|, z)
    ensures 0 <= To(es, s[k]) && To(es, s[k]) + (s[k + 1] - s[k]) <= To(es, s[k + 1])
  {
    hide Place, Inside;
    LayoutNext(code, s, k);
    forall i | 0 <= i < |es|
      ensures !(s[k] < es[i].start < s[k + 1]) && !(s[k] < es[i].end < s[k + 1])
    {
      NotBetween(code, s, k, es[i].start);
      NotBetween(code, s, k, es[i].end);
    }
    forall z | s[k] <= z < s[k + 1]
      ensures To(es, z) == To(es, s[k]) + (z - s[k]) && !Inside(es, |es|, z)
    {
      PlaceTogether(es, |code|, |es|, s[k], s[k + 1], z);
    }
    PlaceMonotone(es, |code|, |es|, s[k], s[k]);
    PlaceMonotone(es, |code|, |es|, s[k + 1] - 1, s[k + 1]);
    assert To(es, s[k + 1] - 1) == To(es, s[k]) + (s[k + 1] - 1 - s[k]);
  }

  lemma NotBetween(code: seq<Byte>, s: seq<int>, k: int, t: int)
    requires Layout(code, s) && 0 <= k < |s| - 1 && t in s
    ensures !(s[k] < t < s[k + 1])
  {
  }

  /** An unedited instruction is copied whole. */
  lemma CopiedWhole(code: seq<Byte>, es: seq<Edit>, s: seq<int>, out: seq<Byte>, k: int)
    requires Layout(code, s) && Apart(es, |code|) && EditsAligned(code, es, s) && Unedited(code, es, s, k)
    requires Spliced(code, es, out)
    ensures 0 <= s[k] < s[k + 1] <= |code|
    ensures InstrAt(code, s[k], out, To(es, s[k]))
    ensures forall i :: 0 <= i < Arms(code, s[k]) ==> Disp(out, To(es, s[k]), i) == Disp(code, s[k], i)
  {
    hide Place, Inside, Layout, InstrAt, Disp, Arms, Width, TextAt, EditsAligned;
    LayoutNext(code, s, k);
    Together(code, es, s, k);
    PlaceMonotone(es, |code|, |es|, s[k + 1], |code|);
    var p, w := To(es, s[k]), s[k + 1] - s[k];
    forall z | s[k] <= z < s[k] + w
      ensures out[z - s[k] + p] == code[z]
    {
      assert To(es, z) == p + (z - s[k]) && !Inside(es, |es|, z);
      assert ByteAt(code, es, |es|, out, z);
    }
    SlicesMeet(out, p, code, s[k], w);
    BytesSame(code, s[k], out, p);
  }

  lemma SlicesMeet(a: seq<Byte>, p: int, b: seq<Byte>, q: int, w: int)
    requires 0 <= p && 0 <= q && 0 <= w && p + w <= |a| && q + w <= |b| && forall z ::
      q <= z < q + w ==> a[z - q + p] == b[z]
    ensures a[p..p + w] == b[q..q + w]
  {
    var l, r := a[p..p + w], b[q..q + w];
    forall d | 0 <= d < |l|
      ensures l[d] == r[d]
    {
      assert l[d] == a[p + d] && b[q + d] == a[q + d - q + p];
    }
  }

  /** The displacement arm i of instruction k needs in the edited code. */
  ghost function Delta(code: seq<Byte>, es: seq<Edit>, s: seq<int>, k: int, i: int): int
    requires Layout(code, s) && 0 <= k < |s| - 1
  {
    To(es, Target(code, s[k], i)) - To(es, s[k]) - (s[k + 1] - s[k])
  }

  /** The arm leads into the code and its new displacement fits two bytes. */
  ghost predicate Fits(code: seq<Byte>, es: seq<Edit>, s: seq<int>, k: int, i: int)
    requires Layout(code, s) && 0 <= k < |s| - 1
  {
    0 <= Target(code, s[k], i) <= |code| && -0x8000 <= Delta(code, es, s, k, i) < 0x8000
  }

  /** Instruction k stands in b with its first n displacements rewritten. */
  ghost predicate ArmsSet(code: seq<Byte>, es: seq<Edit>, s: seq<int>, b: seq<Byte>, k: int, n: int)
    requires Layout(code, s) && 0 <= k < |s| - 1
  {
    && InstrAt(code, s[k], b, To(es, s[k]))
    && forall i :: 0 <= i < Arms(code, s[k]) ==>
         Disp(b, To(es, s[k]), i) == if i < n then Delta(code, es, s, k, i) else Disp(code, s[k], i)
  }

  /** Every unedited instruction stands in b, those before k and the first a arms of k relinked; the
      edits' texts stand untouched. */
  ghost predicate Linked(code: seq<Byte>, es: seq<Edit>, s: seq<int>, b: seq<Byte>, k: int, a: int)
    requires Layout(code, s)
  {
    && |b| == To(es, |code|)
    && (forall j :: Unedited(code, es, s, j) ==> ArmsSet(code, es, s, b, j, Progress(Arms(code, s[j]), j, k, a)))
    && (forall i :: 0 <= i < |es| ==> TextAt(es, b, i))
  }

  lemma LinkStarts(code: seq<Byte>, es: seq<Edit>, s: seq<int>, out: seq<Byte>)
    requires Layout(code, s) && Apart(es, |code|) && EditsAligned(code, es, s) && Spliced(code, es, out)
    ensures Linked(code, es, s, out, 0, 0)
  {
    hide Place, Inside, InstrAt, Disp, Width, TextAt, EditsAligned, ByteAt, Apart;
    forall j | Unedited(code, es, s, j)
      ensures ArmsSet(code, es, s, out, j, 0)
    {
      CopiedWhole(code, es, s, out, j);
    }
  }

  /** Unedited instructions and texts do not overlap. */
  lemma TextApart(code: seq<Byte>, es: seq<Edit>, s: seq<int>, k: int, i: nat)
    requires Layout(code, s) && Apart(es, |code|) && EditsAligned(code, es, s) && Unedited(code, es, s, k) && i < |es|
    ensures TextStart(es, i) + |es[i].bytes| <= To(es, s[k]) || To(es, s[k]) + (s[k + 1] - s[k]) <= TextStart(es, i)
  {
    hide Layout, Place, EditsAligned;
    Together(code, es, s, k);
    if es[i].end <= s[k] {
      PlaceAfter(es, |code|, i, |es|, s[k]);
    } else {
      StartAfter(code, es, s, k, i);
      PlaceBeforeText(es, |code|, i, s[k + 1] - 1);
      assert To(es, s[k + 1] - 1) == To(es, s[k]) + (s[k + 1] - 1 - s[k]);
    }
  }

  lemma StartAfter(code: seq<Byte>, es: seq<Edit>, s: seq<int>, k: int, i: nat)
    requires Layout(code, s) && EditsAligned(code, es, s) && Unedited(code, es, s, k) && i < |es| && s[k] < es[i].end
    ensures s[k + 1] <= es[i].start
  {
    hide Layout;
    SortedStarts(code, s);
    NotBetween(code, s, k, es[i].start);
  }

  lemma {:induction false} PlaceAfter(es: seq<Edit>, size: int, i: nat, n: nat, x: int)
    requires Apart(es, size) && i < n <= |es| && es[i].end <= x
    ensures Place(es, n, x) >= TextStart(es, i) + |es[i].bytes|
    decreases n
  {
    if i + 1 < n {
      var e := es[n - 1];
      ShiftGrows(es, size, i + 1, n - 1);
      if e.start > x {
        PlaceAfter(es, size, i, n - 1, x);
      }
    }
  }

  /** Between edits positions grow at least with the distance. */
  lemma {:induction false} ShiftGrows(es: seq<Edit>, size: int, i: nat, n: nat)
    requires Apart(es, size) && 0 < i <= n <= |es|
    ensures Done(es, n) + Shift(es, n) >= Done(es, i) + Shift(es, i)
    decreases n
  {
    if i < n {
      ShiftGrows(es, size, i, n - 1);
    }
  }

  lemma PlaceBeforeText(es: seq<Edit>, size: int, i: nat, x: int)
    requires Apart(es, size) && i < |es| && 0 <= x < es[i].start && !Inside(es, |es|, x)
    ensures Place(es, |es|, x) < TextStart(es, i)
  {
    hide Inside;
    PlaceSettled(es, size, i, |es|, x);
    PlaceMonotone(es, size, i, x, es[i].start);
    PlaceBefore(es, size, i, es[i].start);
  }

  /** Relinking one arm disturbs nothing else. */
  lemma LinkArm(code: seq<Byte>, es: seq<Edit>, s: seq<int>, b: seq<Byte>, k: int, a: int)
    requires Layout(code, s) && Apart(es, |code|) && EditsAligned(code, es, s) && Unedited(code, es, s, k)
    requires Linked(code, es, s, b, k, a) && 0 <= a < Arms(code, s[k]) && Fits(code, es, s, k, a)
    ensures var p := To(es, s[k]);
            && 0 <= p < |b| && p < ArmAt(b, p, a) && ArmAt(b, p, a) + 1 < |b|
            && Linked(code, es, s, Patched(b, ArmAt(b, p, a), Delta(code, es, s, k, a)), k, a + 1)
  {
    hide ArmsSet, Patched, Place, Layout, Inside, EditsAligned, Apart, TextAt;
    InstrsInside(code, s);
    Together(code, es, s, k);
    var p, v := To(es, s[k]), Delta(code, es, s, k, a);
    assert ArmsSet(code, es, s, b, k, a);
    LinkHere(code, es, s, b, k, a);
    var at := ArmAt(b, p, a);
    PatchedSize(b, at, v);
    forall j | Unedited(code, es, s, j)
      ensures ArmsSet(code, es, s, Patched(b, at, v), j, Progress(Arms(code, s[j]), j, k, a + 1))
    {
      assert ArmsSet(code, es, s, b, j, Progress(Arms(code, s[j]), j, k, a));
      if j != k {
        LinkElsewhere(code, es, s, b, k, at, v, j, Progress(Arms(code, s[j]), j, k, a));
      }
    }
    forall i | 0 <= i < |es|
      ensures TextAt(es, Patched(b, at, v), i)
    {
      assert TextAt(es, b, i);
      TextApart(code, es, s, k, i);
      TextStays(es, b, i, at, v);
    }
  }

  lemma PatchedSize(b: seq<Byte>, at: int, v: int)
    requires 0 <= at && at + 1 < |b|
    ensures |Patched(b, at, v)| == |b|
  {
  }

  lemma TextStays(es: seq<Edit>, b: seq<Byte>, i: nat, at: int, v: int)
    requires i < |es| && TextAt(es, b, i) && 0 <= at && at + 1 < |b|
    requires TextStart(es, i) + |es[i].bytes| <= at || at + 2 <= TextStart(es, i)
    ensures TextAt(es, Patched(b, at, v), i)
  {
    var p := TextStart(es, i);
    assert Patched(b, at, v)[p..p + |es[i].bytes|] == b[p..p + |es[i].bytes|];
  }

  lemma LinkHere(code: seq<Byte>, es: seq<Edit>, s: seq<int>, b: seq<Byte>, k: int, a: int)
    requires Layout(code, s) && 0 <= k < |s| - 1 && ArmsSet(code, es, s, b, k, a) && 0 <= a < Arms(code, s[k])
    requires Fits(code, es, s, k, a)
    ensures var p := To(es, s[k]);
            && 0 <= p < |b| && p < ArmAt(b, p, a) && ArmAt(b, p, a) + 1 < p + (s[k + 1] - s[k]) <= |b|
            && ArmsSet(code, es, s, Patched(b, ArmAt(b, p, a), Delta(code, es, s, k, a)), k, a + 1)
  {
    hide Delta, Layout, Patched, Disp, InstrAt, To, Wrapped;
    InstrsInside(code, s);
    LayoutNext(code, s, k);
    InstrStands(code, s[k], b, To(es, s[k]));
    PatchHere(code, s[k], b, To(es, s[k]), a, Delta(code, es, s, k, a));
    Wraps(Delta(code, es, s, k, a));
  }

  lemma LinkElsewhere(code: seq<Byte>, es: seq<Edit>, s: seq<int>, b: seq<Byte>, k: int, at: int, v: int, j: int,
                      n: int)
    requires Layout(code, s) && Apart(es, |code|) && EditsAligned(code, es, s) && Unedited(code, es, s, k)
    requires Unedited(code, es, s, j)
    requires j != k && ArmsSet(code, es, s, b, j, n)
    requires To(es, s[k]) < at && at + 1 < To(es, s[k]) + (s[k + 1] - s[k]) && 0 <= at && at + 1 < |b|
    ensures ArmsSet(code, es, s, Patched(b, at, v), j, n)
  {
    hide Delta, Patched, Disp, InstrAt, Place, Apart, Inside, EditsAligned;
    LayoutNext(code, s, j);
    Together(code, es, s, k);
    Together(code, es, s, j);
    if j < k {
      PlaceMonotone(es, |code|, |es|, s[j + 1], s[k]);
    } else {
      PlaceMonotone(es, |code|, |es|, s[k + 1], s[j]);
    }
    PatchElsewhere(code, s[j], b, To(es, s[j]), at, v);
  }

  lemma LinkNext(code: seq<Byte>, es: seq<Edit>, s: seq<int>, b: seq<Byte>, k: int)
    requires Layout(code, s) && 0 <= k < |s| - 1
    requires Linked(code, es, s, b, k, if Unedited(code, es, s, k) then Arms(code, s[k]) else 0)
    ensures Linked(code, es, s, b, k + 1, 0)
  {
    hide ArmsSet, To;
    InstrsInside(code, s);
    forall j | Unedited(code, es, s, j)
      ensures ArmsSet(code, es, s, b, j, Progress(Arms(code, s[j]), j, k + 1, 0))
    {
      assert ArmsSet(code, es, s, b, j,
          Progress(Arms(code, s[j]), j, k, if Unedited(code, es, s, k) then Arms(code, s[k]) else 0));
    }
  }

  /** All arms of the first n instructions fit. */
  ghost predicate AllFit(code: seq<Byte>, es: seq<Edit>, s: seq<int>, n: int)
    requires Layout(code, s)
  {
    forall k, i :: 0 <= k < |s| - 1 && k < n && 0 <= i < Arms(code, s[k]) ==> Fits(code, es, s, k, i)
  }

  /** Rewrites one displacement. None when it leads nowhere or does not fit. */
  method Retarget(code: seq<Byte>, out: seq<Byte>, remap: seq<int>, ip: int, width: int, i: int,
                  ghost es: seq<Edit>, ghost s: seq<int>, ghost k: int) returns (r: Option<seq<Byte>>)
    requires Layout(code, s) && Apart(es, |code|) && EditsAligned(code, es, s) && Unedited(code, es, s, k)
    requires ip == s[k] && width == s[k + 1] - s[k] && 0 <= i < Arms(code, s[k]) && Linked(code, es, s, out, k, i)
    requires |remap| == |code| + 1 && forall x :: 0 <= x <= |code| ==> remap[x] == To(es, x)
    ensures r.Some? <==> Fits(code, es, s, k, i)
    ensures r.Some? ==> Linked(code, es, s, r.value, k, i + 1)
  {
    hide Layout, EditsAligned, Apart, Linked, To, Patched, Inside, ArmAt, Arms, Disp;
    LayoutNext(code, s, k);
    var target := ip + width + Disp(code, ip, i);
    if target < 0 || target >= |remap| {
      return None;
    }
    var delta := remap[target] - remap[ip] - width;
    if delta < -0x8000 || delta > 0x7fff {
      return None;
    }
    LinkArm(code, es, s, out, k, i);
    r := Some(Patched(out, ArmAt(out, remap[ip], i), delta));
  }

  /** Repairs every branch for the new layout. None when one can no longer reach its target. */
  method Relink(code: seq<Byte>, spliced: seq<Byte>, remap: seq<int>, ghost es: seq<Edit>, ghost s: seq<int>)
    returns (r: Option<seq<Byte>>)
    requires Layout(code, s) && Apart(es, |code|) && EditsAligned(code, es, s) && Spliced(code, es, spliced)
    requires |remap| == |code| + 1 && forall x :: 0 <= x <= |code| ==> remap[x] == To(es, x)
    ensures r.Some? <==> AllFit(code, es, s, |s| - 1)
    ensures r.Some? ==> Linked(code, es, s, r.value, |s| - 1, 0)
  {
    hide Layout, EditsAligned, Apart, Linked, To, Spliced, Inside, Arms, Fits;
    var out := spliced;
    var ip := 0;
    ghost var k := 0;
    LinkStarts(code, es, s, out);
    Ends(code, s);
    while ip < |code|
      invariant 0 <= k <= |s| - 1 && ip == s[k] && Linked(code, es, s, out, k, 0) && AllFit(code, es, s, k)
      decreases |code| - ip
    {
      InstrsInside(code, s);
      LayoutNext(code, s, k);
      BranchUnedited(code, es, s, k);
      var width := Width(code, ip);
      for i := 0 to Arms(code, ip)
        invariant Linked(code, es, s, out, k, i) && forall j :: 0 <= j < i ==> Fits(code, es, s, k, j)
      {
        var patched := Retarget(code, out, remap, ip, width, i, es, s, k);
        if patched.None? {
          return None;
        }
        out := patched.value;
      }
      LinkNext(code, es, s, out, k);
      ip := ip + width;
      k := k + 1;
    }
    r := Some(out);
  }

  lemma Ends(code: seq<Byte>, s: seq<int>)
    requires Layout(code, s)
    ensures |s| > 0 && s[0] == 0 && s[|s| - 1] == |code| && forall k :: 0 <= k < |s| - 1 ==> s[k] < |code|
  {
  }

  lemma BranchUnedited(code: seq<Byte>, es: seq<Edit>, s: seq<int>, k: int)
    requires Layout(code, s) && EditsAligned(code, es, s) && 0 <= k < |s| - 1
    ensures 0 <= Arms(code, s[k])
    ensures Arms(code, s[k]) > 0 ==> Unedited(code, es, s, k)
    ensures !Unedited(code, es, s, k) ==> Arms(code, s[k]) == 0
  {
    hide Inside;
  }
}
