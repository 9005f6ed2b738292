/** What deleting instructions from a body does to offsets, bytes and displacements, on plain values.
    s lists the instruction offsets of c; the instructions at offsets in dead, no-ops and
    `unreachable` go, everything else stays in order. */
module Compaction {
  import opened Bytecode

  ghost predicate Kept(c: seq<Byte>, s: seq<int>, dead: set<int>, k: int)
    requires Layout(c, s)
  {
    0 <= k < |s| - 1 && s[k] !in dead && c[s[k]] != NOP && c[s[k]] != UNREACHABLE
  }

  /** Where instruction k starts once everything before it is compacted. */
  ghost function Pos(c: seq<Byte>, s: seq<int>, dead: set<int>, k: int): int
    requires Layout(c, s) && 0 <= k <= |s| - 1
    decreases k
  {
    if k == 0 then 0 else Pos(c, s, dead, k - 1) + (if Kept(c, s, dead, k - 1) then s[k] - s[k - 1] else 0)
  }

  /** Dead bytes come in whole instructions. */
  ghost predicate Aligned(s: seq<int>, dead: set<int>) {
    forall k, x :: 0 <= k < |s| - 1 && s[k] <= x < s[k + 1] ==> (x in dead <==> s[k] in dead)
  }

  /** Compaction never stretches a distance. */
  lemma {:induction false} PosMonotone(c: seq<Byte>, s: seq<int>, dead: set<int>, j: int, k: int)
    requires Layout(c, s) && 0 <= j <= k <= |s| - 1
    ensures 0 <= Pos(c, s, dead, k) - Pos(c, s, dead, j) <= s[k] - s[j]
    decreases k - j
  {
    if j < k {
      PosMonotone(c, s, dead, j, k - 1);
    }
  }

  lemma PosBounds(c: seq<Byte>, s: seq<int>, dead: set<int>, k: int)
    requires Layout(c, s) && 0 <= k <= |s| - 1
    ensures 0 <= Pos(c, s, dead, k) <= s[k]
    ensures Pos(c, s, dead, k) <= Pos(c, s, dead, |s| - 1) <= |c|
    ensures k < |s| - 1 && Kept(c, s, dead, k) ==>
      Pos(c, s, dead, k) + (s[k + 1] - s[k]) == Pos(c, s, dead, k + 1) <= Pos(c, s, dead, |s| - 1)
  {
    hide Pos, Kept, Layout;
    FirstPos(c, s, dead);
    PosMonotone(c, s, dead, 0, k);
    PosMonotone(c, s, dead, k, |s| - 1);
    PosMonotone(c, s, dead, 0, |s| - 1);
    if k < |s| - 1 {
      NextPos(c, s, dead, k);
      PosMonotone(c, s, dead, k + 1, |s| - 1);
    }
  }

  lemma FirstPos(c: seq<Byte>, s: seq<int>, dead: set<int>)
    requires Layout(c, s)
    ensures s[0] == 0 && s[|s| - 1] == |c| && Pos(c, s, dead, 0) == 0
  {
  }

  lemma NextPos(c: seq<Byte>, s: seq<int>, dead: set<int>, k: int)
    requires Layout(c, s) && 0 <= k < |s| - 1
    ensures Kept(c, s, dead, k) ==> Pos(c, s, dead, k + 1) == Pos(c, s, dead, k) + (s[k + 1] - s[k])
  {
  }

  /** offs maps every kept instruction to its new start and everything else below n to -1. */
  ghost predicate Offsets(c: seq<Byte>, s: seq<int>, dead: set<int>, offs: seq<int>, n: int)
    requires Layout(c, s) && 0 <= n <= |s| - 1
  {
    && |offs| == |c|
    && (forall k :: 0 <= k < n ==> offs[s[k]] == if Kept(c, s, dead, k) then Pos(c, s, dead, k) else -1)
    && (forall x :: 0 <= x < |c| && (x !in s || x >= s[n]) ==> offs[x] == -1)
  }

  /** The next surviving instruction at or after off. */
  function Relocate(offs: seq<int>, off: int, size: int): int
    decreases |offs| - off
  {
    if 0 <= off < |offs| then (if offs[off] == -1 then Relocate(offs, off + 1, size) else offs[off]) else size
  }

  /** Relocating an instruction's offset gives where compaction put it, or the next survivor. */
  lemma {:induction false} RelocateIs(c: seq<Byte>, s: seq<int>, dead: set<int>, offs: seq<int>, k: int)
    requires Layout(c, s) && Offsets(c, s, dead, offs, |s| - 1) && 0 <= k <= |s| - 1
    ensures Relocate(offs, s[k], Pos(c, s, dead, |s| - 1)) == Pos(c, s, dead, k)
    decreases |s| - k
  {
    if k < |s| - 1 {
      LayoutNext(c, s, k);
      if !Kept(c, s, dead, k) {
        SkipTo(c, s, dead, offs, k, s[k] + 1);
        RelocateIs(c, s, dead, offs, k + 1);
      } else {
        PosBounds(c, s, dead, k);
      }
    }
  }

  lemma {:induction false} SkipTo(c: seq<Byte>, s: seq<int>, dead: set<int>, offs: seq<int>, k: int, x: int)
    requires Layout(c, s) && Offsets(c, s, dead, offs, |s| - 1) && 0 <= k < |s| - 1 && s[k] < x <= s[k + 1]
    ensures Relocate(offs, x, Pos(c, s, dead, |s| - 1)) == Relocate(offs, s[k + 1], Pos(c, s, dead, |s| - 1))
    decreases s[k + 1] - x
  {
    LayoutNext(c, s, k);
    if x < s[k + 1] {
      Between(s, k, x);
      SkipTo(c, s, dead, offs, k, x + 1);
    }
  }

  lemma Between(s: seq<int>, k: int, x: int)
    requires 0 <= k < |s| - 1 && s[k] < x < s[k + 1] && forall i, j :: 0 <= i < j < |s| ==> s[i] < s[j]
    ensures x !in s
  {
  }

  /** The instructions kept among the first n are in place in b. */
  ghost predicate Packed(c: seq<Byte>, s: seq<int>, dead: set<int>, b: seq<Byte>, n: int)
    requires Layout(c, s) && 0 <= n <= |s| - 1
  {
    forall k :: 0 <= k < n && Kept(c, s, dead, k) ==> InPlace(c, s, dead, b, k)
  }

  ghost predicate InPlace(c: seq<Byte>, s: seq<int>, dead: set<int>, b: seq<Byte>, k: int)
    requires Layout(c, s) && 0 <= k < |s| - 1
  {
    var at, w := Pos(c, s, dead, k), s[k + 1] - s[k];
    0 <= at && 0 <= w && at + w <= |b| && 0 <= s[k] && s[k + 1] <= |c| && b[at..at + w] == c[s[k]..s[k + 1]]
  }

  /** memmove of n bytes from r down to w. */
  function Copied(b: seq<Byte>, w: int, r: int, n: int): seq<Byte>
    requires 0 <= w <= r && 0 <= n && r + n <= |b|
  {
    b[..w] + b[r..r + n] + b[w + n..]
  }

  lemma PackNext(c: seq<Byte>, s: seq<int>, dead: set<int>, b: seq<Byte>, k: int)
    requires Layout(c, s) && 0 <= k < |s| - 1 && |b| == |c| && Packed(c, s, dead, b, k)
    requires s[k + 1] <= |b| && b[s[k]..s[k + 1]] == c[s[k]..s[k + 1]] && Kept(c, s, dead, k)
    ensures 0 <= Pos(c, s, dead, k) <= s[k] < s[k + 1]
    ensures var b' := Copied(b, Pos(c, s, dead, k), s[k], s[k + 1] - s[k]);
            |b'| == |b| && b'[s[k + 1]..] == b[s[k + 1]..] && Packed(c, s, dead, b', k + 1)
  {
    hide Kept, Layout, Copied, Pos, InPlace;
    SortedStarts(c, s);
    PosBounds(c, s, dead, k);
    var at, w := Pos(c, s, dead, k), s[k + 1] - s[k];
    var b' := Copied(b, at, s[k], w);
    CopiedFacts(b, at, s[k], w);
    PlacedHere(c, s, dead, b', k);
    forall j | 0 <= j < k && Kept(c, s, dead, j)
      ensures InPlace(c, s, dead, b', j)
    {
      StaysInPlace(c, s, dead, b, b', j, k);
    }
  }

  lemma PlacedHere(c: seq<Byte>, s: seq<int>, dead: set<int>, b: seq<Byte>, k: int)
    requires Layout(c, s) && 0 <= k < |s| - 1 && 0 <= s[k] <= s[k + 1] <= |c|
    requires var at := Pos(c, s, dead, k);
      0 <= at && at + (s[k + 1] - s[k]) <= |b| && b[at..at + (s[k + 1] - s[k])] == c[s[k]..s[k + 1]]
    ensures InPlace(c, s, dead, b, k)
  {
  }

  lemma StaysInPlace(c: seq<Byte>, s: seq<int>, dead: set<int>, b: seq<Byte>, b': seq<Byte>, j: int, k: int)
    requires Layout(c, s) && 0 <= j < k <= |s| - 1 && Kept(c, s, dead, j) && InPlace(c, s, dead, b, j)
    requires |b'| == |b| && forall p, q :: 0 <= p <= q <= Pos(c, s, dead, k) && q <= |b| ==> b'[p..q] == b[p..q]
    ensures InPlace(c, s, dead, b', j)
  {
    hide Kept, Layout;
    PosBounds(c, s, dead, j);
    PosMonotone(c, s, dead, j + 1, k);
  }

  lemma CopiedFacts(b: seq<Byte>, w: int, r: int, n: int)
    requires 0 <= w <= r && 0 <= n && r + n <= |b|
    ensures var b' := Copied(b, w, r, n);
            && |b'| == |b| && b'[w..w + n] == b[r..r + n] && b'[r + n..] == b[r + n..]
            && forall p, q :: 0 <= p <= q <= w && q <= |b| ==> b'[p..q] == b[p..q]
  {
    var b' := Copied(b, w, r, n);
    assert forall x :: 0 <= x < w ==> b'[x] == b[x];
  }

  lemma InstrsInside(c: seq<Byte>, s: seq<int>)
    requires Layout(c, s)
    ensures |s| > 0 && forall k :: 0 <= k < |s| - 1 ==> 0 <= s[k] < |c|
  {
  }

  lemma SortedStarts(c: seq<Byte>, s: seq<int>)
    requires Layout(c, s)
    ensures forall j, k :: 0 <= j < k < |s| ==> s[j] < s[k] <= |c|
    ensures forall k :: 0 <= k < |s| ==> 0 <= s[k] <= |c|
  {
  }

  /** The instruction of c at ip stands at `at` in b, displacements aside. */
  ghost predicate InstrAt(c: seq<Byte>, ip: int, b: seq<Byte>, at: int)
    requires 0 <= ip < |c|
  {
    && 0 <= at && at + Width(c, ip) <= |b| && ip + Width(c, ip) <= |c|
    && b[at] == c[ip]
    && (c[ip] == BR_TABLE ==> b[at + 1] == c[ip + 1])
    && (!IsBranch(c[ip]) ==> b[at..at + Width(c, ip)] == c[ip..ip + Width(c, ip)])
  }

  lemma InstrSame(c: seq<Byte>, ip: int, b: seq<Byte>, at: int)
    requires 0 <= ip < |c| && InstrAt(c, ip, b, at)
    ensures Width(b, at) == Width(c, ip) && Arms(b, at) == Arms(c, ip) && Core(b, at) == Core(c, ip)
    ensures forall i :: ArmAt(b, at, i) - at == ArmAt(c, ip, i) - ip
  {
  }

  lemma BytesSame(c: seq<Byte>, ip: int, b: seq<Byte>, at: int)
    requires 0 <= ip < |c| && ip + Width(c, ip) <= |c| && 0 <= at && at + Width(c, ip) <= |b|
    requires b[at..at + Width(c, ip)] == c[ip..ip + Width(c, ip)]
    ensures InstrAt(c, ip, b, at)
    ensures forall i :: 0 <= i < Arms(c, ip) ==> Disp(b, at, i) == Disp(c, ip, i)
  {
    var w := Width(c, ip);
    forall x | at <= x < at + w
      ensures b[x] == c[x - at + ip]
    {
      assert b[x] == b[at..at + w][x - at] == c[ip..ip + w][x - at];
    }
  }

  /** The two bytes at `at` hold v. */
  function Patched(b: seq<Byte>, at: int, v: int): seq<Byte>
    requires 0 <= at && at + 1 < |b|
  {
    b[at := Low(v)][at + 1 := High(v)]
  }

  lemma PatchElsewhere(c: seq<Byte>, ip: int, b: seq<Byte>, p: int, at: int, v: int)
    requires 0 <= ip < |c| && InstrAt(c, ip, b, p) && 0 <= at && at + 1 < |b|
    requires at + 1 < p || p + Width(c, ip) <= at
    ensures InstrAt(c, ip, Patched(b, at, v), p)
    ensures forall i :: 0 <= i < Arms(c, ip) ==> Disp(Patched(b, at, v), p, i) == Disp(b, p, i)
  {
    InstrSame(c, ip, b, p);
    var b' := Patched(b, at, v);
    assert b'[p..p + Width(c, ip)] == b[p..p + Width(c, ip)];
    BytesSame(b, p, b', p);
  }

  /** What two bytes make of v. */
  function Wrapped(v: int): int {
    I16(Low(v), High(v))
  }

  /** Patching one displacement of an instruction sets it, truncated, and leaves the others. */
  lemma PatchHere(c: seq<Byte>, ip: int, b: seq<Byte>, p: int, a: int, v: int)
    requires 0 <= ip < |c| && InstrAt(c, ip, b, p) && 0 <= a < Arms(c, ip)
    ensures p < ArmAt(b, p, a) && ArmAt(b, p, a) + 1 < p + Width(c, ip) <= |b|
    ensures var b' := Patched(b, ArmAt(b, p, a), v);
            InstrAt(c, ip, b', p) && Disp(b', p, a) == Wrapped(v)
            && forall i :: 0 <= i < Arms(c, ip) && i != a ==> Disp(b', p, i) == Disp(b, p, i)
  {
    InstrSame(c, ip, b, p);
  }

  /** The first survivor from k on, or the end. */
  ghost function NextKept(c: seq<Byte>, s: seq<int>, dead: set<int>, k: int): (m: int)
    requires Layout(c, s) && 0 <= k <= |s| - 1
    ensures k <= m <= |s| - 1 && (m < |s| - 1 ==> Kept(c, s, dead, m)) && forall j ::
      k <= j < m ==> !Kept(c, s, dead, j)
    ensures Pos(c, s, dead, m) == Pos(c, s, dead, k)
    decreases |s| - k
  {
    if k == |s| - 1 || Kept(c, s, dead, k) then k else NextKept(c, s, dead, k + 1)
  }

  /** Where the relinker believes survivor k used to start: its read cursor begins at 0 even when the first
      instruction was deleted, and is right from the second survivor on. */
  ghost function From(c: seq<Byte>, s: seq<int>, dead: set<int>, k: int): int
    requires Layout(c, s) && 0 <= k <= |s| - 1
  {
    if k == NextKept(c, s, dead, 0) then 0 else s[k]
  }

  /** The target the relinker computes for arm i of survivor k. */
  ghost function Seen(c: seq<Byte>, s: seq<int>, dead: set<int>, k: int, i: int): int
    requires Layout(c, s) && 0 <= k < |s| - 1
  {
    From(c, s, dead, k) + (s[k + 1] - s[k]) + Disp(c, s[k], i)
  }

  /** The displacement the relinker gives arm i of survivor k. */
  ghost function NewDisp(c: seq<Byte>, s: seq<int>, dead: set<int>, offs: seq<int>, size: int, k: int, i: int): int
    requires Layout(c, s) && 0 <= k < |s| - 1
  {
    Relocate(offs, Seen(c, s, dead, k, i), size) - Pos(c, s, dead, k) - (s[k + 1] - s[k])
  }

  /** A displacement never grows when code is deleted, so it still fits its two bytes. */
  lemma DispShrinks(c: seq<Byte>, s: seq<int>, dead: set<int>, k: int, i: int, m: int)
    requires Layout(c, s) && Kept(c, s, dead, k) && 0 <= i < Arms(c, s[k])
    requires 0 <= m < |s| && Target(c, s[k], i) == s[m]
    ensures var d, d' := Disp(c, s[k], i), Pos(c, s, dead, m) - Pos(c, s, dead, k) - (s[k + 1] - s[k]);
            && (if d >= 0 then 0 <= d' <= d else d <= d' <= 0)
            && -0x8000 <= d' < 0x8000 && Wrapped(d') == d'
  {
    hide Pos, Wrapped, Width, Layout;
    LayoutNext(c, s, k);
    DispFits(c, s[k], i);
    PosBounds(c, s, dead, k);
    Ordered(c, s, m, k + 1);
    if m >= k + 1 {
      PosMonotone(c, s, dead, k + 1, m);
    } else {
      PosMonotone(c, s, dead, m, k + 1);
    }
    Wraps(Pos(c, s, dead, m) - Pos(c, s, dead, k) - (s[k + 1] - s[k]));
  }

  lemma DispFits(c: seq<Byte>, ip: int, i: int)
    requires 0 <= ip < |c|
    ensures -0x8000 <= Disp(c, ip, i) < 0x8000
  {
  }

  lemma Wraps(v: int)
    requires -0x8000 <= v < 0x8000
    ensures Wrapped(v) == v
  {
    I16Reads(v);
  }

  lemma Ordered(c: seq<Byte>, s: seq<int>, m: int, k: int)
    requires Layout(c, s) && 0 <= m < |s| && 0 <= k < |s|
    ensures m >= k <==> s[m] >= s[k]
  {
  }

  /** Instruction j stands compacted in b, with its first n displacements relinked. */
  ghost predicate ArmsDone(c: seq<Byte>, s: seq<int>, dead: set<int>, offs: seq<int>, size: int, b: seq<Byte>, j: int,
                           n: int)
    requires Layout(c, s) && 0 <= j < |s| - 1
  {
    && InstrAt(c, s[j], b, Pos(c, s, dead, j))
    && forall i :: 0 <= i < Arms(c, s[j]) ==>
         Disp(b, Pos(c, s, dead, j), i) == if i < n then Wrapped(NewDisp(c, s, dead, offs, size, j, i))
             else Disp(c, s[j], i)
  }

  function Progress(arms: int, j: int, k: int, a: int): int {
    if j < k then arms else if j == k then a else 0
  }

  /** Every survivor stands in b; those before k are relinked, and so are the first a arms of k. */
  ghost predicate Relinked(c: seq<Byte>, s: seq<int>, dead: set<int>, offs: seq<int>, size: int, b: seq<Byte>, k: int,
                           a: int)
    requires Layout(c, s)
  {
    forall j :: Kept(c, s, dead, j) ==> ArmsDone(c, s, dead, offs, size, b, j, Progress(Arms(c, s[j]), j, k, a))
  }

  lemma RelinkedStart(c: seq<Byte>, s: seq<int>, dead: set<int>, offs: seq<int>, size: int, b: seq<Byte>, k: int)
    requires Layout(c, s) && Packed(c, s, dead, b, |s| - 1) && forall j :: Kept(c, s, dead, j) ==> j >= k
    ensures Relinked(c, s, dead, offs, size, b, k, 0)
  {
    forall j | Kept(c, s, dead, j)
      ensures ArmsDone(c, s, dead, offs, size, b, j, 0)
    {
      LayoutNext(c, s, j);
      assert InPlace(c, s, dead, b, j);
      BytesSame(c, s[j], b, Pos(c, s, dead, j));
    }
  }

  /** Relinking one arm of instruction k disturbs nothing else. */
  lemma RelinkArm(c: seq<Byte>, s: seq<int>, dead: set<int>, offs: seq<int>, size: int, b: seq<Byte>, k: int, a: int,
                  v: int)
    requires Layout(c, s) && Kept(c, s, dead, k) && Relinked(c, s, dead, offs, size, b, k, a) && 0 <= a < Arms(c, s[k])
    requires v == NewDisp(c, s, dead, offs, size, k, a)
    ensures var at := ArmAt(b, Pos(c, s, dead, k), a);
            && 0 <= Pos(c, s, dead, k) < at && at + 1 < |b|
            && Relinked(c, s, dead, offs, size, Patched(b, at, v), k, a + 1)
  {
    hide ArmsDone, Patched, Pos, Layout;
    InstrsInside(c, s);
    LayoutNext(c, s, k);
    assert ArmsDone(c, s, dead, offs, size, b, k, a);
    RelinkHere(c, s, dead, offs, size, b, k, a, v);
    forall j | Kept(c, s, dead, j)
      ensures ArmsDone(c, s, dead, offs, size, Patched(b, ArmAt(b, Pos(c, s, dead, k), a), v), j,
        Progress(Arms(c, s[j]), j, k, a + 1))
    {
      assert ArmsDone(c, s, dead, offs, size, b, j, Progress(Arms(c, s[j]), j, k, a));
      if j != k {
        RelinkElsewhere(c, s, dead, offs, size, b, k, a, v, j, Progress(Arms(c, s[j]), j, k, a));
      }
    }
  }

  lemma RelinkHere(c: seq<Byte>, s: seq<int>, dead: set<int>, offs: seq<int>, size: int, b: seq<Byte>, k: int, a: int,
                   v: int)
    requires Layout(c, s) && Kept(c, s, dead, k) && ArmsDone(c, s, dead, offs, size, b, k, a) && 0 <= a < Arms(c, s[k])
    requires v == NewDisp(c, s, dead, offs, size, k, a)
    ensures var p, at := Pos(c, s, dead, k), ArmAt(b, Pos(c, s, dead, k), a);
            && 0 <= p < at && at + 1 < p + Width(c, s[k]) <= |b|
            && ArmsDone(c, s, dead, offs, size, Patched(b, at, v), k, a + 1)
  {
    hide NewDisp, Wrapped, Layout, Patched, Disp, InstrAt, Pos;
    InstrsInside(c, s);
    InstrStands(c, s[k], b, Pos(c, s, dead, k));
    PatchHere(c, s[k], b, Pos(c, s, dead, k), a, v);
  }

  lemma InstrStands(c: seq<Byte>, ip: int, b: seq<Byte>, p: int)
    requires 0 <= ip < |c| && InstrAt(c, ip, b, p)
    ensures 0 <= p < p + Width(c, ip) <= |b|
  {
  }

  lemma RelinkElsewhere(c: seq<Byte>, s: seq<int>, dead: set<int>, offs: seq<int>, size: int, b: seq<Byte>, k: int,
                        a: int, v: int, j: int, n: int)
    requires Layout(c, s) && Kept(c, s, dead, k) && Kept(c, s, dead, j) && j != k
    requires ArmsDone(c, s, dead, offs, size, b, j, n)
    requires 0 <= Pos(c, s, dead, k) < |b| && var at := ArmAt(b, Pos(c, s, dead, k), a);
             Pos(c, s, dead, k) < at && at + 1 < Pos(c, s, dead, k) + Width(c, s[k]) <= |b|
    ensures ArmsDone(c, s, dead, offs, size, Patched(b, ArmAt(b, Pos(c, s, dead, k), a), v), j, n)
  {
    hide NewDisp, Wrapped, Patched, Disp, InstrAt, Pos;
    LayoutNext(c, s, k);
    LayoutNext(c, s, j);
    PosBounds(c, s, dead, k);
    PosBounds(c, s, dead, j);
    if j < k { PosMonotone(c, s, dead, j + 1, k); } else { PosMonotone(c, s, dead, k + 1, j); }
    InstrStands(c, s[j], b, Pos(c, s, dead, j));
    PatchElsewhere(c, s[j], b, Pos(c, s, dead, j), ArmAt(b, Pos(c, s, dead, k), a), v);
  }

  /** With all arms of k relinked, or none to relink, the next survivor is next. */
  lemma RelinkedNext(c: seq<Byte>, s: seq<int>, dead: set<int>, offs: seq<int>, size: int, b: seq<Byte>, k: int, m: int)
    requires Layout(c, s) && Kept(c, s, dead, k) && k < m && forall j :: k < j < m ==> !Kept(c, s, dead, j)
    requires Relinked(c, s, dead, offs, size, b, k, Arms(c, s[k]))
    ensures Relinked(c, s, dead, offs, size, b, m, 0)
  {
    hide ArmsDone, Layout;
    InstrsInside(c, s);
    forall j | Kept(c, s, dead, j)
      ensures ArmsDone(c, s, dead, offs, size, b, j, Progress(Arms(c, s[j]), j, m, 0))
    {
      assert ArmsDone(c, s, dead, offs, size, b, j, Progress(Arms(c, s[j]), j, k, Arms(c, s[k])));
      assert j == k || j < k || j >= m;
    }
  }
}
