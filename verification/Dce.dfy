/** Dead-code elimination: unreached blocks, no-ops and `unreachable` are compacted out of a body in place. */
module Dce {
  import opened Bytecode
  import opened Blocks
  import opened Compaction

  /** Nothing flows into the block and nothing catches there. The entry block is never dead. */
  ghost predicate DeadBlock(blocks: seq<Block>, hs: seq<Handler>, j: int) {
    0 < j < |blocks| && blocks[j].preds == {} && !Catches(hs, blocks[j].start)
  }

  lemma SomeMember(xs: set<int>)
    ensures xs == {} <==> forall x :: x !in xs
  {
    if forall x :: x !in xs {
      assert xs == {};
    }
  }

  /** A block is deleted exactly when it is not the first, no edge leads to it and no handler lands on it. */
  lemma DeadIff(code: seq<Byte>, hs: seq<Handler>, s: seq<int>, blocks: seq<Block>, j: int)
    requires Layout(code, s) && IsCfg(code, hs, s, blocks)
    ensures DeadBlock(blocks, hs, j) <==>
              && 0 < j < |blocks| && (forall i :: 0 <= i < |blocks| ==> j !in blocks[i].succs)
              && forall h :: h in hs ==> h.catch != blocks[j].start
  {
    hide Flows, StartsOk, Layout;
    var starts :| CfgBy(code, hs, s, blocks, starts);
    if 0 < j < |blocks| {
      var ps := blocks[j].preds;
      SomeMember(ps);
      if i :| i in ps {
        assert HasEdge(code, starts, |starts|, {}, i, j);
        assert j in blocks[i].succs;
      } else {
        forall i | 0 <= i < |blocks|
          ensures j !in blocks[i].succs
        {
          assert j in blocks[i].succs <==> HasEdge(code, starts, |starts|, {}, i, j);
        }
      }
    }
  }

  ghost predicate DeadAt(blocks: seq<Block>, hs: seq<Handler>, n: int, x: int) {
    exists j :: j < n && DeadBlock(blocks, hs, j) && InBlock(blocks, j, x)
  }

  ghost function DeadBytes(code: seq<Byte>, blocks: seq<Block>, hs: seq<Handler>): set<int> {
    set x | 0 <= x < |code| && DeadAt(blocks, hs, |blocks|, x)
  }

  /** The bytes of dead blocks read as `unreachable`. */
  ghost predicate Stamped(c: seq<Byte>, dead: set<int>, b: seq<Byte>) {
    |b| == |c| && forall x :: 0 <= x < |c| ==> b[x] == if x in dead then UNREACHABLE else c[x]
  }

  method CatchesAt(hs: seq<Handler>, ip: int) returns (found: bool)
    ensures found <==> Catches(hs, ip)
  {
    for i := 0 to |hs|
      invariant forall j :: 0 <= j < i ==> hs[j].catch != ip
    {
      if hs[i].catch == ip {
        return true;
      }
    }
    found := false;
  }

  method Stamp(b: array<Byte>, blocks: seq<Block>, hs: seq<Handler>)
    requires forall j :: 0 <= j < |blocks| ==> 0 <= blocks[j].start <= blocks[j].end <= b.Length
    modifies b
    ensures forall x :: 0 <= x < b.Length ==> b[x] == if DeadAt(blocks, hs, |blocks|, x) then UNREACHABLE else old(b[x])
  {
    for i := 1 to Max(|blocks|, 1)
      invariant forall x :: 0 <= x < b.Length ==> b[x] == if DeadAt(blocks, hs, i, x) then UNREACHABLE else old(b[x])
    {
      var blk := blocks[i];
      var caught := CatchesAt(hs, blk.start);
      if |blk.preds| == 0 && !caught {
        for j := blk.start to blk.end
          invariant forall x :: 0 <= x < b.Length ==>
                      b[x] == if DeadAt(blocks, hs, i, x) || blk.start <= x < j then UNREACHABLE else old(b[x])
        {
          b[j] := UNREACHABLE;
        }
      }
      DeadNext(blocks, hs, i);
    }
  }

  lemma DeadNext(blocks: seq<Block>, hs: seq<Handler>, i: int)
    requires 0 < i < |blocks|
    ensures forall x ::
      DeadAt(blocks, hs, i + 1, x) <==> DeadAt(blocks, hs, i, x) || (DeadBlock(blocks, hs, i) && InBlock(blocks, i, x))
  {
  }

  /** Moves n bytes from r down to w. */
  method Move(b: array<Byte>, w: int, r: int, n: int)
    requires 0 <= w <= r && 0 <= n && r + n <= b.Length
    modifies b
    ensures b[..] == Copied(old(b[..]), w, r, n)
  {
    forall i | 0 <= i < n {
      b[w + i] := b[r + i];
    }
  }

  /** The scan stands at `read`, an instruction or a byte inside dead instruction k; the survivors before k
      are packed and everything from `read` on is untouched. */
  ghost predicate Scanning(c: seq<Byte>, s: seq<int>, dead: set<int>, offs: seq<int>, b: seq<Byte>, k: int, read: int)
    requires Layout(c, s) && 0 <= k <= |s| - 1
  {
    && |b| == |c|
    && (read == s[k] || (k < |s| - 1 && s[k] in dead && s[k] < read < s[k + 1]))
    && Offsets(c, s, dead, offs, k) && Packed(c, s, dead, b, k)
    && (forall x :: read <= x < |c| ==> b[x] == if x in dead then UNREACHABLE else c[x])
  }

  lemma ScanStart(c: seq<Byte>, s: seq<int>, dead: set<int>, offs: seq<int>, b: seq<Byte>)
    requires Layout(c, s) && Stamped(c, dead, b) && |offs| == |c| && forall x :: 0 <= x < |offs| ==> offs[x] == -1
    ensures Scanning(c, s, dead, offs, b, 0, 0) && Pos(c, s, dead, 0) == 0
  {
  }

  /** What stands at the scan's position. */
  lemma ScanReads(c: seq<Byte>, s: seq<int>, dead: set<int>, offs: seq<int>, b: seq<Byte>, k: int, read: int)
    requires Layout(c, s) && Aligned(s, dead) && 0 <= k <= |s| - 1 && Scanning(c, s, dead, offs, b, k, read)
    requires 0 <= read < |b|
    ensures |b| == |c| && k < |s| - 1
    ensures s[k] in dead ==> b[read] == UNREACHABLE && Width(b, read) == 1
    ensures s[k] !in dead ==>
              && 0 <= read == s[k] < s[k + 1] <= |c| && b[s[k]] == c[s[k]]
              && Width(b, s[k]) == Width(c, s[k]) == s[k + 1] - s[k]
              && b[s[k]..s[k + 1]] == c[s[k]..s[k + 1]]
  {
    hide Offsets, Packed;
    if k < |s| - 1 {
      LayoutNext(c, s, k);
      assert s[k] in dead ==> read in dead;
      if s[k] !in dead {
        assert forall x :: s[k] <= x < s[k + 1] ==> x !in dead;
        assert forall x :: s[k] <= x < s[k + 1] ==> b[x] == c[x];
      }
    }
  }

  lemma ScanDead(c: seq<Byte>, s: seq<int>, dead: set<int>, offs: seq<int>, b: seq<Byte>, k: int, read: int)
    requires Layout(c, s) && Aligned(s, dead) && 0 <= k < |s| - 1 && Scanning(c, s, dead, offs, b, k, read)
    requires s[k] in dead && 0 <= read < |b|
    ensures var k' := if read + 1 == s[k + 1] then k + 1 else k;
            Scanning(c, s, dead, offs, b, k', read + 1) && Pos(c, s, dead, k') == Pos(c, s, dead, k)
  {
    LayoutNext(c, s, k);
    if read + 1 == s[k + 1] {
      OffsetsSkip(c, s, dead, offs, k);
      assert Packed(c, s, dead, b, k + 1);
    }
  }

  lemma ScanSkip(c: seq<Byte>, s: seq<int>, dead: set<int>, offs: seq<int>, b: seq<Byte>, k: int)
    requires Layout(c, s) && 0 <= k < |s| - 1 && Scanning(c, s, dead, offs, b, k, s[k])
    requires !Kept(c, s, dead, k)
    ensures Scanning(c, s, dead, offs, b, k + 1, s[k + 1]) && Pos(c, s, dead, k + 1) == Pos(c, s, dead, k)
  {
    LayoutNext(c, s, k);
    OffsetsSkip(c, s, dead, offs, k);
    assert Packed(c, s, dead, b, k + 1);
  }

  lemma OffsetsSkip(c: seq<Byte>, s: seq<int>, dead: set<int>, offs: seq<int>, k: int)
    requires Layout(c, s) && 0 <= k < |s| - 1 && Offsets(c, s, dead, offs, k) && !Kept(c, s, dead, k)
    ensures Offsets(c, s, dead, offs, k + 1)
  {
    LayoutNext(c, s, k);
  }

  lemma OffsetsKeep(c: seq<Byte>, s: seq<int>, dead: set<int>, offs: seq<int>, k: int)
    requires Layout(c, s) && 0 <= k < |s| - 1 && Offsets(c, s, dead, offs, k) && Kept(c, s, dead, k)
    ensures Offsets(c, s, dead, offs[s[k] := Pos(c, s, dead, k)], k + 1)
  {
    hide Pos, Kept;
    LayoutNext(c, s, k);
  }

  lemma ScanKeep(c: seq<Byte>, s: seq<int>, dead: set<int>, offs: seq<int>, b: seq<Byte>, k: int)
    requires Layout(c, s) && 0 <= k < |s| - 1 && Scanning(c, s, dead, offs, b, k, s[k]) && Kept(c, s, dead, k)
    requires 0 <= s[k] < s[k + 1] <= |b| && b[s[k]..s[k + 1]] == c[s[k]..s[k + 1]]
    ensures 0 <= Pos(c, s, dead, k) <= s[k] && s[k] < |offs|
    ensures var b' := Copied(b, Pos(c, s, dead, k), s[k], s[k + 1] - s[k]);
            Scanning(c, s, dead, offs[s[k] := Pos(c, s, dead, k)], b', k + 1, s[k + 1])
            && (Pos(c, s, dead, k) == s[k] ==> b' == b)
    ensures Pos(c, s, dead, k + 1) == Pos(c, s, dead, k) + (s[k + 1] - s[k])
  {
    hide Layout, Copied, Packed;
    LayoutNext(c, s, k);
    PackNext(c, s, dead, b, k);
    OffsetsKeep(c, s, dead, offs, k);
    var b' := Copied(b, Pos(c, s, dead, k), s[k], s[k + 1] - s[k]);
    forall x | s[k + 1] <= x < |c|
      ensures b'[x] == b[x]
    {
      assert b'[x] == b'[s[k + 1]..][x - s[k + 1]] == b[s[k + 1]..][x - s[k + 1]];
    }
    if Pos(c, s, dead, k) == s[k] {
      CopiedSame(b, s[k], s[k + 1] - s[k]);
    }
  }

  lemma CopiedSame(b: seq<Byte>, r: int, n: int)
    requires 0 <= r && 0 <= n && r + n <= |b|
    ensures Copied(b, r, r, n) == b
  {
  }

  method WidthAt(b: array<Byte>, ip: int) returns (w: int)
    requires 0 <= ip < b.Length
    ensures w == Width(b[..], ip)
  {
    if b[ip] == BR_TABLE {
      w := if ip + 1 < b.Length then 4 + 2 * (b[ip + 1] as int) else 4;
    } else {
      w := 1 + FixedOperands(b[ip]);
    }
  }

  /** Compacts the survivors to the front and records where each went. */
  method Compact(b: array<Byte>, ghost c: seq<Byte>, ghost s: seq<int>, ghost dead: set<int>)
                 returns (offs: seq<int>, write: int)
    requires Layout(c, s) && Aligned(s, dead) && Stamped(c, dead, b[..])
    modifies b
    ensures Offsets(c, s, dead, offs, |s| - 1) && Packed(c, s, dead, b[..], |s| - 1)
    ensures write == Pos(c, s, dead, |s| - 1)
  {
    hide Layout, Aligned, Offsets, Packed, Pos, Copied, Stamped, Scanning, Width;
    offs := seq(b.Length, _ => -1);
    write := 0;
    var read := 0;
    ghost var k := 0;
    StampedSize(c, s, dead, b[..]);
    ScanStart(c, s, dead, offs, b[..]);
    while read < b.Length
      invariant 0 <= k <= |s| - 1 && Scanning(c, s, dead, offs, b[..], k, read) && write == Pos(c, s, dead, k)
      invariant 0 <= read <= b.Length == |offs| == |c|
      decreases b.Length - read
    {
      ghost var b0 := b[..];
      ScanReads(c, s, dead, offs, b0, k, read);
      var width := WidthAt(b, read);
      if s[k] in dead {
        ScanDead(c, s, dead, offs, b0, k, read);
      } else if Kept(c, s, dead, k) {
        ScanKeep(c, s, dead, offs, b0, k);
      } else {
        ScanSkip(c, s, dead, offs, b0, k);
      }
      if b[read] != NOP && b[read] != UNREACHABLE {
        offs := offs[read := write];
        if write != read {
          Move(b, write, read, width);
        }
        write := write + width;
      }
      if s[k] !in dead || read + 1 == s[k + 1] {
        k := k + 1;
      }
      read := read + width;
    }
    ScanEnds(c, s, dead, offs, b[..], k, read);
  }

  lemma StampedSize(c: seq<Byte>, s: seq<int>, dead: set<int>, b: seq<Byte>)
    requires Layout(c, s) && Stamped(c, dead, b)
    ensures |b| == |c| && |s| > 0
  {
  }

  lemma ScanEnds(c: seq<Byte>, s: seq<int>, dead: set<int>, offs: seq<int>, b: seq<Byte>, k: int, read: int)
    requires Layout(c, s) && 0 <= k <= |s| - 1 && Scanning(c, s, dead, offs, b, k, read) && read == |c|
    ensures k == |s| - 1 && Offsets(c, s, dead, offs, k) && Packed(c, s, dead, b, k)
  {
    if k < |s| - 1 {
      LayoutNext(c, s, k);
    }
  }

  /** Where the scan for the survivor that starts at Pos(m) stops. */
  lemma ScanStops(c: seq<Byte>, s: seq<int>, dead: set<int>, offs: seq<int>, m: int, x: int)
    requires Layout(c, s) && Offsets(c, s, dead, offs, |s| - 1) && 0 <= m <= |s| - 1
    requires (m < |s| - 1 ==> Kept(c, s, dead, m))
    requires 0 <= x < |offs| && x <= s[m]
    ensures offs[x] == Pos(c, s, dead, m) <==> x == s[m]
  {
    hide Kept;
    InstrsInside(c, s);
    if x in s {
      var j :| 0 <= j < |s| && s[j] == x;
      Ordered(c, s, m, j);
      if j < m && Kept(c, s, dead, j) {
        PosBounds(c, s, dead, j);
        PosMonotone(c, s, dead, j + 1, m);
      }
      PosBounds(c, s, dead, m);
    } else {
      PosBounds(c, s, dead, m);
    }
  }

  /** A target the relinker accepts: the end of the code only at the top level. */
  predicate Valid(target: int, size: int, top: bool) {
    0 <= target <= size && (target == size ==> top)
  }

  /** Everything the relinker computes for the arms of survivors before n is acceptable. */
  ghost predicate AllValid(c: seq<Byte>, s: seq<int>, dead: set<int>, top: bool, n: int)
    requires Layout(c, s)
  {
    forall k, i :: Kept(c, s, dead, k) && k < n && 0 <= i < Arms(c, s[k]) ==> Valid(Seen(c, s, dead, k, i), |c|, top)
  }

  /** The relinker at survivor k. */
  ghost predicate At(c: seq<Byte>, s: seq<int>, dead: set<int>, k: int, read: int)
    requires Layout(c, s) && 0 <= k <= |s| - 1
  {
    && (k < |s| - 1 ==> Kept(c, s, dead, k))
    && read == From(c, s, dead, k) && NextKept(c, s, dead, 0) <= k
  }

  lemma RelinkBegins(c: seq<Byte>, s: seq<int>, dead: set<int>, offs: seq<int>, b: seq<Byte>, top: bool)
    requires Layout(c, s) && Packed(c, s, dead, b, |s| - 1)
    ensures var k := NextKept(c, s, dead, 0);
            && At(c, s, dead, k, 0) && Pos(c, s, dead, k) == 0 && AllValid(c, s, dead, top, k)
            && Relinked(c, s, dead, offs, Pos(c, s, dead, |s| - 1), b, k, 0)
  {
    RelinkedStart(c, s, dead, offs, Pos(c, s, dead, |s| - 1), b, NextKept(c, s, dead, 0));
  }

  /** What the relinker sees at a survivor. */
  lemma AtSurvivor(c: seq<Byte>, s: seq<int>, dead: set<int>, offs: seq<int>, size: int, b: seq<Byte>, k: int,
                   read: int)
    requires Layout(c, s) && 0 <= k <= |s| - 1 && At(c, s, dead, k, read) && Relinked(c, s, dead, offs, size, b, k, 0)
    requires Pos(c, s, dead, k) < Pos(c, s, dead, |s| - 1)
    ensures k < |s| - 1 && Kept(c, s, dead, k) && 0 <= s[k] < s[k + 1] <= |c| && 0 <= read <= s[k]
    ensures read == From(c, s, dead, k)
    ensures var w := Pos(c, s, dead, k);
            && 0 <= w < |b| && b[w] == c[s[k]] && Arms(b, w) == Arms(c, s[k])
            && Width(b, w) == s[k + 1] - s[k] && Pos(c, s, dead, k + 1) == w + (s[k + 1] - s[k])
  {
    hide Disp, NewDisp, Pos;
    LayoutNext(c, s, k);
    PosBounds(c, s, dead, k);
    assert ArmsDone(c, s, dead, offs, size, b, k, Progress(Arms(c, s[k]), k, k, 0));
    InstrSame(c, s[k], b, Pos(c, s, dead, k));
  }

  lemma AtEnd(c: seq<Byte>, s: seq<int>, dead: set<int>, k: int, read: int)
    requires Layout(c, s) && 0 <= k <= |s| - 1 && At(c, s, dead, k, read)
    requires Pos(c, s, dead, k) >= Pos(c, s, dead, |s| - 1)
    ensures k == |s| - 1
  {
    if k < |s| - 1 {
      LayoutNext(c, s, k);
      PosBounds(c, s, dead, k);
    }
  }

  /** What the relinker reads as arm i of survivor k, and what it writes there. */
  lemma AtArm(c: seq<Byte>, s: seq<int>, dead: set<int>, offs: seq<int>, size: int, b: seq<Byte>, k: int, i: int)
    requires Layout(c, s) && Kept(c, s, dead, k) && Relinked(c, s, dead, offs, size, b, k, i) && 0 <= i < Arms(c, s[k])
    ensures var w, t := Pos(c, s, dead, k), Seen(c, s, dead, k, i);
            && 0 <= w < |b| && Arms(b, w) == Arms(c, s[k])
            && t == From(c, s, dead, k) + Disp(b, w, i) + (s[k + 1] - s[k])
            && w < ArmAt(b, w, i) && ArmAt(b, w, i) + 1 < |b|
            && Relinked(c, s, dead, offs, size,
               Patched(b, ArmAt(b, w, i), Relocate(offs, t, size) - w - (s[k + 1] - s[k])), k, i + 1)
  {
    hide Relocate, Pos, Disp, Patched, From;
    LayoutNext(c, s, k);
    assert ArmsDone(c, s, dead, offs, size, b, k, Progress(Arms(c, s[k]), k, k, i));
    InstrSame(c, s[k], b, Pos(c, s, dead, k));
    RelinkArm(c, s, dead, offs, size, b, k, i, NewDisp(c, s, dead, offs, size, k, i));
  }

  method DispAt(b: array<Byte>, ip: int, i: int) returns (d: int)
    requires 0 <= ip < b.Length && 0 <= ArmAt(b[..], ip, i) && ArmAt(b[..], ip, i) + 1 < b.Length
    ensures d == Disp(b[..], ip, i)
  {
    var at := ip + (if b[ip] == BR_TABLE then 2 + 2 * i else 1);
    d := I16(b[at], b[at + 1]);
  }

  /** Overwrites displacement i, truncating v to its two bytes. */
  method SetDisp(b: array<Byte>, ip: int, i: int, v: int)
    requires 0 <= ip < b.Length && 0 <= ArmAt(b[..], ip, i) && ArmAt(b[..], ip, i) + 1 < b.Length
    modifies b
    ensures b[..] == Patched(old(b[..]), ArmAt(old(b[..]), ip, i), v)
  {
    var at := ip + (if b[ip] == BR_TABLE then 2 + 2 * i else 1);
    b[at] := Low(v);
    b[at + 1] := High(v);
  }

  method RelinkArms(b: array<Byte>, offs: seq<int>, size: int, top: bool, read: int, write: int, width: int,
                    ghost c: seq<Byte>, ghost s: seq<int>, ghost dead: set<int>, ghost k: int) returns (ok: bool)
    requires Layout(c, s) && b.Length == |c| == |offs| && Kept(c, s, dead, k) && read == From(c, s, dead, k)
    requires write == Pos(c, s, dead, k) && width == s[k + 1] - s[k] && Relinked(c, s, dead, offs, size, b[..], k, 0)
    requires 0 <= write < b.Length && Arms(b[..], write) == Arms(c, s[k])
    modifies b
    ensures ok <==> forall i :: 0 <= i < Arms(c, s[k]) ==> Valid(Seen(c, s, dead, k, i), |c|, top)
    ensures ok ==> Relinked(c, s, dead, offs, size, b[..], k, Arms(c, s[k]))
  {
    hide Layout, Pos, Relinked, Relocate, Width, Seen, From, Arms, ArmAt, Disp, Patched;
    InstrsInside(c, s);
    ArmsNat(c, s[k]);
    var n := Arms(b[..], write);
    for i := 0 to n
      invariant b.Length == |c| && Relinked(c, s, dead, offs, size, b[..], k, i)
      invariant forall j :: 0 <= j < i ==> Valid(Seen(c, s, dead, k, j), |c|, top)
    {
      AtArm(c, s, dead, offs, size, b[..], k, i);
      var disp := DispAt(b, write, i);
      var target := read + disp + width;
      if target < 0 || target > |offs| || (target == |offs| && !top) {
        return false;
      }
      SetDisp(b, write, i, Relocate(offs, target, size) - write - width);
    }
    ok := true;
  }

  /** Moves the read cursor to the original position of the survivor at `write`. */
  method Seek(offs: seq<int>, write: int, start: int, ghost c: seq<Byte>, ghost s: seq<int>, ghost dead: set<int>,
              ghost m: int) returns (read: int)
    requires Layout(c, s) && Offsets(c, s, dead, offs, |s| - 1) && |offs| == |c|
    requires 0 <= m <= |s| - 1 && (m < |s| - 1 ==> Kept(c, s, dead, m)) && write == Pos(c, s, dead, m)
    requires 0 <= start <= s[m]
    ensures read == s[m]
  {
    hide Offsets, Pos, Kept, Layout;
    SortedStarts(c, s);
    EndsAt(c, s);
    read := start;
    if read < |offs| { ScanStops(c, s, dead, offs, m, read); }
    while read < |offs| && offs[read] != write
      invariant start <= read <= s[m]
      invariant read < |offs| ==> (offs[read] == write <==> read == s[m])
    {
      read := read + 1;
      if read < |offs| { ScanStops(c, s, dead, offs, m, read); }
    }
  }

  lemma EndsAt(c: seq<Byte>, s: seq<int>)
    requires Layout(c, s)
    ensures |s| > 0 && s[|s| - 1] == |c|
  {
  }

  /** With survivor k done, m is next. */
  lemma NextSurvivor(c: seq<Byte>, s: seq<int>, dead: set<int>, offs: seq<int>, size: int, b: seq<Byte>, k: int, m: int,
                     top: bool)
    requires Layout(c, s) && Kept(c, s, dead, k) && m == NextKept(c, s, dead, k + 1) && NextKept(c, s, dead, 0) <= k
    requires Relinked(c, s, dead, offs, size, b, k, Arms(c, s[k])) && AllValid(c, s, dead, top, k)
    requires forall i :: 0 <= i < Arms(c, s[k]) ==> Valid(Seen(c, s, dead, k, i), |c|, top)
    ensures Relinked(c, s, dead, offs, size, b, m, 0) && At(c, s, dead, m, s[m]) && s[k] <= s[m]
    ensures AllValid(c, s, dead, top, m)
  {
    hide Relinked, Seen, Arms;
    InstrsInside(c, s);
    Ordered(c, s, m, k);
    RelinkedNext(c, s, dead, offs, size, b, k, m);
  }

  /** Rewrites the displacements of every surviving branch. False is an invalid jump. */
  method Relink(b: array<Byte>, offs: seq<int>, size: int, top: bool, ghost c: seq<Byte>, ghost s: seq<int>,
                ghost dead: set<int>)
    returns (ok: bool)
    requires Layout(c, s) && b.Length == |c| == |offs|
    requires Offsets(c, s, dead, offs, |s| - 1) && Packed(c, s, dead, b[..], |s| - 1)
    requires size == Pos(c, s, dead, |s| - 1)
    modifies b
    ensures ok <==> AllValid(c, s, dead, top, |s| - 1)
    ensures ok ==> Relinked(c, s, dead, offs, size, b[..], |s| - 1, 0)
  {
    hide Layout, Offsets, Packed, Pos, Relinked, At, Kept, AllValid, Relocate, Width, Seen, From, Arms, ArmAt;
    var read, write := 0, 0;
    InstrsInside(c, s);
    ghost var k := NextKept(c, s, dead, 0);
    RelinkBegins(c, s, dead, offs, b[..], top);
    while write < size
      invariant 0 <= k <= |s| - 1 && At(c, s, dead, k, read) && write == Pos(c, s, dead, k) && b.Length == |c|
      invariant Relinked(c, s, dead, offs, size, b[..], k, 0)
      invariant AllValid(c, s, dead, top, k) && NextKept(c, s, dead, 0) <= k
      decreases size - write
    {
      AtSurvivor(c, s, dead, offs, size, b[..], k, read);
      var width := WidthAt(b, write);
      ok := RelinkArms(b, offs, size, top, read, write, width, c, s, dead, k);
      if !ok {
        SomeArmInvalid(c, s, dead, k, top);
        return;
      }
      ghost var m := NextKept(c, s, dead, k + 1);
      NextSurvivor(c, s, dead, offs, size, b[..], k, m, top);
      write := write + width;
      read := Seek(offs, write, read, c, s, dead, m);
      k := m;
    }
    AtEnd(c, s, dead, k, read);
    ok := true;
  }

  lemma SomeArmInvalid(c: seq<Byte>, s: seq<int>, dead: set<int>, k: int, top: bool)
    requires Layout(c, s) && Kept(c, s, dead, k)
    ensures (exists i :: 0 <= i < Arms(c, s[k]) && !Valid(Seen(c, s, dead, k, i), |c|, top)) ==>
      !AllValid(c, s, dead, top, |s| - 1)
  {
  }
}
