/** Strength reduction: integer operations with a constant right operand are dropped or become shifts, in place. */
module Algebra {
  import opened Bytecode
  import opened Integers
  import opened IntCode
  import opened Compaction
  import opened Edits
  import opened EditRuns
  import opened InPlace
  import Blocks
  import Codec

  /** What becomes of a constant and the operation after it. */
  datatype Change = Drop | Shift(n: nat, op: Byte)

  const I32_SHL: Byte := 42
  const I32_SHR_U: Byte := 44
  const I64_SHL: Byte := 81
  const I64_SHR_U: Byte := 83

  /** The operations with constant c of width w that reduce. */
  function Reduction(w: Precision, c: int, op: Byte): Option<Change> {
    match BinOf(op)
    case None => None
    case Some(b) =>
      if b.0 != w then None
      else if b.1 in {Add, Sub, Or, Xor, Integers.Shl, ShrS, ShrU} then (if c == 0 then Some(Drop) else None)
      else if b.1 == And then (if c == -1 then Some(Drop) else None)
      else if b.1 == Mul then
        if c == 1 then Some(Drop)
        else match Log2(Wrap(w, c)) case Some(n) => Some(Shift(n, if w == W32 then I32_SHL
            else I64_SHL)) case None => None
      else if b.1 == DivS || b.1 == DivU then
        if c == 1 then Some(Drop)
        else match Log2(Wrap(w, c))
             case Some(n) => if b.1 == DivU then Some(Shift(n, if w == W32 then I32_SHR_U else I64_SHR_U)) else None
             case None => None
      else None
  }

  /** A reduction computes what the operation does. */
  lemma ReductionSound(w: Precision, c: int, op: Byte, x: int)
    requires IsSigned(w, c) && IsSigned(w, x) && Reduction(w, c, op).Some?
    ensures BinOf(op).Some? && BinOf(op).value.0 == w
    ensures match Reduction(w, c, op).value
            case Drop => Apply(w, BinOf(op).value.1, x, c) == Num(x)
            case Shift(n, op') =>
              && Apply(w, BinOf(op).value.1, x, c).Num? && BinOf(op').Some? && BinOf(op').value.0 == w
              && n < Bits(w) && IsSigned(w, n)
              && Apply(w, BinOf(op).value.1, x, c) == Apply(w, BinOf(op').value.1, x, n)
  {
    hide Apply, Log2, Signed, Wrap;
    WrapRange(w, c);
    match Reduction(w, c, op).value
    case Drop =>
      NeutralKeeps(w, BinOf(op).value.1, x, c);
    case Shift(n, _) =>
      Log2Is(Wrap(w, c));
      PowBelow(w, n);
      ShiftsGive(w, x, n);
      if BinOf(op).value.1 == Mul {
        MulShifts(w, x, c, n);
      } else {
        DivShifts(w, x, c, n);
      }
  }

  /** What reduces: an operation with its neutral constant on the right, and multiplication and unsigned division by a
      power of two above one. */
  lemma ReductionIff(w: Precision, c: int, op: Byte)
    requires IsSigned(w, c)
    ensures Reduction(w, c, op).Some? <==>
              && BinOf(op).Some? && BinOf(op).value.0 == w
              && (Neutral(w, BinOf(op).value.1, c)
                  || (BinOf(op).value.1 in {Mul, DivU} && exists n: nat :: n > 0 && Wrap(w, c) == Pow2(n)))
    ensures Reduction(w, c, op).Some? ==>
              (Reduction(w, c, op).value == Drop <==> Neutral(w, BinOf(op).value.1, c))
  {
    hide Log2, Wrap, Pow2, BinOf;
    WrapRange(w, c);
    Log2Is(Wrap(w, c));
    if BinOf(op).Some? && Neutral(w, BinOf(op).value.1, c) && BinOf(op).value.1 in {Mul, DivU} {
      OneWraps(w);
    }
  }

  lemma OneWraps(w: Precision)
    ensures Wrap(w, 1) == 1
  {
  }

  lemma ShiftsGive(w: Precision, x: int, n: int)
    ensures Apply(w, Integers.Shl, x, n).Num? && Apply(w, ShrU, x, n).Num?
  {
    hide Signed, Pow2;
  }

  lemma WrapRange(w: Precision, c: int)
    ensures 0 <= Wrap(w, c) < Size(w) <= Size(W64)
  {
  }

  lemma PowBelow(w: Precision, n: nat)
    requires Pow2(n) < Size(w)
    ensures n < Bits(w) && IsSigned(w, n)
  {
    hide Pow2;
    PowWidth(w);
    if n >= Bits(w) {
      if n > Bits(w) {
        PowGrows(Bits(w), n);
      }
    }
  }

  /** The bytes that replace the window. */
  function Text(w: Precision, ch: Change): seq<Byte> {
    match ch
    case Drop => seq(if w == W32 then 6 else 10, _ => NOP)
    case Shift(n, op) => NumConst(w, n) + [op]
  }

  /** Instructions k and k + 1 are a constant and an operation that reduces. */
  ghost predicate WindowAt(code: seq<Byte>, s: seq<int>, k: int, w: Precision, c: int, ch: Change) {
    && 0 <= k < |s| - 2 && 0 <= s[k] < |code| && 0 <= s[k + 1] < |code|
    && ConstOf(Core(code, s[k])) == Some((w, c)) && Reduction(w, c, code[s[k + 1]]) == Some(ch)
  }

  ghost predicate ReducesAt(code: seq<Byte>, s: seq<int>, e: Edit, k: int, w: Precision, c: int, ch: Change) {
    WindowAt(code, s, k, w, c, ch) && e.start == s[k] && e.end == s[k + 2] && e.bytes == Text(w, ch)
  }

  /** The edit reduces a window. */
  ghost predicate Reduces(code: seq<Byte>, s: seq<int>, e: Edit) {
    exists k, w, c, ch :: ReducesAt(code, s, e, k, w, c, ch)
  }

  /** The change for the window at ip, if it is one. */
  function ChangeAt(code: seq<Byte>, ip: int): Option<(Precision, Change)>
    requires 0 <= ip < |code| && ip + Width(code, ip) < |code|
  {
    match ConstOf(Core(code, ip))
    case None => None
    case Some(v) =>
      match Reduction(v.0, v.1, code[ip + Width(code, ip)])
      case None => None
      case Some(ch) => Some((v.0, ch))
  }

  lemma TextSize(code: seq<Byte>, ip: int)
    requires 0 <= ip < |code| && ip + Width(code, ip) < |code| && ChangeAt(code, ip).Some?
    ensures var r := ChangeAt(code, ip).value;
            |Text(r.0, r.1)| == Width(code, ip) + 1 && Width(code, ip + Width(code, ip)) == 1
  {
    hide Signed, Wrap, Log2;
    OneByteOp(code, ip + Width(code, ip));
    ConstSize(code, ip);
  }

  lemma ConstSize(code: seq<Byte>, ip: int)
    requires 0 <= ip < |code|
    ensures ConstOf(Core(code, ip)).Some? ==> Width(code, ip) == if ConstOf(Core(code, ip)).value.0 == W32 then 5 else 9
  {
    hide Signed;
  }

  lemma OneByteOp(code: seq<Byte>, ip: int)
    requires 0 <= ip < |code|
    ensures BinOf(code[ip]).Some? ==>
      Width(code, ip) == 1 && Core(code, ip) == [code[ip]] && ConstOf(Core(code, ip)).None? && !IsBranch(code[ip])
  {
  }

  lemma ConstIsPlain(code: seq<Byte>, ip: int)
    requires 0 <= ip < |code| && ConstOf(Core(code, ip)).Some?
    ensures !IsBranch(code[ip])
  {
    hide Signed;
    CoreHead(code, ip);
  }

  /** Rewrites the window at ip when it reduces. */
  method Simplify(code: array<Byte>, ip: int) returns (done: bool)
    requires 0 <= ip < code.Length && ip + Width(code[..], ip) < code.Length
    modifies code
    ensures done <==> ChangeAt(old(code[..]), ip).Some?
    ensures !done ==> code[..] == old(code[..])
    ensures done ==>
              var text := Text(ChangeAt(old(code[..]), ip).value.0, ChangeAt(old(code[..]), ip).value.1);
              && ip + |text| <= code.Length && code[ip..ip + |text|] == text
              && forall x :: 0 <= x < code.Length && !(ip <= x < ip + |text|) ==> code[x] == old(code[x])
  {
    hide Core, Reduction, Text, ConstOf;
    var r := ChangeAt(code[..], ip);
    if r.None? {
      return false;
    }
    TextSize(code[..], ip);
    var text := Text(r.value.0, r.value.1);
    forall i | 0 <= i < |text| {
      code[ip + i] := text[i];
    }
    done := true;
  }

  ghost predicate Taken(es: seq<Edit>, x: int) {
    exists i :: 0 <= i < |es| && es[i].start == x
  }

  ghost predicate InOneBlock(blocks: seq<Blocks.Block>, x: int, y: int) {
    exists j :: 0 <= j < |blocks| && blocks[j].start <= x && y <= blocks[j].end
  }

  /** Every window before ip that lies in one block is taken. */
  ghost predicate TakenTo(code: seq<Byte>, s: seq<int>, blocks: seq<Blocks.Block>, es: seq<Edit>, ip: int) {
    forall k, w, c, ch ::
        WindowAt(code, s, k, w, c, ch) && s[k] < ip && InOneBlock(blocks, s[k], s[k + 2]) ==> Taken(es, s[k])
  }

  /** The edits made so far are reductions before ip, written over code. */
  ghost predicate Reducing(code: seq<Byte>, s: seq<int>, blocks: seq<Blocks.Block>, es: seq<Edit>, b: seq<Byte>,
                           ip: int) {
    && Overwritten(code, es, b) && Apart(es, |code|) && SameLength(es) && AllInBlocks(code, s, blocks, es)
    && (forall i :: 0 <= i < |es| ==> Reduces(code, s, es[i]) && es[i].end <= ip)
    && TakenTo(code, s, blocks, es, ip)
  }

  /** What the pass leaves. */
  ghost predicate Reduced(code: seq<Byte>, s: seq<int>, blocks: seq<Blocks.Block>, es: seq<Edit>, b: seq<Byte>) {
    Reducing(code, s, blocks, es, b, |code|)
  }

  lemma NothingReduced(code: seq<Byte>, s: seq<int>, blocks: seq<Blocks.Block>)
    requires Layout(code, s)
    ensures Reducing(code, s, blocks, [], code, 0)
  {
  }

  /** Instruction k begins no window that reduces within its block. */
  lemma ReducingSkips(code: seq<Byte>, s: seq<int>, blocks: seq<Blocks.Block>, es: seq<Edit>, b: seq<Byte>, k: int)
    requires Layout(code, s) && 0 <= k < |s| - 1 && Reducing(code, s, blocks, es, b, s[k])
    requires forall w, c, ch :: WindowAt(code, s, k, w, c, ch) ==> !InOneBlock(blocks, s[k], s[k + 2])
    ensures Reducing(code, s, blocks, es, b, s[k + 1])
  {
    hide InOneBlock, Reduces, Reduction, ConstOf, Core, Overwritten, Apart, SameLength, AllInBlocks;
    SortedStarts(code, s);
    forall m, w, c, ch | WindowAt(code, s, m, w, c, ch) && s[m] < s[k + 1] && InOneBlock(blocks, s[m], s[m + 2])
      ensures Taken(es, s[m])
    {
      WindowInside(code, s, m, w, c, ch);
      Ordered(code, s, m, k);
      Ordered(code, s, k + 1, m);
      assert m == k ==> WindowAt(code, s, k, w, c, ch);
    }
  }

  lemma WindowInside(code: seq<Byte>, s: seq<int>, k: int, w: Precision, c: int, ch: Change)
    requires WindowAt(code, s, k, w, c, ch)
    ensures 0 <= k < |s| - 2
  {
  }

  /** An operation begins no window, so windows do not overlap. */
  lemma NoWindowHere(code: seq<Byte>, s: seq<int>, k: int)
    requires 0 <= k < |s| && 0 <= s[k] < |code| && BinOf(code[s[k]]).Some?
    ensures forall w, c, ch :: !WindowAt(code, s, k, w, c, ch)
  {
    OneByteOp(code, s[k]);
  }

  /** The window at instruction k, written over. */
  lemma ReducingTakes(code: seq<Byte>, s: seq<int>, blocks: seq<Blocks.Block>, es: seq<Edit>, b: seq<Byte>,
                      b': seq<Byte>, j: int, k: int, w: Precision, c: int, ch: Change)
    requires Layout(code, s) && 0 <= k < |s| - 2 && Reducing(code, s, blocks, es, b, s[k])
    requires WindowAt(code, s, k, w, c, ch)
    requires s[k + 2] - s[k] == |Text(w, ch)| && 0 <= j < |blocks| && blocks[j].start <= s[k]
    requires s[k + 2] <= blocks[j].end
    requires |b'| == |b| == |code| && s[k + 2] <= |code| && 0 <= s[k] && b'[s[k]..s[k + 2]] == Text(w, ch)
    requires forall x :: 0 <= x < |b| && !(s[k] <= x < s[k + 2]) ==> b'[x] == b[x]
    ensures Reducing(code, s, blocks, es + [Edit(s[k], s[k + 2], Text(w, ch))], b', s[k + 2])
  {
    hide InOneBlock, Text, Reduction, ConstOf, Core, Width, TakenTo, Overwritten, InBlocks, Layout, Reduces, WindowAt;
    var e := Edit(s[k], s[k + 2], Text(w, ch));
    SortedStarts(code, s);
    TakesOn(code, s, blocks, es, e, k, w, c, ch);
    WindowPlain(code, s, k, w, c, ch);
    WindowIsIn(code, s, blocks, e, j, k);
    ReducesHere(code, s, e, k, w, c, ch);
    WrittenMore(code, es, b, b', e);
  }

  lemma ReducesHere(code: seq<Byte>, s: seq<int>, e: Edit, k: int, w: Precision, c: int, ch: Change)
    requires ReducesAt(code, s, e, k, w, c, ch)
    ensures Reduces(code, s, e)
  {
  }

  lemma TakesOn(code: seq<Byte>, s: seq<int>, blocks: seq<Blocks.Block>, es: seq<Edit>, e: Edit, k: int, w: Precision,
                c: int, ch: Change)
    requires Layout(code, s) && 0 <= k < |s| - 2 && TakenTo(code, s, blocks, es, s[k]) && WindowAt(code, s, k, w, c, ch)
    requires e.start == s[k]
    ensures TakenTo(code, s, blocks, es + [e], s[k + 2])
  {
    hide InOneBlock, Reduction, ConstOf, Core;
    SortedStarts(code, s);
    WindowPlain(code, s, k, w, c, ch);
    NoWindowHere(code, s, k + 1);
    var es' := es + [e];
    assert es'[|es|] == e;
    forall m, w', c', ch' | WindowAt(code, s, m, w', c', ch') && s[m] < s[k + 2] && InOneBlock(blocks, s[m], s[m + 2])
      ensures Taken(es', s[m])
    {
      Ordered(code, s, m, k);
      Ordered(code, s, k + 2, m);
      if m < k {
        var i :| 0 <= i < |es| && es[i].start == s[m];
        assert es'[i].start == s[m];
      } else {
        assert m == k;
      }
    }
  }

  lemma WindowPlain(code: seq<Byte>, s: seq<int>, k: int, w: Precision, c: int, ch: Change)
    requires WindowAt(code, s, k, w, c, ch)
    ensures 0 <= s[k] < |code| && 0 <= s[k + 1] < |code| && !IsBranch(code[s[k]]) && !IsBranch(code[s[k + 1]])
    ensures BinOf(code[s[k + 1]]).Some?
  {
    ConstIsPlain(code, s[k]);
    OneByteOp(code, s[k + 1]);
  }

  lemma WindowIsIn(code: seq<Byte>, s: seq<int>, blocks: seq<Blocks.Block>, e: Edit, j: int, k: int)
    requires Layout(code, s) && 0 <= k < |s| - 2 && e.start == s[k] && e.end == s[k + 2]
    requires 0 <= s[k] < |code| && 0 <= s[k + 1] < |code| && !IsBranch(code[s[k]]) && !IsBranch(code[s[k + 1]])
    requires 0 <= j < |blocks| && blocks[j].start <= s[k] && s[k + 2] <= blocks[j].end
    ensures InBlocks(code, s, blocks, e)
  {
    SortedStarts(code, s);
    forall m | 0 <= m < |s| - 1 && e.start <= s[m] < e.end
      ensures m == k || m == k + 1
    {
      Ordered(code, s, k, m);
      Ordered(code, s, m, k);
      Ordered(code, s, k + 2, m);
    }
  }

  lemma WrittenMore(code: seq<Byte>, es: seq<Edit>, b: seq<Byte>, b': seq<Byte>, e: Edit)
    requires Overwritten(code, es, b) && 0 <= e.start <= e.end <= |code| && |b'| == |b| && b'[e.start..e.end] == e.bytes
    requires forall i :: 0 <= i < |es| ==> es[i].end <= e.start
    requires forall x :: 0 <= x < |b| && !(e.start <= x < e.end) ==> b'[x] == b[x]
    ensures Overwritten(code, es + [e], b')
  {
    var es' := es + [e];
    forall x | 0 <= x < |code| && !Inside(es', |es'|, x)
      ensures b'[x] == code[x]
    {
      assert es'[|es|] == e;
      forall i | 0 <= i < |es|
        ensures !(es[i].start <= x < es[i].end)
      {
        assert es'[i] == es[i];
      }
      assert !Inside(es, |es|, x);
    }
    forall i | 0 <= i < |es'|
      ensures WrittenAt(es'[i], b')
    {
      if i < |es| {
        assert WrittenAt(es[i], b);
        assert b'[es[i].start..es[i].end] == b[es[i].start..es[i].end];
      }
    }
  }

  /** Reduces every window that lies in one block, in place. */
  method Reduce(code: array<Byte>, hs: seq<Handler>, blocks: seq<Blocks.Block>, ghost s: seq<int>)
                returns (ghost es: seq<Edit>)
    requires Layout(code[..], s) && Blocks.Targeted(code[..], hs, s) && Blocks.IsCfg(code[..], hs, s, blocks)
    modifies code
    ensures Reduced(old(code[..]), s, blocks, es, code[..])
  {
    hide Layout, Blocks.Targeted, Blocks.IsCfg, Reducing, Core, Reduction, Text, ConstOf, Width, WindowAt, InOneBlock;
    ghost var c := code[..];
    es := [];
    BlocksTile(c, hs, s, blocks);
    NothingReduced(c, s, blocks);
    SortedStarts(c, s);
    for j := 0 to |blocks|
      invariant Reducing(c, s, blocks, es, code[..], if j < |blocks| then blocks[j].start else |c|)
    {
      var ip := blocks[j].start;
      ghost var k :| 0 <= k < |s| && s[k] == ip;
      while ip < blocks[j].end
        invariant 0 <= k < |s| && ip == s[k] && blocks[j].start <= ip <= blocks[j].end
        invariant Reducing(c, s, blocks, es, code[..], ip)
        decreases blocks[j].end - ip
      {
        ghost var b := code[..];
        StillThere(c, s, blocks, es, b, j, k);
        var w0 := Width(code[..], ip);
        if ip + w0 >= blocks[j].end {
          LastInBlock(c, s, blocks, j, k);
          ReducingSkips(c, s, blocks, es, b, k);
          ip := ip + w0;
          k := k + 1;
          continue;
        }
        StillThere(c, s, blocks, es, b, j, k + 1);
        var w1 := Width(code[..], ip + w0);
        var done := Simplify(code, ip);
        WindowIff(c, s, b, k);
        if done {
          ghost var r := ChangeAt(b, ip).value;
          ghost var v :| WindowAt(c, s, k, r.0, v, r.1);
          TextSize(b, ip);
          ReducingTakes(c, s, blocks, es, b, code[..], j, k, r.0, v, r.1);
          es := es + [Edit(s[k], s[k + 2], Text(r.0, r.1))];
          ip := ip + w0 + w1;
          k := k + 2;
        } else {
          ReducingSkips(c, s, blocks, es, b, k);
          ip := ip + w0;
          k := k + 1;
        }
      }
    }
  }

  /** From the scan's place on, the code is the original's. */
  lemma StillThere(code: seq<Byte>, s: seq<int>, blocks: seq<Blocks.Block>, es: seq<Edit>, b: seq<Byte>, j: int, k: int)
    requires Layout(code, s) && Tiles(code, s, blocks) && 0 <= j < |blocks| && 0 <= k < |s| && s[k] < blocks[j].end
    requires exists ip :: ip <= s[k] && Reducing(code, s, blocks, es, b, ip)
    ensures |b| == |code| && k < |s| - 1 && 0 <= s[k] < s[k + 1] <= blocks[j].end <= |code|
    ensures Width(b, s[k]) == s[k + 1] - s[k] && b[s[k]] == code[s[k]] && Core(b, s[k]) == Core(code, s[k])
  {
    hide Reduces, TakenTo, AllInBlocks, Apart, SameLength;
    var ip :| ip <= s[k] && Reducing(code, s, blocks, es, b, ip);
    SortedStarts(code, s);
    LayoutNext(code, s, k);
    Blocks.Ends(code, s, k, blocks[j].end);
    forall x | s[k] <= x < |code|
      ensures b[x] == code[x]
    {
      assert !Inside(es, |es|, x);
    }
    SameHere(code, b, s[k]);
  }

  lemma SameHere(a: seq<Byte>, b: seq<Byte>, ip: int)
    requires |a| == |b| && 0 <= ip < |a| && forall x :: ip <= x < |a| ==> a[x] == b[x]
    ensures Width(a, ip) == Width(b, ip) && Core(a, ip) == Core(b, ip)
  {
    assert ip + Width(a, ip) <= |a| ==> a[ip..ip + Width(a, ip)] == b[ip..ip + Width(a, ip)];
  }

  /** The last instruction of a block begins no window within it. */
  lemma LastInBlock(code: seq<Byte>, s: seq<int>, blocks: seq<Blocks.Block>, j: int, k: int)
    requires Layout(code, s) && Tiles(code, s, blocks) && 0 <= j < |blocks| && 0 <= k < |s| - 1
    requires blocks[j].start <= s[k] < blocks[j].end <= s[k + 1]
    ensures forall w, c, ch :: WindowAt(code, s, k, w, c, ch) ==> !InOneBlock(blocks, s[k], s[k + 2])
  {
    hide Reduction, ConstOf, Core, Tiles;
    SortedStarts(code, s);
    forall i | 0 <= i < |blocks| && blocks[i].start <= s[k] && k + 2 < |s|
      ensures s[k + 2] > blocks[i].end
    {
      if i < j {
        TilesOrder(code, s, blocks, i, j);
      } else if j < i {
        TilesOrder(code, s, blocks, j, i);
      }
    }
  }

  /** Whether there is a window at instruction k. */
  lemma WindowIff(code: seq<Byte>, s: seq<int>, b: seq<Byte>, k: int)
    requires Layout(code, s) && 0 <= k < |s| - 1 && 0 <= s[k] < s[k + 1] < |code| == |b|
    requires Width(b, s[k]) == s[k + 1] - s[k]
    requires Core(b, s[k]) == Core(code, s[k]) && b[s[k + 1]] == code[s[k + 1]]
    ensures k < |s| - 2 && s[k] + Width(b, s[k]) < |b|
    ensures ChangeAt(b, s[k]).None? ==> forall w, c, ch :: !WindowAt(code, s, k, w, c, ch)
    ensures ChangeAt(b, s[k]).Some? ==> exists c ::
      WindowAt(code, s, k, ChangeAt(b, s[k]).value.0, c, ChangeAt(b, s[k]).value.1)
  {
    hide Reduction, ConstOf, Core;
    if ChangeAt(b, s[k]).Some? {
      var c := ConstOf(Core(code, s[k])).value.1;
      assert WindowAt(code, s, k, ChangeAt(b, s[k]).value.0, c, ChangeAt(b, s[k]).value.1);
    }
  }
}
