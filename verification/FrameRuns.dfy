/** What framing does to runs: the spill area is there whenever an instruction of the list runs, and given back whenever
    the code returns, whatever calls and jumps it makes to its own labels. */
module FrameRuns {
  import opened Machine
  import opened AllocFacts
  import opened Rewrites

  /** Where control stands, how much of the stack the code holds, and the calls to its own labels under way. */
  datatype Spot = Spot(pc: int, held: int, calls: seq<int>)

  /** What running e from one end to the other claims of the stack. */
  ghost function Claims(delta: Emitted -> int, e: seq<Emitted>): int {
    if e == [] then 0 else Claims(delta, e[..|e| - 1]) + delta(e[|e| - 1])
  }

  /** The frame claims `size` on entry, gives it back before a return, and claims it again after a call to one of the
      code's own labels, whose code has given it back; nothing else touches it. */
  ghost predicate Frames(delta: Emitted -> int, f: Frame, slots: nat, size: int, out: seq<Emitted>) {
    && Claims(delta, f.enter(slots)) == size && Claims(delta, f.leave(slots)) == -size
    && Claims(delta, f.resume(slots)) == size
    && (forall e :: e in f.enter(slots) || e in f.leave(slots) || e in f.resume(slots) ==> !e.Body?)
    && (forall e :: e in out ==> delta(e) == 0)
    && forall op :: !(f.isReturn(op) && f.isCall(op))
  }

  /** The instruction names one of the code's own labels. */
  ghost predicate Names(labels: map<int, int>, e: Emitted) {
    e.Body? && e.inst.src2.Lbl? && e.inst.src2.target in labels
  }

  /** One step: a return goes back to the call it answers, a call to a label of the code goes there and remembers
      where it came from, any other instruction goes on or, when it names a label, there. */
  ghost predicate Goes(delta: Emitted -> int, f: Frame, final: seq<Emitted>, rebased: map<int, int>, x: Spot, y: Spot) {
    0 <= x.pc < |final| &&
    var e := final[x.pc];
    if e.Body? && f.isReturn(e.inst.op) then
      x.calls != [] && y == Spot(x.calls[|x.calls| - 1], x.held, x.calls[..|x.calls| - 1])
    else if Names(rebased, e) && f.isCall(e.inst.op) then
      y == Spot(rebased[e.inst.src2.target], x.held, x.calls + [x.pc + 1])
    else
      y == Spot(x.pc + 1, x.held + delta(e), x.calls)
      || (Names(rebased, e) && y == Spot(rebased[e.inst.src2.target], x.held, x.calls))
  }

  /** What is held at place k of emitted instruction e's piece. */
  ghost function HeldAt(delta: Emitted -> int, f: Frame, slots: nat, labels: map<int, int>, size: int, e: Emitted,
                        k: int): int
    requires 0 <= k <= |Framed(f, slots, labels, e)|
  {
    var b := Before(f, slots, e);
    if k <= |b| then size + Claims(delta, b[..k])
    else
      (if Names(labels, e) && f.isCall(e.inst.op) then 0 else size + Claims(delta, b)) +
      Claims(delta, After(f, slots, labels, e)[..k - |b| - 1])
  }

  /** x stands in the entry sequence, or in the piece of an emitted instruction, or at the end. */
  ghost predicate Entering(delta: Emitted -> int, f: Frame, slots: nat, x: Spot) {
    0 <= x.pc < |f.enter(slots)| && x.held == Claims(delta, f.enter(slots)[..x.pc])
  }

  ghost predicate InPiece(delta: Emitted -> int, f: Frame, slots: nat, labels: map<int, int>, size: int,
                          out: seq<Emitted>, x: Spot, i: int) {
    && 0 <= i < |out|
    && var k := x.pc - PieceAt(f, slots, labels, out, i);
       0 <= k < |Framed(f, slots, labels, out[i])| && x.held == HeldAt(delta, f, slots, labels, size, out[i], k)
  }

  /** A remembered place is right behind a call to one of the code's labels. */
  ghost predicate Answers(f: Frame, slots: nat, labels: map<int, int>, out: seq<Emitted>, r: int, i: int) {
    && 0 <= i < |out| && Names(labels, out[i]) && f.isCall(out[i].inst.op)
    && r == PieceAt(f, slots, labels, out, i) + |Before(f, slots, out[i])| + 1
  }

  ghost predicate Answered(f: Frame, slots: nat, labels: map<int, int>, out: seq<Emitted>, r: int) {
    exists i :: Answers(f, slots, labels, out, r, i)
  }

  ghost predicate Pending(f: Frame, slots: nat, labels: map<int, int>, out: seq<Emitted>, calls: seq<int>) {
    forall n :: 0 <= n < |calls| ==> Answered(f, slots, labels, out, calls[n])
  }

  lemma Calls(f: Frame, slots: nat, labels: map<int, int>, out: seq<Emitted>, calls: seq<int>, r: int)
    requires Pending(f, slots, labels, out, calls)
    ensures Answered(f, slots, labels, out, r) ==> Pending(f, slots, labels, out, calls + [r])
    ensures calls != [] ==>
              Pending(f, slots, labels, out, calls[..|calls| - 1])
              && Answered(f, slots, labels, out, calls[|calls| - 1])
  {
    hide Answered;
  }

  ghost predicate Kept(delta: Emitted -> int, f: Frame, slots: nat, labels: map<int, int>, size: int,
                       out: seq<Emitted>, x: Spot) {
    && (|| Entering(delta, f, slots, x)
        || (exists i :: InPiece(delta, f, slots, labels, size, out, x, i))
        || x.pc == PieceAt(f, slots, labels, out, |out|))
    && Pending(f, slots, labels, out, x.calls)
  }

  lemma ClaimsNext(delta: Emitted -> int, e: seq<Emitted>, k: int)
    requires 0 <= k < |e|
    ensures Claims(delta, e[..k + 1]) == Claims(delta, e[..k]) + delta(e[k])
  {
    assert e[..k + 1][..k] == e[..k];
  }

  lemma ClaimsEnds(delta: Emitted -> int, e: seq<Emitted>)
    ensures Claims(delta, e[..0]) == 0 && Claims(delta, e[..|e|]) == Claims(delta, e)
  {
    assert e[..0] == [] && e[..|e|] == e;
  }

  /** The pieces follow one another. */
  lemma PieceNext(f: Frame, slots: nat, labels: map<int, int>, out: seq<Emitted>, i: int)
    requires 0 <= i < |out|
    ensures PieceAt(f, slots, labels, out, i + 1) ==
      PieceAt(f, slots, labels, out, i) + |Framed(f, slots, labels, out[i])|
    ensures PieceAt(f, slots, labels, out, 0) == |f.enter(slots)|
  {
    hide Framed, Flatten;
    FlattenNext(f, slots, labels, out, i);
    assert out[..0] == [];
    FlattenNothing(f, slots, labels);
  }

  /** Piece i stands where it starts. */
  lemma PieceStands(f: Frame, slots: nat, labels: map<int, int>, out: seq<Emitted>, i: int)
    requires 0 <= i < |out|
    ensures var at := PieceAt(f, slots, labels, out, i);
            var final := f.enter(slots) + Flatten(f, slots, labels, out);
            && 0 <= at && at + |Framed(f, slots, labels, out[i])| <= |final|
            && final[at..at + |Framed(f, slots, labels, out[i])|] == Framed(f, slots, labels, out[i])
  {
    hide Framed, Flatten;
    StretchLands(f, slots, labels, out, i, i + 1);
    assert out[i..i + 1] == [out[i]];
    OneFlat(f, slots, labels, out[i]);
  }

  lemma OneFlat(f: Frame, slots: nat, labels: map<int, int>, e: Emitted)
    ensures Flatten(f, slots, labels, [e]) == Framed(f, slots, labels, e)
  {
    hide Framed;
    assert [e][..0] == [];
    assert Flatten(f, slots, labels, []) == [];
  }

  /** Place k of a piece: before the instruction the frame's leaving, the instruction, and the frame's resuming. */
  lemma PlaceIs(f: Frame, slots: nat, labels: map<int, int>, e: Emitted, k: int)
    requires 0 <= k < |Framed(f, slots, labels, e)|
    ensures var b := |Before(f, slots, e)|;
            Framed(f, slots, labels, e)[k] ==
              if k < b then Before(f, slots, e)[k] else if k == b then e else After(f, slots, labels, e)[k - b - 1]
  {
  }

  /** Going on from place k. */
  lemma HeldNext(delta: Emitted -> int, f: Frame, slots: nat, labels: map<int, int>, size: int, out: seq<Emitted>,
                 e: Emitted, k: int)
    requires Frames(delta, f, slots, size, out) && e in out && 0 <= k < |Framed(f, slots, labels, e)|
    requires k == |Before(f, slots, e)| ==> !(Names(labels, e) && f.isCall(e.inst.op))
    ensures HeldAt(delta, f, slots, labels, size, e, k + 1) ==
      HeldAt(delta, f, slots, labels, size, e, k) + delta(Framed(f, slots, labels, e)[k])
  {
    hide Framed, Before, After;
    var b, a := Before(f, slots, e), After(f, slots, labels, e);
    assert |Framed(f, slots, labels, e)| == |b| + 1 + |a| by { FramedSize(f, slots, labels, e); }
    PlaceIs(f, slots, labels, e, k);
    ClaimsEnds(delta, b);
    ClaimsEnds(delta, a);
    if k < |b| {
      ClaimsNext(delta, b, k);
    } else if k > |b| {
      ClaimsNext(delta, a, k - |b| - 1);
    }
  }

  lemma FramedSize(f: Frame, slots: nat, labels: map<int, int>, e: Emitted)
    ensures |Framed(f, slots, labels, e)| == |Before(f, slots, e)| + 1 + |After(f, slots, labels, e)|
  {
  }

  /** At the instruction the area is there, or has just been given back before a return; at the start it is there,
      and at the end again, except after a return. */
  lemma HeldIs(delta: Emitted -> int, f: Frame, slots: nat, labels: map<int, int>, size: int, out: seq<Emitted>,
               e: Emitted)
    requires Frames(delta, f, slots, size, out)
    ensures var n := |Framed(f, slots, labels, e)|;
            && HeldAt(delta, f, slots, labels, size, e, 0) == size
            && HeldAt(delta, f, slots, labels, size, e, |Before(f, slots, e)|) ==
                 (if e.Body? && f.isReturn(e.inst.op) then 0 else size)
            && (!(e.Body? && f.isReturn(e.inst.op)) ==> HeldAt(delta, f, slots, labels, size, e, n) == size)
  {
    var b, a := Before(f, slots, e), After(f, slots, labels, e);
    ClaimsEnds(delta, b);
    ClaimsEnds(delta, a);
    FramedSize(f, slots, labels, e);
    assert Claims(delta, []) == 0;
  }

  /** A place of a piece, its end included, is one where what is held is kept track of. */
  lemma PlaceKept(delta: Emitted -> int, f: Frame, slots: nat, labels: map<int, int>, size: int, out: seq<Emitted>,
                  x: Spot, i: int, k: int)
    requires Frames(delta, f, slots, size, out) && 0 <= i < |out| && 0 <= k <= |Framed(f, slots, labels, out[i])|
    requires x.pc == PieceAt(f, slots, labels, out, i) + k
    requires x.held == HeldAt(delta, f, slots, labels, size, out[i], k)
    requires k == |Framed(f, slots, labels, out[i])| ==> !(out[i].Body? && f.isReturn(out[i].inst.op))
    requires Pending(f, slots, labels, out, x.calls)
    ensures Kept(delta, f, slots, labels, size, out, x)
  {
    hide HeldAt, Framed, Flatten, Pending, Answered, PieceAt, Before, After;
    if k < |Framed(f, slots, labels, out[i])| {
      assert InPiece(delta, f, slots, labels, size, out, x, i);
    } else {
      HeldIs(delta, f, slots, labels, size, out, out[i]);
      PieceNext(f, slots, labels, out, i);
      StartKept(delta, f, slots, labels, size, out, x, i + 1);
    }
  }

  /** So is the start of a piece, or the end of the stream, when the area is there. */
  lemma StartKept(delta: Emitted -> int, f: Frame, slots: nat, labels: map<int, int>, size: int, out: seq<Emitted>,
                  x: Spot, i: int)
    requires Frames(delta, f, slots, size, out) && 0 <= i <= |out|
    requires x.pc == PieceAt(f, slots, labels, out, i) && x.held == size
    requires Pending(f, slots, labels, out, x.calls)
    ensures Kept(delta, f, slots, labels, size, out, x)
  {
    hide HeldAt, Framed, Flatten, Pending, Answered, PieceAt, Before, After;
    if i < |out| {
      HeldIs(delta, f, slots, labels, size, out, out[i]);
      FramedSize(f, slots, labels, out[i]);
      assert InPiece(delta, f, slots, labels, size, out, x, i);
    }
  }

  /** One step out of the entry sequence. */
  lemma EnterStep(delta: Emitted -> int, f: Frame, slots: nat, labels: map<int, int>, size: int, out: seq<Emitted>,
                  final: seq<Emitted>, rebased: map<int, int>, x: Spot, y: Spot)
    requires Frames(delta, f, slots, size, out) && Framing(f, slots, labels, out, final, rebased)
    requires Entering(delta, f, slots, x) && Kept(delta, f, slots, labels, size, out, x)
    requires Goes(delta, f, final, rebased, x, y)
    ensures Kept(delta, f, slots, labels, size, out, y)
  {
    hide HeldAt, Framed, Flatten, Pending, Answered, InPiece;
    var e := f.enter(slots);
    assert final[x.pc] == e[x.pc] && e[x.pc] in e;
    ClaimsNext(delta, e, x.pc);
    ClaimsEnds(delta, e);
    if x.pc + 1 == |e| {
      assert PieceAt(f, slots, labels, out, 0) == |e| by {
        assert out[..0] == [];
        FlattenNothing(f, slots, labels);
      }
      StartKept(delta, f, slots, labels, size, out, y, 0);
    }
  }

  /** One step out of a piece. */
  lemma PieceStep(delta: Emitted -> int, f: Frame, slots: nat, labels: map<int, int>, size: int, out: seq<Emitted>,
                  final: seq<Emitted>, rebased: map<int, int>, x: Spot, y: Spot, i: int)
    requires Frames(delta, f, slots, size, out) && Framing(f, slots, labels, out, final, rebased)
    requires InPiece(delta, f, slots, labels, size, out, x, i) && Kept(delta, f, slots, labels, size, out, x)
    requires Goes(delta, f, final, rebased, x, y)
    ensures Kept(delta, f, slots, labels, size, out, y)
  {
    hide HeldAt, Framed, Flatten, Pending, Answered, PieceAt, Before, After, Entering;
    var e, at := out[i], PieceAt(f, slots, labels, out, i);
    var k, b := x.pc - at, |Before(f, slots, e)|;
    PieceStands(f, slots, labels, out, i);
    assert final[x.pc] == final[at..at + |Framed(f, slots, labels, e)|][k];
    PlaceIs(f, slots, labels, e, k);
    FramedSize(f, slots, labels, e);
    HeldIs(delta, f, slots, labels, size, out, e);
    if k != b {
      FrameOwn(delta, f, slots, labels, size, out, e, k);
      HeldNext(delta, f, slots, labels, size, out, e, k);
      PlaceKept(delta, f, slots, labels, size, out, y, i, k + 1);
    } else if e.Body? && f.isReturn(e.inst.op) {
      ReturnStep(delta, f, slots, labels, size, out, x, y);
    } else if Names(labels, e) && f.isCall(e.inst.op) {
      AnswersHere(f, slots, labels, out, i, x.pc + 1);
      Calls(f, slots, labels, out, x.calls, x.pc + 1);
      var j :| 0 <= j <= |out| && rebased[e.inst.src2.target] == PieceAt(f, slots, labels, out, j);
      StartKept(delta, f, slots, labels, size, out, y, j);
    } else if y.pc == x.pc + 1 && y.held == x.held + delta(e) {
      HeldNext(delta, f, slots, labels, size, out, e, k);
      PlaceKept(delta, f, slots, labels, size, out, y, i, k + 1);
    } else {
      var j :| 0 <= j <= |out| && rebased[e.inst.src2.target] == PieceAt(f, slots, labels, out, j);
      StartKept(delta, f, slots, labels, size, out, y, j);
    }
  }

  lemma AnswersHere(f: Frame, slots: nat, labels: map<int, int>, out: seq<Emitted>, i: int, r: int)
    requires 0 <= i < |out| && Names(labels, out[i]) && f.isCall(out[i].inst.op)
    requires r == PieceAt(f, slots, labels, out, i) + |Before(f, slots, out[i])| + 1
    ensures Answered(f, slots, labels, out, r)
  {
    assert Answers(f, slots, labels, out, r, i);
  }

  /** The frame's own instructions are no bodies. */
  lemma FrameOwn(delta: Emitted -> int, f: Frame, slots: nat, labels: map<int, int>, size: int, out: seq<Emitted>,
                 e: Emitted, k: int)
    requires Frames(delta, f, slots, size, out)
    requires 0 <= k < |Framed(f, slots, labels, e)| && k != |Before(f, slots, e)|
    ensures !Framed(f, slots, labels, e)[k].Body?
    ensures k + 1 == |Framed(f, slots, labels, e)| ==> !(e.Body? && f.isReturn(e.inst.op))
  {
    PlaceIs(f, slots, labels, e, k);
    FramedSize(f, slots, labels, e);
  }

  /** A return finds the area given back, which is what the place behind the call expects. */
  lemma ReturnStep(delta: Emitted -> int, f: Frame, slots: nat, labels: map<int, int>, size: int, out: seq<Emitted>,
                   x: Spot, y: Spot)
    requires Frames(delta, f, slots, size, out) && Kept(delta, f, slots, labels, size, out, x) && x.held == 0
    requires x.calls != [] && y == Spot(x.calls[|x.calls| - 1], x.held, x.calls[..|x.calls| - 1])
    ensures Kept(delta, f, slots, labels, size, out, y)
  {
    hide Framed, Flatten, PieceAt, Entering, InPiece, Pending;
    Calls(f, slots, labels, out, x.calls, 0);
    var i :| Answers(f, slots, labels, out, y.pc, i);
    var e := out[i];
    FramedSize(f, slots, labels, e);
    ClaimsEnds(delta, After(f, slots, labels, e));
    PlaceKept(delta, f, slots, labels, size, out, y, i, |Before(f, slots, e)| + 1);
  }

  lemma StepKept(delta: Emitted -> int, f: Frame, slots: nat, labels: map<int, int>, size: int, out: seq<Emitted>,
                 final: seq<Emitted>, rebased: map<int, int>, x: Spot, y: Spot)
    requires Frames(delta, f, slots, size, out) && Framing(f, slots, labels, out, final, rebased)
    requires Kept(delta, f, slots, labels, size, out, x) && Goes(delta, f, final, rebased, x, y)
    ensures Kept(delta, f, slots, labels, size, out, y)
  {
    hide HeldAt, Framed, Flatten, Pending, Answered, Entering, InPiece, Frames;
    assert out[..|out|] == out;
    if Entering(delta, f, slots, x) {
      EnterStep(delta, f, slots, labels, size, out, final, rebased, x, y);
    } else if i :| InPiece(delta, f, slots, labels, size, out, x, i) {
      PieceStep(delta, f, slots, labels, size, out, final, rebased, x, y, i);
    }
  }

  ghost predicate IsRun(delta: Emitted -> int, f: Frame, final: seq<Emitted>, rebased: map<int, int>, run: seq<Spot>) {
    && |run| > 0 && run[0] == Spot(0, 0, [])
    && forall n :: 0 <= n < |run| - 1 ==> Goes(delta, f, final, rebased, run[n], run[n + 1])
  }

  /** In every run of the framed stream, calls to its own labels included, the area is claimed at every instruction
      of the list but returns, and nothing is claimed at a return. */
  lemma {:induction false} RunsFramed(delta: Emitted -> int, f: Frame, slots: nat, labels: map<int, int>, size: int,
                                      out: seq<Emitted>, final: seq<Emitted>, rebased: map<int, int>, run: seq<Spot>,
                                      n: nat)
    requires Frames(delta, f, slots, size, out) && Framing(f, slots, labels, out, final, rebased)
    requires IsRun(delta, f, final, rebased, run) && n < |run|
    ensures Kept(delta, f, slots, labels, size, out, run[n])
    ensures 0 <= run[n].pc < |final| && final[run[n].pc].Body? ==>
              run[n].held == if f.isReturn(final[run[n].pc].inst.op) then 0 else size
  {
    hide Frames, Framing, Kept, Goes;
    if n == 0 {
      StartsKept(delta, f, slots, labels, size, out, run[0]);
    } else {
      RunsFramed(delta, f, slots, labels, size, out, final, rebased, run, n - 1);
      StepKept(delta, f, slots, labels, size, out, final, rebased, run[n - 1], run[n]);
    }
    if 0 <= run[n].pc < |final| && final[run[n].pc].Body? {
      KeptHolds(delta, f, slots, labels, size, out, final, rebased, run[n]);
    }
  }

  lemma StartsKept(delta: Emitted -> int, f: Frame, slots: nat, labels: map<int, int>, size: int, out: seq<Emitted>,
                   x: Spot)
    requires Frames(delta, f, slots, size, out) && x == Spot(0, 0, [])
    ensures Kept(delta, f, slots, labels, size, out, x)
  {
    hide HeldAt, Framed, Flatten, Answered, InPiece;
    ClaimsEnds(delta, f.enter(slots));
    if |f.enter(slots)| == 0 {
      assert out[..0] == [];
      FlattenNothing(f, slots, labels);
      StartKept(delta, f, slots, labels, size, out, x, 0);
    }
  }

  lemma KeptHolds(delta: Emitted -> int, f: Frame, slots: nat, labels: map<int, int>, size: int, out: seq<Emitted>,
                  final: seq<Emitted>, rebased: map<int, int>, x: Spot)
    requires Frames(delta, f, slots, size, out) && Framing(f, slots, labels, out, final, rebased)
    requires Kept(delta, f, slots, labels, size, out, x) && 0 <= x.pc < |final| && final[x.pc].Body?
    ensures x.held == if f.isReturn(final[x.pc].inst.op) then 0 else size
  {
    hide HeldAt, Framed, Flatten, Pending, Answered, Before, After, InPiece;
    assert out[..|out|] == out;
    if !Entering(delta, f, slots, x) {
      var i :| InPiece(delta, f, slots, labels, size, out, x, i);
      PieceHolds(delta, f, slots, labels, size, out, x, i);
    }
  }

  lemma PieceHolds(delta: Emitted -> int, f: Frame, slots: nat, labels: map<int, int>, size: int, out: seq<Emitted>,
                   x: Spot, i: int)
    requires Frames(delta, f, slots, size, out) && InPiece(delta, f, slots, labels, size, out, x, i)
    ensures var final := f.enter(slots) + Flatten(f, slots, labels, out);
            && 0 <= x.pc < |final|
            && (final[x.pc].Body? ==> x.held == if f.isReturn(final[x.pc].inst.op) then 0 else size)
  {
    hide HeldAt, Framed, Flatten, PieceAt, Before, After;
    var e, at := out[i], PieceAt(f, slots, labels, out, i);
    var final := f.enter(slots) + Flatten(f, slots, labels, out);
    PieceStands(f, slots, labels, out, i);
    assert final[x.pc] == final[at..at + |Framed(f, slots, labels, e)|][x.pc - at];
    PlaceIs(f, slots, labels, e, x.pc - at);
    HeldIs(delta, f, slots, labels, size, out, e);
    if x.pc - at != |Before(f, slots, e)| {
      FrameOwn(delta, f, slots, labels, size, out, e, x.pc - at);
    }
  }

  /** The bytes n slots of 8 take, in whole 16s. */
  function FrameBytes(slots: nat): nat {
    (8 * slots + 15) / 16 * 16
  }

  /** How deep native calls go, the bytes each records, and the stack the code is entered with. */
  const NATIVE_FRAME_LIMIT := 128
  const FRAME_RECORD := 32
  const STACK_RESERVE := 8192

  /** The limit on slots is the one that leaves room for the records of the deepest native calls. */
  lemma ReserveHolds(slots: nat)
    ensures FrameBytes(slots) + NATIVE_FRAME_LIMIT * FRAME_RECORD <= STACK_RESERVE <==> slots <= MAX_SPILL_SLOTS
    ensures FrameBytes(MAX_SPILL_SLOTS) + NATIVE_FRAME_LIMIT * FRAME_RECORD == STACK_RESERVE
  {
  }

  /** Adjustments of the stack pointer by at most 4080 bytes each, n in all, down or up. */
  function Adjustments(n: nat, sign: int): seq<Emitted> {
    if n == 0 then [] else if n <= 4080 then [Adjust(sign * n)] else [Adjust(sign * 4080)] + Adjustments(n - 4080, sign)
  }

  /** Claims the area for that many slots, or gives it back. */
  method Reserve(slots: nat, sign: int) returns (out: seq<Emitted>)
    ensures out == Adjustments(FrameBytes(slots), sign)
  {
    var n := FrameBytes(slots);
    out := [];
    while n > 0
      invariant 0 <= n && out + Adjustments(n, sign) == Adjustments(FrameBytes(slots), sign)
    {
      var chunk := if n > 4080 then 4080 else n;
      assert Adjustments(n, sign) == [Adjust(sign * chunk)] + Adjustments(n - chunk, sign);
      out := out + [Adjust(sign * chunk)];
      n := n - chunk;
    }
  }

  /** The ARM64 frame: on entry the stack pointer is also copied, which claims nothing; ret returns and bl calls. */
  function Arm64Frame(ret: int, bl: int): Frame {
    Frame((n: nat) => Adjustments(FrameBytes(n), 1) + [Adjust(0)], (n: nat) => Adjustments(FrameBytes(n), -1),
          (n: nat) => Adjustments(FrameBytes(n), 1), (op: int) => op == ret, (op: int) => op == bl)
  }

  function Down(e: Emitted): int {
    if e.Adjust? then e.word else 0
  }

  lemma {:induction false} ClaimsJoin(delta: Emitted -> int, a: seq<Emitted>, b: seq<Emitted>)
    ensures Claims(delta, a + b) == Claims(delta, a) + Claims(delta, b)
  {
    if b == [] {
      assert a + b == a;
    } else {
      var n := |b| - 1;
      assert (a + b)[..|a + b| - 1] == a + b[..n];
      ClaimsJoin(delta, a, b[..n]);
    }
  }

  /** Adjustments add up, each within the range of one instruction and a multiple of the alignment. */
  lemma {:induction false} AdjustmentsClaim(n: nat, sign: int)
    requires n % 16 == 0 && (sign == 1 || sign == -1)
    ensures Claims(Down, Adjustments(n, sign)) == sign * n
    ensures forall e :: e in Adjustments(n, sign) ==> e.Adjust? && -4080 <= e.word <= 4080 && e.word % 16 == 0
  {
    if n > 4080 {
      AdjustmentsClaim(n - 4080, sign);
      OneClaim(Adjust(sign * 4080));
      ClaimsJoin(Down, [Adjust(sign * 4080)], Adjustments(n - 4080, sign));
    } else if n > 0 {
      OneClaim(Adjust(sign * n));
    }
  }

  lemma OneClaim(e: Emitted)
    ensures Claims(Down, [e]) == Down(e)
  {
    assert [e][..0] == [];
    assert Claims(Down, []) == 0;
  }

  /** The ARM64 frame claims and gives back one area, aligned at every step. */
  lemma Arm64Frames(ret: int, bl: int, slots: nat, out: seq<Emitted>)
    requires ret != bl && forall e :: e in out ==> !e.Adjust?
    ensures Frames(Down, Arm64Frame(ret, bl), slots, FrameBytes(slots), out)
    ensures FrameBytes(slots) >= 8 * slots && FrameBytes(slots) % 16 == 0
  {
    hide Adjustments;
    AdjustmentsClaim(FrameBytes(slots), 1);
    AdjustmentsClaim(FrameBytes(slots), -1);
    OneClaim(Adjust(0));
    ClaimsJoin(Down, Adjustments(FrameBytes(slots), 1), [Adjust(0)]);
  }

  /** What the allocator emits moves no stack pointer. */
  lemma {:induction false} NoAdjust(sem: Semantics, alloc: set<Slot>, insts: seq<Instruction>, tables: seq<seq<Info>>,
                                    moved: seq<int>, out: seq<Emitted>, n: nat)
    requires n < |moved| && moved[0] == 0
    requires forall i :: 0 <= i < n ==> Emits(sem, alloc, insts, tables, moved, out, i)
    ensures 0 <= moved[n] && (n > 0 ==> moved[n] <= |out|)
    ensures forall p :: 0 <= p < moved[n] && p < |out| ==> !out[p].Adjust?
  {
    hide Executes;
    if n > 0 {
      NoAdjust(sem, alloc, insts, tables, moved, out, n - 1);
      assert Emits(sem, alloc, insts, tables, moved, out, n - 1);
      var e := out[moved[n - 1]..moved[n]];
      forall p | moved[n - 1] <= p < moved[n]
        ensures !out[p].Adjust?
      {
        assert out[p] == e[p - moved[n - 1]];
        assert p < moved[n] - 1 ==> e[p - moved[n - 1]] == e[..|e| - 1][p - moved[n - 1]];
      }
    }
  }

  /** On ARM64: in every run of what the allocator makes of a list, with spills, the spill area is claimed at every
      instruction of the list but returns, and nothing is claimed at a return. */
  lemma SpillsFramed(sem: Semantics, alloc: set<Slot>, fs: seq<Fixed>, insts: seq<Instruction>, tables: seq<seq<Info>>,
                     moved: seq<int>, out: seq<Emitted>, ret: int, bl: int, slots: nat, labels: map<int, int>,
                     final: seq<Emitted>, rebased: map<int, int>, run: seq<Spot>, n: nat)
    requires Rewritten(sem, alloc, fs, insts, tables, moved, out) && ret != bl
    requires Framing(Arm64Frame(ret, bl), slots, labels, out, final, rebased)
    requires IsRun(Down, Arm64Frame(ret, bl), final, rebased, run) && n < |run|
    ensures 0 <= run[n].pc < |final| && final[run[n].pc].Body? ==>
              run[n].held == if final[run[n].pc].inst.op == ret then 0 else FrameBytes(slots)
  {
    hide Framing, IsRun, SimulatesFrom, TableOk, Frames, Kept, Emits, FrameBytes;
    NoAdjust(sem, alloc, insts, tables, moved, out, |insts|);
    Arm64Frames(ret, bl, slots, out);
    RunsFramed(Down, Arm64Frame(ret, bl), slots, labels, FrameBytes(slots), out, final, rebased, run, n);
  }
}
