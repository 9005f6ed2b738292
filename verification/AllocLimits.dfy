/** A jump forward over a spill: the allocator accepts the list, and the taken path computes a wrong value. */
module AllocLimits {
  import opened Machine
  import opened AllocFacts
  import opened Pressure
  import Rewrites

  const PUT := 0
  const JUMP := 1
  const USE := 2
  const SHOW := 3

  const FIRST: VReg := VReg(0, IntBank, W64)
  const SECOND: VReg := VReg(1, IntBank, W64)

  function Define(v: VReg): Instruction {
    Instruction(PUT, V(v), Nothing, Nothing, Nothing)
  }

  function Read(op: int, v: VReg): Instruction {
    Instruction(op, Nothing, V(v), Nothing, Nothing)
  }

  /** The first value is live across a jump over the whole life of the second. */
  const SKIP: seq<Instruction> := [
    Define(FIRST), Instruction(JUMP, Nothing, Nothing, Lbl(0), Nothing), Define(SECOND), Read(USE, SECOND),
    Read(SHOW, FIRST)]

  const LABELS: map<int, int> := map[0 := 4]

  /** One integer register, and no floating-point one. */
  const ONE: Rewrites.RegInfo := Rewrites.RegInfo(1, 0, {}, {}, {})

  const R0: Slot := Slot(IntBank, 0)

  /** PUT gives 1, and SHOW makes the world the value it reads. */
  function Shows(inst: Instruction, vals: seq<int>, world: int): (int, int) {
    if inst.op == PUT then (1, world)
    else if inst.op == SHOW && |vals| == 1 then (0, vals[0])
    else (0, world)
  }

  ghost function Showing(): Semantics {
    (inst: Instruction, vals: seq<int>, world: int) => Shows(inst, vals, world)
  }

  lemma OneRoom()
    ensures ONE.Allocatable() == {R0}
    ensures Room({R0}, IntBank) == {R0} && Room({R0}, FloatBank) == {}
  {
    assert ONE.Available() == {R0} by {
      assert forall s :: s in ONE.Available() <==> s == R0;
    }
  }

  lemma SkipRefs()
    ensures Refs(SKIP[0]) == [FIRST] && Refs(SKIP[1]) == [] && Refs(SKIP[2]) == [SECOND] && Refs(SKIP[3]) == [SECOND]
    ensures Refs(SKIP[4]) == [FIRST]
    ensures Uses(SKIP[0]) == [] && Uses(SKIP[1]) == [] && Uses(SKIP[2]) == [] && Uses(SKIP[3]) == [SECOND]
    ensures Uses(SKIP[4]) == [FIRST]
  {
  }

  lemma SkipNames()
    ensures Names(SKIP[0]) == {0} && Names(SKIP[1]) == {} && Names(SKIP[2]) == {1} && Names(SKIP[3]) == {1}
    ensures Names(SKIP[4]) == {0}
  {
    hide Refs;
    SkipRefs();
  }

  lemma SkipDefines()
    ensures forall i, k :: 0 <= i < 5 ==> (Defines(SKIP[i], k) <==> (i == 0 && k == 0) || (i == 2 && k == 1))
    ensures forall i, k :: DefinedBy(SKIP, i, k) <==> (i > 0 && k == 0) || (i > 2 && k == 1)
  {
    assert Defines(SKIP[0], 0) && Defines(SKIP[2], 1);
  }

  lemma SkipLasts(fs: seq<Fixed>)
    requires |fs| == 2 && forall k :: 0 <= k < 2 ==> LastMention(SKIP, k, fs[k].last)
    ensures fs[0].last == 4 && fs[1].last == 3 && Lasts(SKIP, fs)
  {
    hide Refs;
    SkipRefs();
    PreparedLasts(SKIP, fs);
    assert Mentions(SKIP[4], 0) && Mentions(SKIP[3], 1) && !Mentions(SKIP[4], 1);
  }

  /** Plain registers of the integer bank, last mentioned where SKIP mentions them last. */
  ghost predicate Recorded(fs: seq<Fixed>) {
    && |fs| == 2 && fs[0].last == 4 && fs[1].last == 3
    && forall k :: 0 <= k < 2 ==> fs[k].pin.None? && fs[k].bank == IntBank
  }

  lemma SkipAccepted(r: seq<Info>, fs: seq<Fixed>)
    requires fs == Fixes(r) && Recorded(fs)
    ensures Accepts(SKIP, r, {R0})
  {
    hide Refs, Uses;
    SkipRefs();
    SkipDefines();
    forall i, u | 0 <= i < |SKIP| && u in Refs(SKIP[i])
      ensures Typed(r, u) && r[u.id].fix.last >= i
    {
      assert u == FIRST || u == SECOND;
    }
    forall i, u | 0 <= i < |SKIP| && u in Uses(SKIP[i])
      ensures DefinedBy(SKIP, i, u.id)
    {
      assert (i == 4 && u == FIRST) || (i == 3 && u == SECOND);
    }
  }

  /** No instruction names two registers, and two values are live only from instruction 2 on. */
  lemma SkipPressure(fs: seq<Fixed>)
    requires Recorded(fs)
    ensures !Crowded(true, SKIP, fs, {R0}) && Calm(SKIP, fs, {R0}, 2)
  {
    hide TooWide, Pressed, Refs, Names, DefinedBy;
    forall i, bank | 0 <= i < |SKIP|
      ensures !TooWide(true, SKIP, fs, {R0}, i, bank)
    {
      SkipNarrow(fs, i, bank);
    }
    forall i, bank | 0 <= i < 2
      ensures !Pressed(SKIP, fs, {R0}, i, bank)
    {
      SkipCalm(fs, i, bank);
    }
  }

  lemma SkipNarrow(fs: seq<Fixed>, i: int, bank: Bank)
    requires Recorded(fs) && 0 <= i < |SKIP|
    ensures !TooWide(true, SKIP, fs, {R0}, i, bank)
  {
    hide Refs, Names, DefinedBy, Room;
    OneRoom();
    SkipNames();
    if bank == IntBank {
      assert NamedBy(SKIP, fs, i, bank) <= Names(SKIP[i]);
      Smaller(NamedBy(SKIP, fs, i, bank), Names(SKIP[i]));
    } else {
      assert Busy(SKIP, fs, i, bank) == {};
    }
  }

  lemma SkipCalm(fs: seq<Fixed>, i: int, bank: Bank)
    requires Recorded(fs) && 0 <= i < 2
    ensures !Pressed(SKIP, fs, {R0}, i, bank)
  {
    hide Refs, DefinedBy, Room;
    OneRoom();
    SkipDefines();
    assert Busy(SKIP, fs, i, bank) <= if bank == IntBank then {0} else {};
    Smaller(Busy(SKIP, fs, i, bank), if bank == IntBank then {0} else {});
  }

  /** At the label the first value is in a spill slot, where the jump has not put it. */
  lemma FirstSpilled(sem: Semantics, fs: seq<Fixed>, tables: seq<seq<Info>>, moved: seq<int>, out: seq<Emitted>,
                     slots: nat)
    requires Recorded(fs) && Rewrites.Rewritten(sem, {R0}, fs, SKIP, tables, moved, out)
    requires Going(SKIP, fs, {R0}, true, tables, moved, slots, 5)
    ensures |tables| == 6 && |tables[4]| == 2 && tables[4][0].spilled && !tables[4][0].bound && !Alive(tables[4][1])
  {
    hide Emits, SimulatesFrom, Calm, TooWide, Names, DefinedBy, Refs, SlotsOk;
    SkipDefines();
    SkipNames();
    var t3, t4 := tables[3], tables[4];
    assert Exact(SKIP, fs, 3, t3) && Exact(SKIP, fs, 4, t4);
    assert LiveAt(SKIP, fs, 3, 0) && LiveAt(SKIP, fs, 4, 0) && !LiveAt(SKIP, fs, 4, 1);
    assert Across(SKIP, fs, {R0}, 2, tables[2], t3);
    assert t3[1].bound by { assert Defines(SKIP[2], 1); }
    assert !t3[0].bound by { Apart(t3); }
    assert Across(SKIP, fs, {R0}, 3, t3, t4);
    assert 0 !in Names(SKIP[3]);
  }

  /** One register holds one value. */
  lemma Apart(r: seq<Info>)
    requires TableOk(r, {R0}) && |r| == 2 && r[0].fix.pin.None? && r[1].fix.pin.None?
    ensures !(r[0].bound && r[1].bound)
  {
    var owners: map<Slot, int>, avail: set<Slot>, slots: int, freed: seq<int> :|
      OwnersOk(r, owners, avail, {R0}) && SlotsOk(r, slots, freed);
    OwnersInjective(r, owners, avail, {R0});
    assert Fits(r[0], {R0}) && Fits(r[1], {R0});
  }

  ghost const BLANK: VState := VState(map[], map[], 0)

  ghost const BARE: PState := PState(map[], map[], 0)

  /** On the taken path SHOW shows 1. */
  lemma ShowsOne(fs: seq<Fixed>)
    requires Recorded(fs)
    ensures RunV(Showing(), fs, SKIP[..2], BLANK) == VState(map[0 := 1], map[], 0)
    ensures RunV(Showing(), fs, SKIP[..2] + SKIP[4..], BLANK).world == 1
  {
    var v := VState(map[0 := 1], map[], 0);
    assert StepV(Showing(), fs, SKIP[0], BLANK) == v && StepV(Showing(), fs, SKIP[1], v) == v;
    NothingRuns(Showing(), fs, BLANK, BARE);
    RunVAppend(Showing(), fs, SKIP, 0, BLANK);
    RunVAppend(Showing(), fs, SKIP, 1, BLANK);
    assert SKIP[..0] == [];
    var path := SKIP[..2] + SKIP[4..];
    assert path[..2] == SKIP[..2] && path[..3] == path;
    RunVAppend(Showing(), fs, path, 2, BLANK);
  }

  lemma ShowsIt(fs: seq<Fixed>, v: VState)
    requires Recorded(fs)
    ensures RunV(Showing(), fs, SKIP[4..], v).world == Get(v.vregs, 0)
  {
    assert SKIP[4..] == [SKIP[4]] && [SKIP[4]][..0] == [];
    NothingRuns(Showing(), fs, v, BARE);
    assert RunV(Showing(), fs, [SKIP[4]], v) == StepV(Showing(), fs, SKIP[4], v);
  }

  /** Before the jump nothing is stored. */
  lemma NothingStored(sem: Semantics, fs: seq<Fixed>, tables: seq<seq<Info>>, moved: seq<int>, out: seq<Emitted>,
                      slots: nat)
    requires Recorded(fs) && Rewrites.Rewritten(sem, {R0}, fs, SKIP, tables, moved, out)
    requires Going(SKIP, fs, {R0}, true, tables, moved, slots, 5)
    ensures 0 <= moved[2] <= |out| && RunP(sem, out[..moved[2]], BARE).spill == map[]
  {
    hide SimulatesFrom, TooWide, Names, DefinedBy, Refs, TableOk, Executes, Pressed, Exact, Across;
    SkipPressure(fs);
    assert Calm(SKIP, fs, {R0}, 1);
    assert Emits(sem, {R0}, SKIP, tables, moved, out, 0) && Emits(sem, {R0}, SKIP, tables, moved, out, 1);
    assert moved[0] == 0 && moved[1] == 1 && moved[2] == 2;
    assert out[0..1][0].Body? && out[1..2][0].Body?;
    assert out[..2][..1] == out[..1] && out[..1][..0] == [];
    assert RunP(sem, out[..1], BARE) == StepP(sem, out[0], BARE);
    assert RunP(sem, out[..2], BARE) == StepP(sem, out[1], RunP(sem, out[..1], BARE));
  }

  /** Taking the jump, the rewritten list shows 0 where the list shows 1. */
  lemma Misled(fs: seq<Fixed>, tables: seq<seq<Info>>, moved: seq<int>, out: seq<Emitted>, slots: nat)
    requires Recorded(fs) && Rewrites.Rewritten(Showing(), {R0}, fs, SKIP, tables, moved, out)
    requires Going(SKIP, fs, {R0}, true, tables, moved, slots, 5)
    ensures |moved| == 6 && 0 <= moved[2] <= |out| && 0 <= moved[4] <= |out|
    ensures RunP(Showing(), out[..moved[2]] + out[moved[4]..], BARE).world == 0
    ensures RunV(Showing(), fs, SKIP[..2] + SKIP[4..], BLANK).world == 1
  {
    hide Emits, RunP, RunV, TableOk, Going, SimulatesFrom;
    var sem := Showing();
    ShowsOne(fs);
    NothingStored(sem, fs, tables, moved, out, slots);
    FirstSpilled(sem, fs, tables, moved, out, slots);
    var v, p := RunV(sem, fs, SKIP[..2], BLANK), RunP(sem, out[..moved[2]], BARE);
    assert Sim(tables[2], {R0}, -1, v, p) by { StartsAlike(sem, fs, tables, moved, out); }
    var w := VState(map[], v.pregs, v.world);
    assert Sim(tables[4], {R0}, -1, w, p);
    Rewrites.EntersAt(sem, {R0}, fs, SKIP, tables, moved, out, 2, 4);
    ShowsIt(fs, w);
    WorldAgrees(tables[5], {R0}, -1, RunV(sem, fs, SKIP[4..], w), RunP(sem, out[moved[4]..], p));
    RunPAppend(sem, out[..moved[2]], out[moved[4]..], BARE);
  }

  lemma StartsAlike(sem: Semantics, fs: seq<Fixed>, tables: seq<seq<Info>>, moved: seq<int>, out: seq<Emitted>)
    requires Rewrites.Rewritten(sem, {R0}, fs, SKIP, tables, moved, out)
    ensures 0 <= moved[2] <= |out|
    ensures Sim(tables[2], {R0}, -1, RunV(sem, fs, SKIP[..2], BLANK), RunP(sem, out[..moved[2]], BARE))
  {
    hide Emits, Sim, RunV, RunP, TableOk;
    assert Agree({R0}, BLANK, BARE);
    assert SimulatesFrom(sem, {R0}, fs, SKIP[..2], tables[2], out[..moved[2]]);
  }

  /** The list's register table. */
  method Tabled() returns (r: seq<Info>, ghost fs: seq<Fixed>)
    ensures fs == Fixes(r) && Recorded(fs) && Lasts(SKIP, fs) && Accepts(SKIP, r, {R0})
    ensures forall k :: 0 <= k < |r| ==> r[k] == Info(fs[k], r[k].reg, -1, -1, false, false, false)
  {
    hide Refs, Accepts, Lasts, AllRefs, FirstWidth, LastMention;
    SkipRefs();
    var prepared := Rewrites.Prepare(ONE, SKIP, map[], [IntBank, IntBank]);
    r := prepared.value;
    fs := Fixes(r);
    SkipLasts(fs);
    SkipAccepted(r, fs);
  }

  /** An allocator ready for the list. */
  method Prepared(frame: Rewrites.Frame) returns (rewriter: Rewrites.Rewriter, ghost fs: seq<Fixed>)
    ensures fresh(rewriter) && rewriter.Unstarted() && rewriter.frame == Some(frame) && rewriter.sem == Showing()
    ensures rewriter.allocatable == {R0} && fs == Fixes(rewriter.regs) && Recorded(fs) && Lasts(SKIP, fs)
    ensures Accepts(SKIP, rewriter.regs, {R0})
  {
    hide Accepts, Lasts;
    var r;
    r, fs := Tabled();
    assert forall k :: 0 <= k < |r| ==> r[k].fix == fs[k];
    OneRoom();
    rewriter := new Rewrites.Rewriter(ONE, Some(frame), r, Showing());
  }

  /** The allocator accepts the list, and what it makes of it shows 0 when the jump is taken, where the list shows 1. */
  method SpillSkipped(frame: Rewrites.Frame)
    returns (ok: bool, out: seq<Emitted>, rebased: map<int, int>, ghost fs: seq<Fixed>, ghost moved: seq<int>,
             ghost tables: seq<seq<Info>>)
    ensures ok && rebased.Keys == {0} && Recorded(fs) && |moved| == 6
    ensures Rewrites.Rewritten(Showing(), {R0}, fs, SKIP, tables, moved, out)
    ensures 0 <= moved[2] <= |out| && 0 <= moved[4] <= |out|
    ensures RunP(Showing(), out[..moved[2]] + out[moved[4]..], BARE).world == 0
    ensures RunV(Showing(), fs, SKIP[..2] + SKIP[4..], BLANK).world == 1
  {
    hide Refs, RunP, RunV, Accepts, Lasts, Calm, Crowded, Going, Rewrites.RewrittenTo, Recorded;
    var rewriter;
    rewriter, fs := Prepared(frame);
    SkipPressure(fs);
    assert |fs| == 2 by { RecordedSize(fs); }
    var final;
    ok, final, rebased, moved, tables := rewriter.Run(SKIP, LABELS);
    out := rewriter.out;
    assert Fixes(rewriter.regs) == fs;
    Misled(fs, tables, moved, out, rewriter.slots);
  }

  lemma RecordedSize(fs: seq<Fixed>)
    requires Recorded(fs)
    ensures |fs| == 2
  {
  }
}
