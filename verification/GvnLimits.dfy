/** A body that the verifier accepts and global value numbering turns into one that ends differently: it computes an
    exclusive or twice, with its operands the other way round, and reloads the first where the second was. */
module GvnLimits {
  import opened Bytecode
  import opened Stacks
  import opened Numbering
  import opened Terms
  import opened GroupValues
  import opened EditRuns
  import opened Edits
  import opened Reuse
  import opened Orientation
  import opened OrientedReuse
  import opened Redundancies
  import opened Integers
  import Splicer
  import Blocks
  import Numberers
  import Avail
  import Gvn
  import GvnPass
  import IntCode
  import Readings
  import Codec
  import AlgebraRuns
  import Checker
  import Verify
  import VerifyLimits
  import Verifier
  import Dataflow

  /** On one i32 x: (x == 0) xor 1, dropped; then 1 xor (x == 0), returned. */
  const MIXED: seq<Byte> :=
      [LOCAL_GET, 0, 55, 34, 1, 0, 0, 0, I32_XOR, DROP, BR, 0, 0, 34, 1, 0, 0, 0, LOCAL_GET, 0, 55, I32_XOR, RETURN]

  ghost const MIXED_STARTS: seq<int> := [0, 2, 3, 8, 9, 10, 13, 18, 20, 21, 22, 23]

  const MIXED_BLOCKS: seq<Blocks.Block> := [Blocks.Block(0, 13, {1}, {}), Blocks.Block(13, 23, {}, {0})]

  /** The same with the first result captured and reloaded. */
  const RELOADED: seq<Byte> :=
      [LOCAL_GET, 0, 55, 34, 1, 0, 0, 0, I32_XOR, LOCAL_TEE, 1, DROP, BR, 0, 0, LOCAL_GET, 1, RETURN]

  ghost const MIXED_EDITS: seq<Edit> := [Edit(9, 9, [LOCAL_TEE, 1]), Edit(13, 22, [LOCAL_GET, 1])]

  const ONE: seq<Byte> := [34, 1, 0, 0, 0]

  ghost const NOT: Term := OpTerm(55, [LocalTerm(0)])

  lemma MixedReads()
    ensures Layout(MIXED, MIXED_STARTS)
    ensures Core(MIXED, 0) == [LOCAL_GET, 0] == Core(MIXED, 18) && Core(MIXED, 2) == [55] == Core(MIXED, 20)
    ensures Core(MIXED, 3) == ONE == Core(MIXED, 13) && Core(MIXED, 8) == [I32_XOR] == Core(MIXED, 21)
    ensures Core(MIXED, 9) == [DROP] && Core(MIXED, 10) == [BR] && Core(MIXED, 22) == [RETURN]
  {
    hide Layout, Core, Width;
    MixedLayout();
    MixedCores();
  }

  lemma MixedLayout()
    ensures Layout(MIXED, MIXED_STARTS)
  {
    hide Width;
    MixedWidths();
  }

  lemma MixedCores()
    ensures Core(MIXED, 0) == [LOCAL_GET, 0] == Core(MIXED, 18) && Core(MIXED, 2) == [55] == Core(MIXED, 20)
    ensures Core(MIXED, 3) == ONE == Core(MIXED, 13) && Core(MIXED, 8) == [I32_XOR] == Core(MIXED, 21)
    ensures Core(MIXED, 9) == [DROP] && Core(MIXED, 10) == [BR] && Core(MIXED, 22) == [RETURN]
  {
    hide Width;
    MixedWidths();
    MixedBytes();
    OneByte(MIXED, 2);
    OneByte(MIXED, 8);
    OneByte(MIXED, 9);
    OneByte(MIXED, 20);
    OneByte(MIXED, 21);
    OneByte(MIXED, 22);
    TwoBytes(MIXED, 0);
    TwoBytes(MIXED, 18);
    FiveBytes(MIXED, 3);
    FiveBytes(MIXED, 13);
  }

  lemma MixedBytes()
    ensures MIXED[0] == LOCAL_GET && MIXED[1] == 0 && MIXED[2] == 55 && MIXED[8] == I32_XOR && MIXED[9] == DROP
    ensures MIXED[3] == 34 && MIXED[4] == 1 && MIXED[5] == 0 && MIXED[6] == 0 && MIXED[7] == 0 && MIXED[10] == BR
    ensures MIXED[13] == 34 && MIXED[14] == 1 && MIXED[15] == 0 && MIXED[16] == 0 && MIXED[17] == 0
    ensures MIXED[18] == LOCAL_GET && MIXED[19] == 0 && MIXED[20] == 55 && MIXED[21] == I32_XOR && MIXED[22] == RETURN
    ensures |MIXED| == 23
  {
  }

  lemma OneByte(code: seq<Byte>, ip: int)
    requires 0 <= ip < |code| && Width(code, ip) == 1 && !IsBranch(code[ip])
    ensures Core(code, ip) == [code[ip]]
  {
    hide Width;
  }

  lemma TwoBytes(code: seq<Byte>, ip: int)
    requires 0 <= ip && ip + 2 <= |code| && Width(code, ip) == 2 && !IsBranch(code[ip])
    ensures Core(code, ip) == [code[ip], code[ip + 1]]
  {
    hide Width;
  }

  lemma FiveBytes(code: seq<Byte>, ip: int)
    requires 0 <= ip && ip + 5 <= |code| && Width(code, ip) == 5 && !IsBranch(code[ip])
    ensures Core(code, ip) == [code[ip], code[ip + 1], code[ip + 2], code[ip + 3], code[ip + 4]]
  {
    hide Width;
  }

  lemma MixedWidths()
    ensures Width(MIXED, 0) == 2 && Width(MIXED, 2) == 1 && Width(MIXED, 3) == 5 && Width(MIXED, 8) == 1
    ensures Width(MIXED, 9) == 1 && Width(MIXED, 10) == 3 && Width(MIXED, 13) == 5 && Width(MIXED, 18) == 2
    ensures Width(MIXED, 20) == 1 && Width(MIXED, 21) == 1 && Width(MIXED, 22) == 1
  {
  }

  lemma MixedArms()
    ensures Layout(MIXED, MIXED_STARTS)
    ensures forall k :: 0 <= k < 11 ==> Arms(MIXED, MIXED_STARTS[k]) == if k == 5 then 1 else 0
    ensures Target(MIXED, 10, 0) == 13
    ensures forall k :: 0 <= k < 11 ==> (Blocks.EndsBlock(MIXED[MIXED_STARTS[k]]) <==> k == 5 || k == 10)
  {
    MixedReads();
  }

  lemma ReloadedReads()
    ensures Width(RELOADED, 0) == 2 && Width(RELOADED, 2) == 1 && Width(RELOADED, 3) == 5 && Width(RELOADED, 8) == 1
    ensures Width(RELOADED, 9) == 2 && Width(RELOADED, 11) == 1 && Width(RELOADED, 12) == 3
    ensures Width(RELOADED, 15) == 2 && Width(RELOADED, 17) == 1
    ensures Core(RELOADED, 0) == [LOCAL_GET, 0] && Core(RELOADED, 2) == [55] && Core(RELOADED, 3) == ONE
    ensures Core(RELOADED, 8) == [I32_XOR] && Core(RELOADED, 9) == [LOCAL_TEE, 1] && Core(RELOADED, 11) == [DROP]
    ensures Core(RELOADED, 12) == [BR] && Core(RELOADED, 15) == [LOCAL_GET, 1] && Core(RELOADED, 17) == [RETURN]
    ensures Target(RELOADED, 12, 0) == 15
  {
  }

  lemma MixedLeaders()
    ensures Layout(MIXED, MIXED_STARTS)
    ensures forall x :: Blocks.Leader(MIXED, [], MIXED_STARTS, x) <==> x == 0 || x == 13
  {
    hide Width, Arms, Target, Layout, Core, Blocks.EndsBlock;
    var s := MIXED_STARTS;
    MixedArms();
    forall x
      ensures Blocks.Leads(MIXED, s, 11, x) <==> x == 13 || x == 23
    {
      assert Blocks.EndsBlock(MIXED[s[5]]) && s[5 + 1] == 13;
      assert Blocks.EndsBlock(MIXED[s[10]]) && s[10 + 1] == 23;
    }
  }

  lemma MixedLasts()
    ensures Blocks.Last(MIXED, 0, 13) == 10 && Blocks.Last(MIXED, 13, 23) == 22
  {
    hide Width;
    MixedWidths();
    assert Blocks.Last(MIXED, 10, 13) == 10 && Blocks.Last(MIXED, 9, 13) == 10 && Blocks.Last(MIXED, 8, 13) == 10;
    assert Blocks.Last(MIXED, 3, 13) == 10 && Blocks.Last(MIXED, 2, 13) == 10;
    assert Blocks.Last(MIXED, 22, 23) == 22 && Blocks.Last(MIXED, 21, 23) == 22 && Blocks.Last(MIXED, 20, 23) == 22;
    assert Blocks.Last(MIXED, 18, 23) == 22;
  }

  lemma MixedFlows()
    ensures forall j, i :: Blocks.Flows(MIXED, [0, 13], j, i) <==> j == 0 && i == 1
  {
    hide Width, Arms, Target, Blocks.Last, Core;
    MixedArms();
    MixedLasts();
    assert MIXED_STARTS[5] == 10 && MIXED_STARTS[10] == 22;
    assert Arms(MIXED, 10) == 1 && Arms(MIXED, 22) == 0;
    assert Target(MIXED, 10, 0) == 13;
    assert Blocks.ArmLeads(MIXED, 10, 1, 13) && !Blocks.ArmLeads(MIXED, 10, 1, 0);
  }

  lemma MixedCfg()
    ensures Layout(MIXED, MIXED_STARTS) && Blocks.IsCfg(MIXED, [], MIXED_STARTS, MIXED_BLOCKS)
  {
    hide Layout, Blocks.LinkedTo, Blocks.Leader;
    MixedLeaders();
    MixedLinked();
    assert Blocks.CfgBy(MIXED, [], MIXED_STARTS, MIXED_BLOCKS, [0, 13]);
  }

  lemma MixedTargets()
    ensures Layout(MIXED, MIXED_STARTS)
    ensures Blocks.Targeted(MIXED, [], MIXED_STARTS) && Blocks.InRange(MIXED, MIXED_STARTS, 11)
    ensures Blocks.TablesEndBlocks(MIXED, [], MIXED_STARTS)
  {
    hide Width, Arms, Target, Layout, Core, Blocks.Leader, Blocks.EndsBlock;
    MixedArms();
    assert 13 in MIXED_STARTS by { assert MIXED_STARTS[6] == 13; }
  }

  lemma MixedLinked()
    ensures Blocks.LinkedTo(MIXED, [0, 13], 2, {}, MIXED_BLOCKS)
  {
    hide Blocks.Flows;
    MixedFlows();
  }

  lemma LoadOps()
    ensures !IsPure(LOCAL_GET) && !IsPure(34) && IsLeaf(34) && !IsLeaf(LOCAL_GET) && !Takes(LOCAL_GET) && !Takes(34)
    ensures !Opaque(LOCAL_GET) && !Opaque(34) && Numberers.Needs(LOCAL_GET) == 0 == Numberers.Needs(34)
  {
  }

  lemma OtherOps()
    ensures !IsPure(DROP) && !IsPure(BR) && !IsPure(RETURN)
    ensures Takes(DROP) && !Opaque(DROP) && Numberers.Needs(DROP) == 0
  {
  }

  lemma NotOp()
    ensures IsPure(55) && Pops(55) == 1 && Fixed(55) == Some(Effect([I32], [I1])) && !Commutes(55)
    ensures !Takes(55) && !IsLeaf(55) && !Opaque(55) && Numberers.Needs(55) == 1
  {
  }

  lemma XorOp()
    ensures IsPure(I32_XOR) && Pops(I32_XOR) == 2 && Fixed(I32_XOR) == Some(Effect([I32, I32], [I32]))
    ensures Commutes(I32_XOR) && !Takes(I32_XOR) && !IsLeaf(I32_XOR) && !Opaque(I32_XOR)
    ensures Numberers.Needs(I32_XOR) == 2
  {
  }

  /** The body numbered. */
  ghost predicate Numb(p: Plan) {
    && BodyOk(p) && p.code == MIXED && p.s == MIXED_STARTS && p.blocks == MIXED_BLOCKS
    && |p.stable| == 1 && p.stable[0] && Numberers.NamedOnce(p.names) && |p.after| == 11 && |p.gen| == 2
    && forall b :: 0 <= b < 2 ==>
         Numberers.Complete(MIXED, MIXED_STARTS, MIXED_BLOCKS, p.after, p.gen, b) &&
         Numberers.Thorough(MIXED, MIXED_STARTS, MIXED_BLOCKS, p.after, b)
  }

  /** An entry whose code is [start, end), of the group a name stands for. */
  ghost predicate EntryIs(names: seq<Key>, x: GSlot, start: int, end: int, key: Key) {
    x.start == start && x.end == end && x.pure && Named(names, x.gid, key)
  }

  /** The group of not x0. */
  ghost predicate IsNot(names: seq<Key>, g: int) {
    0 <= g < |names| && names[g].OpKey? && names[g].op == 55 && |names[g].ids| == 1 &&
        Named(names, names[g].ids[0], LocalKey(0))
  }

  /** The group of the exclusive or, whichever way round. */
  ghost predicate IsMix(names: seq<Key>, g: int) {
    exists e, o :: MixOf(names, g, e, o)
  }

  ghost predicate MixOf(names: seq<Key>, g: int, e: int, o: int) {
    IsNot(names, e) && Named(names, o, LeafKey(ONE)) &&
        Named(names, g, OpKey(I32_XOR, if e > o then [o, e] else [e, o]))
  }

  lemma GetStep(p: Plan, ip: int, b: seq<GSlot>, a: seq<GSlot>)
    requires |p.stable| == 1 && p.stable[0] && (ip == 0 || ip == 18) && Steps(p.names, p.stable, MIXED, ip, b, a)
    ensures |a| == |b| + 1 && a[..|b|] == b && EntryIs(p.names, a[|b|], ip, ip + 2, LocalKey(0))
  {
    hide Opaque, Takes, IsPure, Pops, Pushes, Core, IsLeaf, Width;
    LoadOps();
    MixedWidths();
    assert Operand(MIXED, 0) == 0 && Operand(MIXED, 18) == 0;
  }

  lemma OneStep(p: Plan, ip: int, b: seq<GSlot>, a: seq<GSlot>)
    requires (ip == 3 || ip == 13) && Steps(p.names, p.stable, MIXED, ip, b, a)
    ensures |a| == |b| + 1 && a[..|b|] == b && EntryIs(p.names, a[|b|], ip, ip + 5, LeafKey(ONE))
  {
    hide Opaque, Takes, IsPure, Pops, Pushes, Core, IsLeaf, Width, Operand;
    LoadOps();
    MixedReads();
    MixedWidths();
  }

  lemma NotStep(p: Plan, ip: int, b: seq<GSlot>, a: seq<GSlot>)
    requires (ip == 2 || ip == 20) && Steps(p.names, p.stable, MIXED, ip, b, a) && |b| > 0
    requires EntryIs(p.names, b[|b| - 1], ip - 2, ip, LocalKey(0))
    ensures |a| == |b| && a[..|b| - 1] == b[..|b| - 1]
    ensures var x := a[|b| - 1]; x.start == ip - 2 && x.end == ip + 1 && x.pure && IsNot(p.names, x.gid)
  {
    hide Opaque, Takes, IsPure, Pops, Pushes, Core, IsLeaf, Width, Operand, Commutes, Fixed;
    NotOp();
    MixedWidths();
    var args := b[|b| - 1..];
    assert args == [b[|b| - 1]];
    assert Grouped(args) && AdjacentAt(args, ip, 0) && Gids(args) == [b[|b| - 1].gid];
  }

  lemma XorStep(p: Plan, ip: int, b: seq<GSlot>, a: seq<GSlot>, e: GSlot, o: GSlot)
    requires (ip == 8 || ip == 21) && Steps(p.names, p.stable, MIXED, ip, b, a)
    requires b == if ip == 8 then [e, o] else [o, e]
    requires e.pure && IsNot(p.names, e.gid) && o.pure && Named(p.names, o.gid, LeafKey(ONE))
    requires if ip == 8 then e.end == o.start && o.end == ip else o.end == e.start && e.end == ip
    ensures |a| == 1 && a[0].start == b[0].start && a[0].end == ip + 1 && a[0].pure && a[0].kind == I32
    ensures MixOf(p.names, a[0].gid, e.gid, o.gid)
  {
    hide Opaque, Takes, IsPure, Pops, Pushes, Core, IsLeaf, Width, Operand, Commutes, Fixed;
    XorOp();
    MixedWidths();
    assert b[0..] == b;
    assert AdjacentAt(b, ip, 0) && AdjacentAt(b, ip, 1) && Grouped(b);
    assert Gids(b) == [b[0].gid, b[1].gid];
  }

  lemma SameMix(names: seq<Key>, g: int, h: int)
    requires Numberers.NamedOnce(names) && IsMix(names, g) && IsMix(names, h)
    ensures g == h
  {
    var e, o :| MixOf(names, g, e, o);
    var e', o' :| MixOf(names, h, e', o');
    assert names[names[e].ids[0]] == names[names[e'].ids[0]];
    assert names[e].ids == [names[e].ids[0]] && names[e'].ids == [names[e'].ids[0]];
    assert names[e] == names[e'];
    assert names[o] == names[o'];
  }

  lemma MixedStarts(x: int)
    ensures StartsBlock(MIXED_BLOCKS, x) <==> x == 0 || x == 13
  {
    assert MIXED_BLOCKS[0].start == 0 && MIXED_BLOCKS[1].start == 13;
  }

  lemma MixedBefore(p: Plan, k: nat)
    requires Numb(p) && k < 11
    ensures BeforeOf(p.s, p.blocks, p.after, k) == if k == 0 || k == 6 then Some([]) else p.after[k - 1]
    ensures Blocks.InBlock(MIXED_BLOCKS, if k < 6 then 0 else 1, MIXED_STARTS[k])
  {
    hide BodyOk, Numberers.NamedOnce, Numberers.Complete, Numberers.Thorough;
    MixedStarts(MIXED_STARTS[k]);
  }

  /** Numbering takes instruction k. */
  lemma Goes(p: Plan, k: nat, b: seq<GSlot>)
    requires Numb(p) && k < 11 && BeforeOf(p.s, p.blocks, p.after, k) == Some(b)
    requires Numberers.Steppable(MIXED[MIXED_STARTS[k]], |b|)
    ensures p.after[k].Some? && Steps(p.names, p.stable, MIXED, MIXED_STARTS[k], b, p.after[k].value)
  {
    hide BodyOk, Numberers.NamedOnce, Numberers.Complete, Numberers.Steppable, Steps, BeforeOf, Layout;
    MixedBefore(p, k);
    var bl := if k < 6 then 0 else 1;
    assert Numberers.Thorough(MIXED, MIXED_STARTS, MIXED_BLOCKS, p.after, bl);
    assert Numberers.ThoroughAt(MIXED, MIXED_STARTS, MIXED_BLOCKS, p.after, bl, k);
    Shape(p);
    assert StepAt(p.code, p.s, p.blocks, p.stable, p.names, p.after, k) by { NumberedStep(p, k); }
  }

  lemma NumberedStep(p: Plan, k: nat)
    requires BodyOk(p) && k < |p.s| - 1 && k < |p.after| && p.after[k].Some?
    ensures Layout(p.code, p.s) && |p.after| == |p.s| - 1
    ensures StepAt(p.code, p.s, p.blocks, p.stable, p.names, p.after, k)
  {
    hide BodyOk, StepAt, GenOk, Layout;
    Shape(p);
  }

  /** Block 0 up to its exclusive or. */
  lemma FirstBlock(p: Plan)
    requires Numb(p)
    ensures p.after[1].Some? && |p.after[1].value| == 1
    ensures var x := p.after[1].value[0]; x.start == 0 && x.end == 3 && IsNot(p.names, x.gid)
    ensures p.after[3].Some? && |p.after[3].value| == 1
    ensures var x := p.after[3].value[0];
            x.start == 0 && x.end == 9 && x.pure && x.kind == I32 && IsMix(p.names, x.gid)
  {
    hide Numb, Steps, IsNot, EntryIs, MixOf, BeforeOf, Opaque, Width, BodyOk, Numberers.NamedOnce, Numberers.Needs,
         IsPure, IsLeaf, Takes, Fixed, Pops, Commutes;
    Sizes(p);
    LoadOps();
    NotOp();
    XorOp();
    MixedBefore(p, 0);
    Goes(p, 0, []);
    var a0 := p.after[0].value;
    GetStep(p, 0, [], a0);
    MixedBefore(p, 1);
    Goes(p, 1, a0);
    var a1 := p.after[1].value;
    NotStep(p, 2, a0, a1);
    MixedBefore(p, 2);
    Goes(p, 2, a1);
    var a2 := p.after[2].value;
    OneStep(p, 3, a1, a2);
    EntryHas(p.names, a2[1], 3, 8, LeafKey(ONE));
    MixedBefore(p, 3);
    Goes(p, 3, a2);
    var a3 := p.after[3].value;
    assert a2[..1] == a1;
    assert a2 == [a1[0], a2[1]];
    XorStep(p, 8, a2, a3, a1[0], a2[1]);
  }

  lemma EntryHas(names: seq<Key>, x: GSlot, start: int, end: int, key: Key)
    requires EntryIs(names, x, start, end, key)
    ensures x.start == start && x.end == end && x.pure && Named(names, x.gid, key)
  {
  }

  lemma Sizes(p: Plan)
    requires Numb(p)
    ensures |p.after| == 11 && |p.gen| == 2 && |p.stable| == 1 && p.stable[0] && Numberers.NamedOnce(p.names)
    ensures BodyOk(p) && p.code == MIXED && p.s == MIXED_STARTS && p.blocks == MIXED_BLOCKS
  {
  }

  /** Block 1 up to its exclusive or. */
  lemma SecondBlock(p: Plan)
    requires Numb(p)
    ensures p.after[8].Some? && |p.after[8].value| == 2
    ensures var x := p.after[8].value[1]; x.start == 18 && x.end == 21 && IsNot(p.names, x.gid)
    ensures p.after[9].Some? && |p.after[9].value| == 1
    ensures var x := p.after[9].value[0];
            x.start == 13 && x.end == 22 && x.pure && x.kind == I32 && IsMix(p.names, x.gid)
  {
    hide Numb, Steps, IsNot, EntryIs, MixOf, BeforeOf, Opaque, Width, BodyOk, Numberers.NamedOnce, Numberers.Needs,
         IsPure, IsLeaf, Takes, Fixed, Pops, Commutes;
    Sizes(p);
    LoadOps();
    NotOp();
    XorOp();
    MixedBefore(p, 6);
    Goes(p, 6, []);
    var a6 := p.after[6].value;
    OneStep(p, 13, [], a6);
    EntryHas(p.names, a6[0], 13, 18, LeafKey(ONE));
    MixedBefore(p, 7);
    Goes(p, 7, a6);
    var a7 := p.after[7].value;
    GetStep(p, 18, a6, a7);
    MixedBefore(p, 8);
    Goes(p, 8, a7);
    var a8 := p.after[8].value;
    NotStep(p, 20, a7, a8);
    MixedBefore(p, 9);
    Goes(p, 9, a8);
    var a9 := p.after[9].value;
    assert a7[..1] == a6 && a8[..1] == a7[..1];
    assert a8 == [a6[0], a8[1]];
    XorStep(p, 21, a8, a9, a8[1], a6[0]);
  }

  lemma PureSpots(k: nat)
    requires k < 11
    ensures IsPure(MIXED[MIXED_STARTS[k]]) <==> k == 1 || k == 3 || k == 8 || k == 9
    ensures Blocks.InBlock(MIXED_BLOCKS, 0, MIXED_STARTS[k]) <==> k < 6
    ensures Blocks.InBlock(MIXED_BLOCKS, 1, MIXED_STARTS[k]) <==> k >= 6
  {
    hide IsPure;
    LoadOps();
    OtherOps();
    NotOp();
    XorOp();
  }

  lemma KeyOp(op: Byte, b: seq<GSlot>)
    ensures Numberers.KeyOf(op, b).op == op
  {
  }

  /** Neither exclusive or comes after another of its block. */
  lemma NothingSeen(p: Plan, k: nat, m: int, key: NumKey)
    requires Numb(p) && (k == 3 || k == 9)
    requires Numberers.KeyIs(p.code, p.s, p.blocks, p.after, k, key)
    ensures !Numberers.SeenAt(p.code, p.s, p.blocks, p.after, if k == 3 then 0 else 1, m, k, key)
  {
    hide BodyOk, IsPure, Blocks.InBlock, Numberers.KeyOf, BeforeOf, Numberers.NamedOnce, Numberers.Complete,
         Numberers.Thorough;
    if Numberers.SeenAt(p.code, p.s, p.blocks, p.after, if k == 3 then 0 else 1, m, k, key) {
      PureSpots(m);
      KeyOp(MIXED[MIXED_STARTS[k]], BeforeOf(p.s, p.blocks, p.after, k).value);
      KeyOp(MIXED[MIXED_STARTS[m]], BeforeOf(p.s, p.blocks, p.after, m).value);
    }
  }

  lemma MixIsNot(names: seq<Key>, g: int)
    ensures !(IsMix(names, g) && IsNot(names, g))
    ensures IsMix(names, g) ==> 0 <= g < |names|
  {
  }

  /** Both exclusive ors are recorded. */
  lemma MixRecorded(p: Plan, k: nat)
    requires Numb(p) && (k == 3 || k == 9)
    ensures p.after[k].Some? && |p.after[k].value| == 1 && IsMix(p.names, p.after[k].value[0].gid)
    ensures p.after[k].value[0].gid in p.gen[if k == 3 then 0 else 1]
  {
    hide BodyOk, IsPure, Blocks.InBlock, BeforeOf, Numberers.NamedOnce, Numberers.Thorough, IsMix, IsNot,
         Numberers.KeyIs, Numberers.SeenAt;
    FirstBlock(p);
    SecondBlock(p);
    PureSpots(k);
    var b := if k == 3 then 0 else 1;
    MixIsNot(p.names, p.after[k].value[0].gid);
    assert Numberers.Complete(MIXED, MIXED_STARTS, MIXED_BLOCKS, p.after, p.gen, b);
    assert Numberers.CompleteAt(MIXED, MIXED_STARTS, MIXED_BLOCKS, p.after, p.gen, b, k);
    forall m, key | Numberers.KeyIs(p.code, p.s, p.blocks, p.after, k, key)
      ensures !Numberers.SeenAt(p.code, p.s, p.blocks, p.after, b, m, k, key)
    {
      NothingSeen(p, k, m, key);
    }
  }

  /** What a block can record: its negation and its exclusive or. */
  lemma RecordsAre(p: Plan, b: int, g: int)
    requires Numb(p) && Reuse.Made(p, b, g)
    ensures 0 <= b < 2
    ensures var c := p.gen[b][g];
            if IsMix(p.names, g) then c == if b == 0 then Compute(8, 0, 9, I32, true)
                else Compute(21, 13, 22, I32, true)
            else if b == 0 then c.start == 0 && c.end == 3 else c.start == 18 && c.end == 21
  {
    hide BodyOk, IsPure, Blocks.InBlock, Numberers.NamedOnce, Numberers.Thorough, Numberers.Complete, IsMix, IsNot;
    var k := Recorded(p, b, g);
    PureSpots(k);
    FirstBlock(p);
    SecondBlock(p);
    MixIsNot(p.names, g);
  }

  /** The group of the exclusive ors. */
  ghost function MixGroup(p: Plan): int
    requires |p.after| == 11 && p.after[3].Some? && p.after[3].value != []
  {
    p.after[3].value[0].gid
  }

  /** It is computed in both blocks. */
  lemma MixMade(p: Plan)
    requires Numb(p)
    ensures p.after[3].Some? && p.after[3].value != [] && IsMix(p.names, MixGroup(p))
    ensures MixGroup(p) in p.gen[0] && MixGroup(p) in p.gen[1]
    ensures forall g :: IsMix(p.names, g) ==> g == MixGroup(p)
  {
    hide BodyOk, Numberers.Thorough, Numberers.Complete, IsMix, Numberers.NamedOnce;
    MixRecorded(p, 3);
    MixRecorded(p, 9);
    SameMix(p.names, p.after[3].value[0].gid, p.after[9].value[0].gid);
    forall g | IsMix(p.names, g)
      ensures g == MixGroup(p)
    {
      SameMix(p.names, g, MixGroup(p));
    }
  }

  /** Every path to block 1 has computed it. */
  lemma MixArrives(p: Plan, preds: seq<seq<int>>)
    requires Numb(p) && AvailOk(p) && GvnPass.AvailExact(p, preds)
    ensures p.after[3].Some? && p.after[3].value != []
    ensures |p.avail| == 2 && p.avail[0] == {} && Captures(p, 0, MixGroup(p)) && Reloads(p, 1, MixGroup(p))
  {
    hide BodyOk, Numberers.Thorough, Numberers.Complete, IsMix, Numberers.NamedOnce, Avail.Universe, Avail.Flow,
         Avail.OnEveryPath, Avail.IsPath;
    MixMade(p);
    var g, gens := MixGroup(p), GvnPass.GenSets(p.gen);
    RecordsAre(p, 1, g);
    assert g in gens[0];
    Avail.UniverseHas(gens, 0);
    OnlyThrough(p, preds, g);
  }

  lemma OnlyThrough(p: Plan, preds: seq<seq<int>>, g: int)
    requires p.blocks == MIXED_BLOCKS && |p.gen| == 2 && g in p.gen[0] && GvnPass.PredsAre(p.blocks, preds)
    ensures Avail.OnEveryPath(preds, GvnPass.GenSets(p.gen), 1, g)
  {
    forall path | Avail.IsPath(preds, path) && path[|path| - 1] == 1
      ensures Avail.Generated(GvnPass.GenSets(p.gen), path, |path| - 1, g)
    {
      var n := |path| - 1;
      assert path[n - 1] in preds[path[n]];
      assert MIXED_BLOCKS[1].preds == {0};
      assert path[n - 1] == 0;
    }
  }

  /** The one range the pass chooses to replace: the second exclusive or. */
  ghost function Second(g: int): Redundancy {
    Redundancy(13, 22, I32, g)
  }

  /** The pass chooses the second exclusive or. */
  lemma MixChosen(p: Plan, preds: seq<seq<int>>, red: map<int, Redundancy>, chosen: seq<Redundancy>)
    requires Numb(p) && AvailOk(p) && GvnPass.AvailExact(p, preds) && RedsOk(p, red) && Gvn.Chosen(red, chosen)
    ensures p.after[3].Some? && p.after[3].value != [] && chosen == [Second(MixGroup(p))]
  {
    hide BodyOk, Numberers.Thorough, Numberers.Complete, IsMix, Numberers.NamedOnce, GvnPass.AvailExact, AvailOk,
         Standing, Numb;
    Sizes(p);
    MixMade(p);
    MixArrives(p, preds);
    var g := MixGroup(p);
    var r := Second(g);
    RecordsAre(p, 1, g);
    assert Marked(p, red, 1, g);
    assert r in red.Values;
    forall c | c in red.Values
      ensures c == r || (c.start == 18 && c.end == 21)
    {
      StandsWhere(p, red, c);
    }
    assert TakenOrInside(chosen, r);
    assert r in chosen;
    OnlyOne(chosen, g);
  }

  lemma OnlyOne(chosen: seq<Redundancy>, g: int)
    requires Separate(chosen) && Second(g) in chosen
    requires forall i :: 0 <= i < |chosen| ==> chosen[i] == Second(g) || (chosen[i].start == 18 && chosen[i].end == 21)
    ensures chosen == [Second(g)]
  {
    var n :| 0 <= n < |chosen| && chosen[n] == Second(g);
    var first, last := chosen[0], chosen[|chosen| - 1];
    assert first.end >= 21 && last.start >= 13;
    assert n == 0 && n == |chosen| - 1;
  }

  lemma StandsWhere(p: Plan, red: map<int, Redundancy>, c: Redundancy)
    requires Numb(p) && RedsOk(p, red) && c in red.Values && |p.avail| == 2 && p.avail[0] == {}
    ensures p.after[3].Some? && p.after[3].value != []
    ensures c == Second(MixGroup(p)) || (c.start == 18 && c.end == 21)
  {
    hide BodyOk, Numberers.Thorough, Numberers.Complete, IsMix, Numberers.NamedOnce, Numb;
    Sizes(p);
    MixMade(p);
    Gvn.RedRange(p, red, c);
    var b :| Stands(p, c, b, c.def);
    RecordsAre(p, b, c.def);
  }

  /** Nothing keeps the pass from replacing it. */
  lemma MixTreated(p: Plan, defs: map<int, seq<int>>, chosen: seq<Redundancy>, slots: map<int, nat>, count: nat)
    requires Numb(p) && p.after[3].Some? && p.after[3].value != [] && chosen == [Second(MixGroup(p))]
    requires |p.avail| == 2 && Captures(p, 0, MixGroup(p)) && Reloads(p, 1, MixGroup(p)) && DefsOk(p, defs)
    requires Gvn.Tight(slots, chosen, count, 1)
    ensures count <= 1 && !Gvn.LeftAlone(p, chosen, defs, count, chosen[0])
  {
    hide BodyOk, Numberers.Thorough, Numberers.Complete, IsMix, Numberers.NamedOnce, Numb, DefList,
         Redundancies.Distinct;
    Sizes(p);
    MixMade(p);
    var g := MixGroup(p);
    RecordsAre(p, 0, g);
    assert Listed(p, defs, 0, g);
    forall i | 0 <= i < |DefList(defs, g)|
      ensures !Covers(chosen, DefList(defs, g)[i])
    {
      assert DefsOf(p, defs, g);
      assert Defined(p, g, DefList(defs, g)[i]);
      var b :| DefAt(p, b, g, DefList(defs, g)[i]);
      RecordsAre(p, b, g);
    }
    FewSlots(slots, chosen, count);
  }

  lemma FewSlots(slots: map<int, nat>, chosen: seq<Redundancy>, count: nat)
    requires |chosen| == 1 && Gvn.Tight(slots, chosen, count, 1)
    ensures count <= 1 && forall g :: g in slots ==> g == chosen[0].def && (count == 1 ==> slots[g] == 0)
  {
    assert count > 0 ==> Gvn.Given(slots, 0);
    assert count > 1 ==> Gvn.Given(slots, 1);
  }

  /** The plan captures after the first exclusive or and reloads where the second was. */
  lemma MixEdits(p: Plan, q: Plan, chosen: seq<Redundancy>)
    requires Numb(p) && p.after[3].Some? && p.after[3].value != [] && chosen == [Second(MixGroup(p))]
    requires |p.avail| == 2 && Captures(p, 0, MixGroup(p)) && Reloads(p, 1, MixGroup(p))
    requires Gvn.Amends(p, q) && PlanOk(q) && Gvn.Tight(q.slots, chosen, q.count, 1) && q.count <= 1
    requires Gvn.Reloaded(p, q.slots, chosen, q.es, 0)
    ensures q.es == MIXED_EDITS && IsLoad(q, 1, 1, MixGroup(p))
  {
    hide BodyOk, Numberers.Thorough, Numberers.Complete, IsMix, Numberers.NamedOnce, Numb, AvailOk, IsTee, IsLoad,
         EditsOk, PlanOk;
    Sizes(p);
    PlanHas(q);
    MixMade(p);
    var g := MixGroup(p);
    FewSlots(q.slots, chosen, q.count);
    SlotFacts(q, g);
    forall i | 0 <= i < |q.es|
      ensures q.es[i] == MIXED_EDITS[0] || (q.es[i] == MIXED_EDITS[1] && IsLoad(q, i, 1, g))
    {
      EditIs(p, q, i);
    }
    var e :| e in q.es && Gvn.ReloadsBy(p, q.slots, chosen, e, 0);
    var n :| 0 <= n < |q.es| && q.es[n] == e;
    var m := TeeThere(q, g);
    assert q.es[m] == MIXED_EDITS[0] by { TeeIs(q, m, 0, g); }
    InOrder(q, m, n);
  }

  lemma SlotFacts(q: Plan, g: int)
    requires SlotsOk(q) && q.count <= 1
    ensures g in q.slots ==> q.slots[g] == 0
  {
  }

  lemma TeeThere(q: Plan, g: int) returns (m: int)
    requires EditsOk(q) && g in q.slots && Captures(q, 0, g)
    ensures IsTee(q, m, 0, g)
  {
    hide IsTee, EditOk;
    assert TeeFor(q, 0, g);
    m :| IsTee(q, m, 0, g);
  }

  lemma EditIs(p: Plan, q: Plan, i: nat)
    requires Numb(p) && p.after[3].Some? && p.after[3].value != [] && i < |q.es| && Gvn.Amends(p, q) && EditOk(q, i)
    requires |p.avail| == 2 && Captures(p, 0, MixGroup(p)) && Reloads(p, 1, MixGroup(p))
    requires forall g :: g in q.slots ==> g == MixGroup(p) && q.slots[g] == 0
    ensures q.es[i] == MIXED_EDITS[0] || (q.es[i] == MIXED_EDITS[1] && IsLoad(q, i, 1, MixGroup(p)))
  {
    hide BodyOk, Numberers.Thorough, Numberers.Complete, IsMix, Numberers.NamedOnce, Numb, IsTee, IsLoad;
    Sizes(p);
    MixMade(p);
    if b, g :| IsTee(q, i, b, g) {
      TeeIs(q, i, b, g);
      RecordsAre(p, b, g);
    } else {
      var b, g :| IsLoad(q, i, b, g);
      LoadIs(q, i, b, g);
      RecordsAre(p, b, g);
    }
  }

  lemma InOrder(q: Plan, m: int, n: int)
    requires EditsOk(q) && |q.code| == 23 && 0 <= m < |q.es| && 0 <= n < |q.es|
    requires q.es[m] == MIXED_EDITS[0] && q.es[n].start == 13
    requires forall i :: 0 <= i < |q.es| ==> q.es[i] == MIXED_EDITS[0] || q.es[i] == MIXED_EDITS[1]
    ensures q.es == MIXED_EDITS && n == 1
  {
    hide EditOk, TeeFor, Captures;
    assert q.es[n] == MIXED_EDITS[1];
    assert m < n;
    var first, second, last := q.es[0], q.es[1], q.es[|q.es| - 1];
    assert first.end >= 9 && second.end >= 9 && last.start >= 9;
    assert m == 0 && n == |q.es| - 1;
    assert n == 1;
  }

  lemma MixPlaces()
    ensures var es := MIXED_EDITS;
            && To(es, 0) == 0 && To(es, 2) == 2 && To(es, 3) == 3 && To(es, 8) == 8 && To(es, 9) == 11
            && To(es, 10) == 12 && To(es, 13) == 15 && To(es, 22) == 17 && To(es, 23) == 18
            && TextStart(es, 0) == 9 && TextStart(es, 1) == 15
            && forall x :: Inside(es, 2, x) ==> 13 <= x < 22
  {
    var es := MIXED_EDITS;
    assert Shift(es, 0) == 0 && Shift(es, 1) == 2 && Shift(es, 2) == -5;
    forall x
      ensures To(es, x) == if x >= 22 then x - 5 else if x >= 13 then 15 else if x >= 9 then x + 2 else x
    {
      MixPlace(x);
    }
  }

  lemma MixPlace(x: int)
    ensures To(MIXED_EDITS, x) == if x >= 22 then x - 5 else if x >= 13 then 15 else if x >= 9 then x + 2 else x
  {
    var es := MIXED_EDITS;
    assert Shift(es, 0) == 0 && Shift(es, 1) == 2 && Shift(es, 2) == -5;
    assert Place(es, 0, x) == x;
    assert Place(es, 1, x) == if x >= 9 then x + 2 else x;
  }

  lemma Piece(out: seq<Byte>, k: int)
    requires Layout(MIXED, MIXED_STARTS) && 0 <= k < 11 && k != 5
    requires Splicer.Moved(MIXED, MIXED_EDITS, MIXED_STARTS, out, k)
    ensures var ip, at := MIXED_STARTS[k], To(MIXED_EDITS, MIXED_STARTS[k]);
            && 0 <= at && at + Width(MIXED, ip) <= |out| && ip + Width(MIXED, ip) <= 23
            && out[at..at + Width(MIXED, ip)] == MIXED[ip..ip + Width(MIXED, ip)]
  {
    hide Width, To, Target, Layout;
  }

  lemma MixFits()
    ensures Layout(MIXED, MIXED_STARTS) && AllFit(MIXED, MIXED_EDITS, MIXED_STARTS, 11)
  {
    hide Width, Target, Arms, Core, To, Blocks.EndsBlock;
    MixedArms();
    MixPlaces();
  }

  /** The edited body. */
  lemma MixOut(out: seq<Byte>)
    requires Layout(MIXED, MIXED_STARTS) && Splicer.Faithful(MIXED, [], MIXED_EDITS, MIXED_STARTS, out, [])
    ensures out == RELOADED
  {
    hide Width, Target, Arms, Core, To, Layout, Inside, TextStart, Blocks.EndsBlock;
    MixedWidths();
    MixedArms();
    MixPlaces();
    forall k | k in {0, 1, 2, 3, 4, 5, 10}
      ensures Splicer.Moved(MIXED, MIXED_EDITS, MIXED_STARTS, out, k)
    {
      assert Unedited(MIXED, MIXED_EDITS, MIXED_STARTS, k);
    }
    assert TextAt(MIXED_EDITS, out, 0) && TextAt(MIXED_EDITS, out, 1);
    PiecesAre(out);
  }

  lemma PiecesAre(out: seq<Byte>)
    requires Layout(MIXED, MIXED_STARTS) && |out| == To(MIXED_EDITS, 23)
    requires forall k :: k in {0, 1, 2, 3, 4, 5, 10} ==> Splicer.Moved(MIXED, MIXED_EDITS, MIXED_STARTS, out, k)
    requires TextAt(MIXED_EDITS, out, 0) && TextAt(MIXED_EDITS, out, 1)
    ensures out == RELOADED
  {
    hide Width, Target, Arms, Core, To, Layout, TextStart, Blocks.EndsBlock;
    MixedWidths();
    MixedArms();
    MixPlaces();
    Piece(out, 0);
    Piece(out, 1);
    Piece(out, 2);
    Piece(out, 3);
    Piece(out, 4);
    Piece(out, 10);
    assert out[0..2] == MIXED[0..2] && out[2..3] == MIXED[2..3] && out[3..8] == MIXED[3..8];
    assert out[8..9] == MIXED[8..9] && out[9..11] == [LOCAL_TEE, 1] && out[11..12] == MIXED[9..10];
    assert out[15..17] == [LOCAL_GET, 1] && out[17..18] == MIXED[22..23];
    assert Splicer.Moved(MIXED, MIXED_EDITS, MIXED_STARTS, out, 5);
    assert out[12] == BR;
    Branch(out);
    Glued(out);
  }

  lemma Glued(out: seq<Byte>)
    requires |out| == 18 && out[0..2] == MIXED[0..2] && out[2..3] == MIXED[2..3] && out[3..8] == MIXED[3..8]
    requires out[8..9] == MIXED[8..9] && out[9..11] == [LOCAL_TEE, 1] && out[11..12] == MIXED[9..10]
    requires out[12..15] == [BR, 0, 0] && out[15..17] == [LOCAL_GET, 1] && out[17..18] == MIXED[22..23]
    ensures out == RELOADED
  {
    MixedBytes();
    assert out[0] == out[0..2][0] == MIXED[0] && out[1] == out[0..2][1] == MIXED[1];
    assert out[2] == out[2..3][0] == MIXED[2];
    assert forall x :: 3 <= x < 8 ==> out[x] == out[3..8][x - 3] == MIXED[3..8][x - 3] == MIXED[x];
    assert out[8] == out[8..9][0] == MIXED[8] && out[11] == out[11..12][0] == MIXED[9];
    assert out[9] == out[9..11][0] == LOCAL_TEE && out[10] == out[9..11][1] == 1;
    assert out[12] == out[12..15][0] == BR && out[13] == out[12..15][1] == 0 && out[14] == out[12..15][2] == 0;
    assert out[15] == out[15..17][0] == LOCAL_GET && out[16] == out[15..17][1] == 1;
    assert out[17] == out[17..18][0] == MIXED[22];
  }

  lemma Branch(out: seq<Byte>)
    requires |out| == 18 && out[12] == BR && Target(out, 12, 0) == 15
    ensures out[12..15] == [BR, 0, 0]
  {
    assert I16(out[13], out[14]) == 0;
  }

  /** The captured exclusive or and the reloaded one, as they stand in the code. */
  ghost const CAPTURED: Term := OpTerm(I32_XOR, [NOT, LeafTerm(ONE)])

  ghost const REPLACED: Term := OpTerm(I32_XOR, [LeafTerm(ONE), NOT])

  lemma GetTerm(stable: seq<bool>, ip: int, b: seq<Term>)
    requires |stable| == 1 && stable[0] && (ip == 0 || ip == 18)
    ensures TermStep(stable, MIXED, ip, b) == b + [LocalTerm(0)]
  {
    hide Opaque, Takes, IsPure, IsLeaf, Pops, Pushes;
    LoadOps();
  }

  lemma OneTerm(stable: seq<bool>, ip: int, b: seq<Term>)
    requires ip == 3 || ip == 13
    ensures TermStep(stable, MIXED, ip, b) == b + [LeafTerm(ONE)]
  {
    hide Opaque, Takes, IsPure, IsLeaf, Pops, Pushes, Core;
    LoadOps();
    MixedReads();
  }

  lemma NotTerm(stable: seq<bool>, ip: int, b: seq<Term>)
    requires ip == 2 || ip == 20
    ensures TermStep(stable, MIXED, ip, b + [LocalTerm(0)]) == b + [NOT]
  {
    hide Opaque, Takes, IsPure, IsLeaf, Pops, Pushes, Core, Fixed, Commutes;
    NotOp();
    var ts := b + [LocalTerm(0)];
    assert ts[|ts| - 1..] == [LocalTerm(0)] && ts[..|ts| - 1] == b;
  }

  lemma XorTerm(stable: seq<bool>, ip: int, x: Term, y: Term)
    requires (ip == 8 || ip == 21) && x != Unknown && y != Unknown
    ensures TermStep(stable, MIXED, ip, [x, y]) == [OpTerm(I32_XOR, [x, y])]
  {
    hide Opaque, Takes, IsPure, IsLeaf, Pops, Pushes, Core, Fixed, Commutes;
    XorOp();
    var ts := [x, y];
    assert ts[0..] == ts && ts[..0] == [];
  }

  lemma MixedTerms(p: Plan)
    requires Numb(p)
    ensures Layout(p.code, p.s) && After(p, 3) == [CAPTURED] && After(p, 9) == [REPLACED]
  {
    hide BodyOk, TermStep, Numberers.Thorough, Numberers.Complete, Numberers.NamedOnce, Layout;
    Shape(p);
    MixedStarts(0);
    MixedStarts(2);
    MixedStarts(3);
    MixedStarts(8);
    GetTerm(p.stable, 0, []);
    assert After(p, 0) == [LocalTerm(0)];
    NotTerm(p.stable, 2, []);
    assert [] + [LocalTerm(0)] == [LocalTerm(0)];
    assert After(p, 1) == [NOT];
    OneTerm(p.stable, 3, [NOT]);
    assert After(p, 2) == [NOT, LeafTerm(ONE)];
    XorTerm(p.stable, 8, NOT, LeafTerm(ONE));
    MixedStarts(13);
    MixedStarts(18);
    MixedStarts(20);
    MixedStarts(21);
    OneTerm(p.stable, 13, []);
    assert After(p, 6) == [LeafTerm(ONE)];
    GetTerm(p.stable, 18, [LeafTerm(ONE)]);
    assert After(p, 7) == [LeafTerm(ONE)] + [LocalTerm(0)];
    NotTerm(p.stable, 20, [LeafTerm(ONE)]);
    assert After(p, 8) == [LeafTerm(ONE), NOT];
    XorTerm(p.stable, 21, LeafTerm(ONE), NOT);
  }

  /** The two differ in the order of an exclusive or's operands, and their kinds differ with it. */
  lemma OtherWay()
    ensures !SameWay(CAPTURED, REPLACED) && Typed(CAPTURED) && Typed(REPLACED)
  {
    hide IsPure, Pops, OnI32, MakesI32, Commutes, TagTerm, MadeTag, SameOrder, Typed;
    NotFirst();
    var tg: Tags := (t: Term) => IntCode.I32_TAG;
    MixTags(tg);
    assert AllTags(tg) && TagTerm(tg, CAPTURED) != TagTerm(tg, REPLACED);
    MixTyped();
  }

  lemma NotFirst()
    ensures !SameOrder(CAPTURED, REPLACED)
  {
    hide Commutes;
    assert !SameOrder(NOT, LeafTerm(ONE));
    assert CAPTURED.args[0] == NOT && REPLACED.args[0] == LeafTerm(ONE);
    assert !AllSameOrder(CAPTURED.args, REPLACED.args);
  }

  lemma MixTags(tg: Tags)
    ensures TagTerm(tg, CAPTURED) == IntCode.I1_TAG && TagTerm(tg, REPLACED) == IntCode.I32_TAG
  {
    hide MadeTag;
    NotI32();
    assert TagTerm(tg, NOT) == IntCode.I1_TAG && TagTerm(tg, LeafTerm(ONE)) == IntCode.I32_TAG;
    assert CAPTURED.args[0] == NOT && CAPTURED.args[1] == LeafTerm(ONE);
    assert REPLACED.args[0] == LeafTerm(ONE) && REPLACED.args[1] == NOT;
  }

  lemma MixTyped()
    ensures Typed(CAPTURED) && Typed(REPLACED)
  {
    hide IsPure, Pops, OnI32, MakesI32;
    NotOp();
    XorOp();
    BitOpIs(I32_XOR);
    NotI32();
    assert TypedArg(55, LocalTerm(0));
    assert TypedArg(I32_XOR, NOT) && TypedArg(I32_XOR, LeafTerm(ONE));
  }

  lemma NotI32()
    ensures OnI32(55) && MakesI32(55) && MadeTag(55) == IntCode.I1_TAG && !Stacks.Bitwise(55)
  {
  }

  lemma MixedMade(p: Plan)
    requires Numb(p)
    ensures Layout(p.code, p.s) && p.after[3].Some? && p.after[3].value != []
    ensures var g := MixGroup(p);
            && Reuse.Made(p, 0, g) && Reuse.Made(p, 1, g)
            && MadeTerm(p, 0, g) == CAPTURED && MadeTerm(p, 1, g) == REPLACED
  {
    hide BodyOk, Layout, MadeTerm, After, Numb, IsMix;
    Sizes(p);
    MixMade(p);
    RecordsAre(p, 0, MixGroup(p));
    RecordsAre(p, 1, MixGroup(p));
    MixedTerms(p);
    MadeIs(p, 0, MixGroup(p), 3);
    MadeIs(p, 1, MixGroup(p), 9);
  }

  lemma MixSupplies(q: Plan, g: int)
    requires q.blocks == MIXED_BLOCKS && |q.avail| == 2 && Captures(q, 0, g) && g in q.avail[1]
    ensures Supplies(q, g, 0, 1)
  {
    assert MIXED_BLOCKS[1].preds == {0};
    assert CarriesTo(q, g, 0, 1, [0, 1]);
  }

  /** The plan is not oriented. */
  lemma MixedTurned(p: Plan, q: Plan, g: int)
    requires Numb(p) && Gvn.Amends(p, q) && |p.avail| == 2 && IsLoad(q, 1, 1, g)
    requires p.after[3].Some? && p.after[3].value != [] && g == MixGroup(p) && Captures(p, 0, g) && Reloads(p, 1, g)
    ensures Layout(q.code, q.s) && Pair(q, 1, 1, g, 0) && !Oriented(q)
    ensures MadeTerm(q, 0, g) == CAPTURED && MadeTerm(q, 1, g) == REPLACED
  {
    hide BodyOk, Layout, SameWay, IsLoad, MadeTerm, Numb, Supplies, Numberers.NamedOnce;
    Sizes(p);
    MixedMade(p);
    GvnPass.SameMade(p, q, 0, g);
    GvnPass.SameMade(p, q, 1, g);
    MixSupplies(q, g);
    OtherWay();
    assert !OrientedAt(q, 1, 1, g, 0);
  }

  lemma MixedStarted()
    ensures Layout(MIXED, MIXED_STARTS) && GvnPass.OneEntry(MIXED_BLOCKS)
    ensures GvnPass.LocalsNamed(MIXED, MIXED_STARTS, 1) && NeverAssigned(MIXED, MIXED_STARTS, 11, 0)
  {
    hide Layout;
    MixedReads();
    assert Operand(MIXED, 0) == 0 && Operand(MIXED, 18) == 0;
  }

  /** Only one computation is reloaded, and only one captured for it. */
  ghost predicate OnePair(q: Plan, g: int) {
    |q.stable| == 1 && q.count == 1 && forall i, b, h, c :: Pair(q, i, b, h, c) ==> b == 1 && h == g && c == 0
  }

  lemma MixAlone(p: Plan, q: Plan, chosen: seq<Redundancy>)
    requires Numb(p) && p.after[3].Some? && p.after[3].value != [] && chosen == [Second(MixGroup(p))]
    requires |p.avail| == 2 && Captures(p, 0, MixGroup(p)) && Reloads(p, 1, MixGroup(p)) && Gvn.Amends(p, q)
    requires Gvn.Tight(q.slots, chosen, q.count, 1) && MixGroup(p) in q.slots && PlanOk(q)
    ensures OnePair(q, MixGroup(p))
  {
    hide Supplies, BodyOk, Numberers.Thorough, Numberers.Complete, Numberers.NamedOnce;
    FewSlots(q.slots, chosen, q.count);
    PlanHas(q);
    forall i, b, h, c | Pair(q, i, b, h, c)
      ensures b == 1 && h == MixGroup(p) && c == 0
    {
      LoadIs(q, i, b, h);
    }
  }

  /** What the pass makes of the body. */
  method MixedRewritten() returns (r: Option<(seq<Byte>, seq<Type>)>, ghost q: Plan, ghost g: int)
    ensures r.Some? && r.value.0 == RELOADED && |r.value.1| == 1
    ensures q.code == MIXED && PlanOk(q) && Layout(q.code, q.s) && !Oriented(q) && Pair(q, 1, 1, g, 0)
    ensures MadeTerm(q, 0, g) == CAPTURED && MadeTerm(q, 1, g) == REPLACED && OnePair(q, g)
  {
    hide Layout, Blocks.Targeted, Blocks.InRange, Blocks.TablesEndBlocks, Blocks.IsCfg, GvnPass.OneEntry,
         GvnPass.LocalsNamed, NeverAssigned, BodyOk, Numberers.Thorough, Numberers.Complete, Numberers.NamedOnce,
         Oriented, AvailOk, RedsOk, DefsOk, GvnPass.AvailExact, Gvn.Chosen, PlanOk, SameBehaviour, Splicer.Faithful,
         Gvn.Tight, Gvn.LeftAlone, Gvn.Reloaded, AllFit, MadeTerm, Pair, OnePair;
    MixedStarted();
    MixedCfg();
    MixedTargets();
    ghost var p, preds, red, defs, chosen;
    r, p, q, preds, red, defs, chosen := GvnPass.Run(MIXED, [Prim(I32)], MIXED_BLOCKS, true, MIXED_STARTS);
    Shape(p);
    assert Numb(p);
    MixMade(p);
    g := MixGroup(p);
    MixArrives(p, preds);
    MixChosen(p, preds, red, chosen);
    MixTreated(p, defs, chosen, q.slots, q.count);
    MixEdits(p, q, chosen);
    MixedTurned(p, q, g);
    MixAlone(p, q, chosen);
    MixFits();
    if r.Some? {
      MixOut(r.value.0);
      PlanHas(q);
      MixCount(q, chosen);
    }
  }

  lemma MixCount(q: Plan, chosen: seq<Redundancy>)
    requires |chosen| == 1 && Gvn.Tight(q.slots, chosen, q.count, 1) && q.count > 0
    ensures q.count == 1
  {
    FewSlots(q.slots, chosen, q.count);
  }

  /** Dropping, branching and returning do what they do. */
  ghost predicate Plain(sem: Semantics) {
    forall st, v :: PlainAt(sem, st, v)
  }

  ghost predicate PlainAt(sem: Semantics, st: State, v: int) {
    sem([DROP], IntCode.Push(st, v)) == Next(st) && sem([BR], st) == Jump(0, st) && sem([RETURN], st) == Stop(st)
  }

  lemma ReaderPlain(env: Env)
    ensures Plain(Reader(env))
  {
    hide PlainAt, Reader;
    forall st: State, v: int
      ensures PlainAt(Reader(env), st, v)
    {
      ReaderPlainAt(env, st, v);
    }
  }

  lemma ReaderPlainAt(env: Env, st: State, v: int)
    ensures PlainAt(Reader(env), st, v)
  {
    hide IsPure, Pops;
    PureByOpcode(DROP);
    PureByOpcode(BR);
    PureByOpcode(RETURN);
    assert (st.stack + [v])[..|st.stack|] == st.stack;
  }

  lemma OneReads()
    ensures IntCode.ConstOf(ONE) == Some((W32, 1)) && IntCode.BinOf(I32_XOR) == Some((W32, Xor))
    ensures IntCode.ZeroTest(55) == Some(W32)
  {
    assert ONE[1..] == [1, 0, 0, 0];
    assert Codec.Read([]) == 0 && Codec.Read([0]) == 0 && Codec.Read([0, 0]) == 0 && Codec.Read([0, 0, 0]) == 0;
    assert [1, 0, 0, 0][1..] == [0, 0, 0] && [0, 0, 0][1..] == [0, 0] && [0, 0][1..] == [0] && [0][1..] == [];
    assert Codec.Read([1, 0, 0, 0]) == 1;
  }

  /** Exclusive or of two single bits. */
  lemma BitXor(a: int, b: int)
    requires 0 <= a < 2 && 0 <= b < 2
    ensures Apply(W32, Xor, a, b) == Num(if a == b then 0 else 1)
  {
    hide Pow2, Integers.Bitwise, Quo;
    BitXors(a, b, 32);
  }

  lemma BitXors(a: nat, b: nat, n: nat)
    requires a < 2 && b < 2 && n > 0
    ensures Integers.Bitwise(Xor, a, b, n) == if a == b then 0 else 1
  {
    hide Pow2;
    BitwiseZero(Xor, 0, n - 1);
    assert a / 2 == 0 && b / 2 == 0;
  }

  lemma Gets(sem: Semantics, env: Env, st: State, i: nat)
    requires Standard(sem, env) && i < |st.locals| && i < 256
    ensures sem([LOCAL_GET, i], st) == Next(IntCode.Push(st, st.locals[i]))
  {
    hide Effects, Blind, IsPure, IsLeaf, Pops;
    assert Does(sem, env, [LOCAL_GET, i], st);
  }

  lemma Tees(sem: Semantics, env: Env, st: State, v: int)
    requires Standard(sem, env) && |st.locals| == 2
    ensures sem([LOCAL_TEE, 1], IntCode.Push(st, v)) ==
      Next(IntCode.Push(State(st.stack, [st.locals[0], v], st.world), v))
  {
    hide Effects, Blind, IsPure, IsLeaf, Pops;
    assert Does(sem, env, [LOCAL_TEE, 1], IntCode.Push(st, v));
    assert st.locals[1 := v] == [st.locals[0], v];
  }

  function BitOf(b: bool): int {
    if b then 1 else 0
  }

  lemma Nots(sem: Semantics, pool: seq<int>, vals: IntCode.Values, st: State, x: int, t: int)
    requires IntCode.Reads(sem, pool, vals) && IntCode.IsTag(t) && IsSigned(W32, x)
    ensures sem([55], IntCode.Push(st, vals.word(t, x))) ==
      Next(IntCode.Push(st, vals.word(IntCode.I1_TAG, BitOf(x == 0))))
  {
    hide IntCode.LoadAt, IntCode.BinAt, IntCode.ZeroTest, IsSigned;
    OneReads();
    assert IntCode.UnAt(sem, vals, 55, st, x, t);
  }

  lemma Ones(sem: Semantics, pool: seq<int>, vals: IntCode.Values, st: State)
    requires IntCode.Reads(sem, pool, vals)
    ensures sem(ONE, st) == Next(IntCode.Push(st, vals.word(IntCode.I32_TAG, 1)))
  {
    hide IntCode.UnAt, IntCode.BinAt, IntCode.ConstOf;
    OneReads();
    assert IntCode.LoadAt(sem, pool, vals, ONE, st);
  }

  /** Exclusive or keeps the kind of its left operand. */
  lemma Xors(sem: Semantics, pool: seq<int>, vals: IntCode.Values, st: State, s: int, a: int, t: int, b: int)
    requires IntCode.Reads(sem, pool, vals) && IntCode.IsTag(s) && IntCode.IsTag(t) && 0 <= a < 2 && 0 <= b < 2
    ensures sem([I32_XOR], IntCode.Push(IntCode.Push(st, vals.word(s, a)), vals.word(t, b))) ==
      Next(IntCode.Push(st, vals.word(s, BitOf(a != b))))
  {
    hide IntCode.UnAt, IntCode.LoadAt, IntCode.BinOf, Apply;
    OneReads();
    BitXor(a, b);
    assert IntCode.BinAt(sem, vals, I32_XOR, st, a, b, s, t);
  }

  lemma JumpOn(sem: Semantics, land: Land, code: seq<Byte>, c: Config, n: nat, ip: int, a: State)
    requires Run(sem, land, code, [], c, n) == Config.At(ip, a) && 0 <= ip < |code|
    requires sem(Core(code, ip), a) == Jump(0, a)
    ensures Run(sem, land, code, [], c, n + 1) == Config.At(Target(code, ip, 0), a)
  {
  }

  lemma StopOn(sem: Semantics, land: Land, code: seq<Byte>, c: Config, n: nat, ip: int, a: State)
    requires Run(sem, land, code, [], c, n) == Config.At(ip, a) && 0 <= ip < |code| && sem(Core(code, ip), a) == Stop(a)
    ensures Run(sem, land, code, [], c, n + 1) == Config.Halted(a)
  {
  }

  /** The original ends with an i32. */
  lemma MixedEnds(sem: Semantics, land: Land, pool: seq<int>, vals: IntCode.Values, env: Env, x: int, t: int,
                  world: int)
    requires Standard(sem, env) && IntCode.Reads(sem, pool, vals) && Plain(sem) && IntCode.IsTag(t) && IsSigned(W32, x)
    ensures var locals := [vals.word(t, x)];
            Run(sem, land, MIXED, [], Config.At(0, State([], locals, world)), 11) ==
              Config.Halted(State([vals.word(IntCode.I32_TAG, BitOf(x != 0))], locals, world))
  {
    hide Standard, IntCode.Reads, Plain, Run, Core, Width, Target, Layout, IsSigned;
    MixedReads();
    MixedWidths();
    MixedArms();
    var locals := [vals.word(t, x)];
    var st, e, f := State([], locals, world), BitOf(x == 0), BitOf(x != 0);
    var got, not, one := IntCode.Push(st, locals[0]), IntCode.Push(st, vals.word(6, e)),
        IntCode.Push(st, vals.word(4, 1));
    var c := Config.At(0, st);
    EditRuns.NoSteps(sem, land, MIXED, [], c);
    Gets(sem, env, st, 0);
    AlgebraRuns.RunOn(sem, land, MIXED, c, 0, 0, st, got);
    Nots(sem, pool, vals, st, x, t);
    AlgebraRuns.RunOn(sem, land, MIXED, c, 1, 2, got, not);
    Ones(sem, pool, vals, not);
    AlgebraRuns.RunOn(sem, land, MIXED, c, 2, 3, not, IntCode.Push(not, vals.word(4, 1)));
    Xors(sem, pool, vals, st, 6, e, 4, 1);
    AlgebraRuns.RunOn(sem, land, MIXED, c, 3, 8, IntCode.Push(not, vals.word(4, 1)), IntCode.Push(st, vals.word(6, f)));
    Drops(sem, st, vals.word(6, f));
    AlgebraRuns.RunOn(sem, land, MIXED, c, 4, 9, IntCode.Push(st, vals.word(6, f)), st);
    JumpOn(sem, land, MIXED, c, 5, 10, st);
    Ones(sem, pool, vals, st);
    AlgebraRuns.RunOn(sem, land, MIXED, c, 6, 13, st, one);
    Gets(sem, env, one, 0);
    AlgebraRuns.RunOn(sem, land, MIXED, c, 7, 18, one, IntCode.Push(one, locals[0]));
    Nots(sem, pool, vals, one, x, t);
    AlgebraRuns.RunOn(sem, land, MIXED, c, 8, 20, IntCode.Push(one, locals[0]), IntCode.Push(one, vals.word(6, e)));
    Xors(sem, pool, vals, st, 4, 1, 6, e);
    AlgebraRuns.RunOn(sem, land, MIXED, c, 9, 21, IntCode.Push(one, vals.word(6, e)),
        IntCode.Push(st, vals.word(4, f)));
    Drops(sem, IntCode.Push(st, vals.word(4, f)), 0);
    StopOn(sem, land, MIXED, c, 10, 22, IntCode.Push(st, vals.word(4, f)));
    assert IntCode.Push(st, vals.word(4, f)).stack == [vals.word(4, f)];
  }

  lemma Drops(sem: Semantics, st: State, v: int)
    requires Plain(sem)
    ensures sem([DROP], IntCode.Push(st, v)) == Next(st) && sem([BR], st) == Jump(0, st)
    ensures sem([RETURN], st) == Stop(st)
  {
    assert PlainAt(sem, st, v);
  }

  /** The rewritten body ends with a truth value. */
  lemma ReloadedEnds(sem: Semantics, land: Land, pool: seq<int>, vals: IntCode.Values, env: Env, x: int, t: int,
                     world: int, held: int)
    requires Standard(sem, env) && IntCode.Reads(sem, pool, vals) && Plain(sem) && IntCode.IsTag(t) && IsSigned(W32, x)
    ensures var f := vals.word(IntCode.I1_TAG, BitOf(x != 0));
            Run(sem, land, RELOADED, [], Config.At(0, State([], [vals.word(t, x), held], world)), 9) ==
              Config.Halted(State([f], [vals.word(t, x), f], world))
  {
    hide Standard, IntCode.Reads, Plain, Run, Core, Width, Target, IsSigned;
    ReloadedReads();
    var st, e, f := State([], [vals.word(t, x), held], world), BitOf(x == 0), BitOf(x != 0);
    var st' := State([], [vals.word(t, x), vals.word(6, f)], world);
    var got, not := IntCode.Push(st, st.locals[0]), IntCode.Push(st, vals.word(6, e));
    var c := Config.At(0, st);
    EditRuns.NoSteps(sem, land, RELOADED, [], c);
    Gets(sem, env, st, 0);
    AlgebraRuns.RunOn(sem, land, RELOADED, c, 0, 0, st, got);
    Nots(sem, pool, vals, st, x, t);
    AlgebraRuns.RunOn(sem, land, RELOADED, c, 1, 2, got, not);
    Ones(sem, pool, vals, not);
    AlgebraRuns.RunOn(sem, land, RELOADED, c, 2, 3, not, IntCode.Push(not, vals.word(4, 1)));
    Xors(sem, pool, vals, st, 6, e, 4, 1);
    AlgebraRuns.RunOn(sem, land, RELOADED, c, 3, 8, IntCode.Push(not, vals.word(4, 1)),
                      IntCode.Push(st, vals.word(6, f)));
    Tees(sem, env, st, vals.word(6, f));
    AlgebraRuns.RunOn(sem, land, RELOADED, c, 4, 9, IntCode.Push(st, vals.word(6, f)),
                      IntCode.Push(st', vals.word(6, f)));
    Drops(sem, st', vals.word(6, f));
    AlgebraRuns.RunOn(sem, land, RELOADED, c, 5, 11, IntCode.Push(st', vals.word(6, f)), st');
    JumpOn(sem, land, RELOADED, c, 6, 12, st');
    Gets(sem, env, st', 1);
    AlgebraRuns.RunOn(sem, land, RELOADED, c, 7, 15, st', IntCode.Push(st', vals.word(6, f)));
    Drops(sem, IntCode.Push(st', vals.word(6, f)), 0);
    StopOn(sem, land, RELOADED, c, 8, 17, IntCode.Push(st', vals.word(6, f)));
    assert IntCode.Push(st', vals.word(6, f)).stack == [vals.word(6, f)];
  }

  lemma MixedFed(vals: IntCode.Values, env: Env, x: int, t: int)
    requires Reckons(env, vals) && env.locals == [vals.word(t, x)] && IntCode.IsTag(t) && IsSigned(W32, x)
    ensures Fed(env, vals, CAPTURED)
  {
    hide IsSigned, OnI32, BitsAt;
    NotI32();
    BitOpIs(I32_XOR);
    assert ConstAt(env, vals, ONE);
    assert IsWord(vals, env.locals[0], t, x);
    assert WordIn(env, vals, LocalTerm(0)) && WordIn(env, vals, LeafTerm(ONE));
    assert FedArg(env, vals, 55, LocalTerm(0));
    assert FedArg(env, vals, I32_XOR, NOT) && FedArg(env, vals, I32_XOR, LeafTerm(ONE));
  }

  /** On every machine that tells the kinds apart the rewritten body does not end as the original does. */
  lemma MixedDiffers(sem: Semantics, land: Land, pool: seq<int>, vals: IntCode.Values, env: Env, x: int, t: int,
                     world: int, held: int)
    requires Standard(sem, env) && IntCode.Reads(sem, pool, vals) && Plain(sem) && IntCode.IsTag(t) && IsSigned(W32, x)
    requires IntCode.Distinct(vals)
    ensures !Forth(sem, land, MIXED, RELOADED, State([], [vals.word(t, x)], world), [held])
  {
    hide Standard, IntCode.Reads, Plain, Run, IsSigned;
    var a := State([], [vals.word(t, x)], world);
    MixedEnds(sem, land, pool, vals, env, x, t, world);
    ReloadedEnds(sem, land, pool, vals, env, x, t, world, held);
    var c := Config.At(0, Plus(a, [held]));
    assert Plus(a, [held]) == State([], [vals.word(t, x), held], world);
    var y := Run(sem, land, RELOADED, [], c, 9);
    assert y.state.stack[0] == vals.word(IntCode.I1_TAG, BitOf(x != 0));
    forall m: nat
      ensures !Reuse.Ends(sem, land, MIXED, RELOADED, a, [held], 11, m)
    {
      if Reuse.Ends(sem, land, MIXED, RELOADED, a, [held], 11, m) {
        HaltsOnce(sem, land, RELOADED, c, 9, m);
      }
    }
  }

  lemma HaltsOnce(sem: Semantics, land: Land, code: seq<Byte>, c: Config, n: nat, m: nat)
    requires Run(sem, land, code, [], c, n).Halted? && Run(sem, land, code, [], c, m).Halted?
    ensures Run(sem, land, code, [], c, n) == Run(sem, land, code, [], c, m)
  {
    hide Run;
    if n <= m {
      FinishedStays(sem, land, code, [], c, n, m);
    } else {
      FinishedStays(sem, land, code, [], c, m, n);
    }
  }

  /** So the pass does not keep this body's behaviour: on some machine that reads the opcodes as the handlers do the two
      bodies end with different stacks. */
  lemma MixedFails(q: Plan, g: int)
    requires Layout(q.code, q.s) && q.code == MIXED && OnePair(q, g) && Pair(q, 1, 1, g, 0)
    requires MadeTerm(q, 0, g) == CAPTURED
    ensures !SameBehaviour(q, RELOADED)
  {
    hide Layout, MadeTerm, Pair, SameOrder, Fed, Standard, IntCode.Reads, Uniform, Sensible, Plain, Forth, Back,
         IsSigned;
    var vals := IntCode.Spares();
    var locals := [vals.word(4, 0)];
    var env := Readings.CalcEnv(locals, []);
    var sem, land: Land := Reader(env), (d: int, st: State) => st;
    Readings.SomeMachine(locals, []);
    Reckoned(sem, [], vals, env);
    ReaderPlain(env);
    ZeroFits();
    MixedFed(vals, env, 0, 4);
    forall i, b, h, c
      ensures FedAt(q, env, vals, i, b, h, c)
    {
    }
    var a := State([], locals, 0);
    MixedDiffers(sem, land, [], vals, env, 0, 4, 0, 0);
    assert env == Env(a.locals, env.leaf, env.eval);
    assert !BehavesAt(sem, land, [], vals, Env(a.locals, env.leaf, env.eval), q, RELOADED, a, [0]);
  }

  lemma ZeroFits()
    ensures IsSigned(W32, 0)
  {
  }

  ghost const MIXED_NODES: seq<Checker.Node> := [Checker.Node(0, 13, {1}), Checker.Node(13, 23, {})]

  lemma CheckerLeaders()
    ensures Layout(MIXED, MIXED_STARTS)
    ensures forall x :: Checker.Leader(MIXED, [], MIXED_STARTS, x) <==> x == 0 || x == 13
  {
    hide Width, Arms, Target, Layout, Core;
    var s := MIXED_STARTS;
    MixedArms();
    MixedReads();
    SplitsAre();
    forall x
      ensures Checker.Leads(MIXED, s, 11, x) <==> x == 13 || x == 23
    {
      assert Checker.Splits(MIXED[s[5]]) && s[5 + 1] == 13;
      assert Checker.Splits(MIXED[s[10]]) && s[10 + 1] == 23;
    }
  }

  lemma SplitsAre()
    ensures forall k :: 0 <= k < 11 ==> (Checker.Splits(MIXED[MIXED_STARTS[k]]) <==> k == 5 || k == 10)
  {
  }

  lemma CheckerFlows()
    ensures forall j, i :: Checker.Flows(MIXED, [0, 13], j, i) <==> j == 0 && i == 1
  {
    hide Width, Arms, Target, Blocks.Last, Core;
    MixedArms();
    MixedLasts();
    assert MIXED_STARTS[5] == 10 && MIXED_STARTS[10] == 22;
    assert Arms(MIXED, 10) == 1 && Arms(MIXED, 22) == 0;
    assert Target(MIXED, 10, 0) == 13;
    assert Blocks.ArmLeads(MIXED, 10, 1, 13) && !Blocks.ArmLeads(MIXED, 10, 1, 0);
  }

  lemma MixedNodes()
    ensures Layout(MIXED, MIXED_STARTS) && Checker.IsCfg(MIXED, [], MIXED_STARTS, MIXED_NODES)
  {
    hide Width, Arms, Target, Layout, Blocks.Last, Checker.Leader, Checker.Flows;
    MixedReads();
    CheckerLeaders();
    CheckerFlows();
    assert Checker.NodesBy(MIXED, [], MIXED_STARTS, MIXED_NODES, [0, 13]);
  }

  /** A context for the body: one i32 parameter, one result. */
  ghost predicate OneInt(cx: Context) {
    cx.locals == [Prim(I32)] && cx.results == 1
  }

  lemma MixedBounds(cx: Context)
    requires OneInt(cx)
    ensures forall k :: 0 <= k < 11 ==> InBounds(cx, MIXED, MIXED_STARTS[k])
  {
    assert Operand(MIXED, 0) == 0 && Operand(MIXED, 18) == 0;
  }

  const GOT: Slot := Slot(I32, Some(Prim(I32)))

  lemma GetEffect(cx: Context, ip: int, st: seq<Slot>)
    requires OneInt(cx) && (ip == 0 || ip == 18) && InBounds(cx, MIXED, ip)
    ensures StepOf(cx, MIXED, ip, st) == Continue(st + [GOT])
  {
    hide CallEffect, AcceptsType, Fixed, InBounds;
    assert Operand(MIXED, ip) == 0;
  }

  lemma OneEffect(cx: Context, ip: int, st: seq<Slot>)
    requires (ip == 3 || ip == 13) && InBounds(cx, MIXED, ip)
    ensures StepOf(cx, MIXED, ip, st) == Continue(st + [Slot(I32, None)])
  {
    hide CallEffect, AcceptsType, InBounds, Operand;
    assert Popped(st, []) == Some(st) && Untyped([I32]) == [Slot(I32, None)];
  }

  lemma NotEffect(cx: Context, ip: int, st: seq<Slot>)
    requires (ip == 2 || ip == 20) && InBounds(cx, MIXED, ip)
    ensures StepOf(cx, MIXED, ip, st + [GOT]) == Continue(st + [Slot(I1, None)])
  {
    hide CallEffect, AcceptsType, InBounds, Operand, Fixed;
    NotOp();
    var full := st + [GOT];
    assert Top(full) == GOT && Dropped(full, 1) == st;
    assert [I32][1..] == [];
    assert Popped(st, []) == Some(st);
    assert Popped(full, [I32]) == Some(st) && Untyped([I1]) == [Slot(I1, None)];
  }

  lemma XorEffect(cx: Context, ip: int, a: Slot, b: Slot)
    requires (ip == 8 || ip == 21) && InBounds(cx, MIXED, ip)
    requires (a.kind == I32 && b.kind == I1) || (a.kind == I1 && b.kind == I32)
    ensures StepOf(cx, MIXED, ip, [a, b]) == Continue([Slot(I32, None)])
  {
    hide CallEffect, AcceptsType, InBounds, Operand, Fixed, Popped;
    assert Dropped([a, b], 2) == [];
  }

  lemma LastEffects(cx: Context)
    requires OneInt(cx) && InBounds(cx, MIXED, 9) && InBounds(cx, MIXED, 10) && InBounds(cx, MIXED, 22)
    ensures StepOf(cx, MIXED, 9, [Slot(I32, None)]) == Continue([]) && StepOf(cx, MIXED, 10, []) == Continue([])
    ensures StepOf(cx, MIXED, 22, [Slot(I32, None)]) == Continue([Slot(I32, None)])
  {
    hide CallEffect, AcceptsType, InBounds, Operand;
    var st := [Slot(I32, None)];
    assert Dropped(st, 1) == [] && [Any][1..] == [] && Popped([], []) == Some([]);
    assert Popped(st, [Any]) == Some([]) && Untyped([]) == [];
  }

  /** What the verifier finds in each block. */
  lemma FirstExec(cx: Context)
    requires OneInt(cx)
    ensures ExecOf(cx, MIXED, 0, 13, []) == Continue([])
  {
    hide Width, StepOf, InBounds;
    MixedWidths();
    EachBound(cx);
    var one, bit := Slot(I32, None), Slot(I1, None);
    LastEffects(cx);
    XorEffect(cx, 8, bit, one);
    OneEffect(cx, 3, [bit]);
    assert [bit] + [one] == [bit, one] && [] + [GOT] == [GOT] && [] + [bit] == [bit];
    NotEffect(cx, 2, []);
    GetEffect(cx, 0, []);
    assert ExecOf(cx, MIXED, 13, 13, []) == Continue([]);
    assert ExecOf(cx, MIXED, 10, 13, []) == Continue([]);
    assert ExecOf(cx, MIXED, 9, 13, [one]) == Continue([]);
    assert ExecOf(cx, MIXED, 8, 13, [bit, one]) == Continue([]);
    assert ExecOf(cx, MIXED, 3, 13, [bit]) == Continue([]);
    assert ExecOf(cx, MIXED, 2, 13, [GOT]) == Continue([]);
  }

  lemma SecondExec(cx: Context)
    requires OneInt(cx)
    ensures ExecOf(cx, MIXED, 13, 23, []) == Continue([Slot(I32, None)])
  {
    hide Width, StepOf, InBounds;
    MixedWidths();
    EachBound(cx);
    var one, bit := Slot(I32, None), Slot(I1, None);
    LastEffects(cx);
    XorEffect(cx, 21, one, bit);
    NotEffect(cx, 20, [one]);
    GetEffect(cx, 18, [one]);
    OneEffect(cx, 13, []);
    assert [one] + [bit] == [one, bit] && [one] + [GOT] == [one, GOT] && [] + [one] == [one];
    assert ExecOf(cx, MIXED, 22, 23, [one]) == Continue([one]);
    assert ExecOf(cx, MIXED, 21, 23, [one, bit]) == Continue([one]);
    assert ExecOf(cx, MIXED, 20, 23, [one, GOT]) == Continue([one]);
    assert ExecOf(cx, MIXED, 18, 23, [one]) == Continue([one]);
  }

  lemma EachBound(cx: Context)
    requires OneInt(cx)
    ensures InBounds(cx, MIXED, 0) && InBounds(cx, MIXED, 2) && InBounds(cx, MIXED, 3) && InBounds(cx, MIXED, 8)
    ensures InBounds(cx, MIXED, 9) && InBounds(cx, MIXED, 10) && InBounds(cx, MIXED, 13) && InBounds(cx, MIXED, 18)
    ensures InBounds(cx, MIXED, 20) && InBounds(cx, MIXED, 21) && InBounds(cx, MIXED, 22)
  {
    hide InBounds;
    MixedBounds(cx);
    var s := MIXED_STARTS;
    assert s[0] == 0 && s[1] == 2 && s[2] == 3 && s[3] == 8 && s[4] == 9 && s[5] == 10 && s[6] == 13 && s[7] == 18 &&
        s[8] == 20 && s[9] == 21 && s[10] == 22;
  }

  lemma MixedSettles(cx: Context)
    requires OneInt(cx)
    ensures Dataflow.PostFixpoint(cx, MIXED, [], MIXED_NODES, [Some([]), Some([])])
  {
    hide ExecOf;
    FirstExec(cx);
    SecondExec(cx);
    assert Stacks.Below([], []);
  }

  lemma MixedCovered(cx: Context)
    requires OneInt(cx)
    ensures Layout(MIXED, MIXED_STARTS) && Verifier.AllInBounds(cx, MIXED, MIXED_STARTS)
    ensures Checker.AllArmsOk(cx, MIXED, Verify.Boundary(MIXED_STARTS), MIXED_STARTS, 11)
    ensures Checker.Terminates(cx, MIXED, MIXED_NODES)
    ensures forall m :: 0 <= m < 11 ==> Checker.Defined(MIXED[MIXED_STARTS[m]])
  {
    hide Width, Target, Arms, Layout, Core, InBounds, Blocks.Last, Blocks.EndsBlock;
    MixedReads();
    MixedArms();
    MixedBounds(cx);
    MixedLasts();
    assert MIXED_STARTS[6] == 13 && MIXED_STARTS[5] == 10;
    assert 13 in MIXED_STARTS;
  }

  /** The verifier accepts the body. */
  method MixedAccepted(cx: Context) returns (r: Verify.Outcome)
    requires OneInt(cx)
    ensures r == Verify.Accepted
  {
    hide Width, Core, Arms, Layout, InBounds, Checker.IsCfg, Dataflow.PostFixpoint, StepOf, Checker.AllArmsOk,
         Verifier.AllInBounds, Checker.Terminates;
    MixedCovered(cx);
    MixedNodes();
    MixedSettles(cx);
    r := VerifyLimits.Accepts(cx, MIXED, MIXED_STARTS, MIXED_NODES, [Some([]), Some([])]);
  }
}
