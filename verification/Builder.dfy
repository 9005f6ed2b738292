/** Code as a list of instructions, and a builder that resolves symbolic branch targets to displacements. */
module Builder {
  import opened Bytecode
  import Codec
  import Compaction

  type Instruction = seq<Byte>

  /** All of an instruction's bytes and no more. */
  predicate Whole(inst: Instruction) {
    inst != [] && |inst| == Width(inst, 0)
  }

  ghost predicate AllWhole(instrs: seq<Instruction>) {
    forall i :: 0 <= i < |instrs| ==> Whole(instrs[i])
  }

  /** The instructions one after another. */
  function Flat(instrs: seq<Instruction>): seq<Byte> {
    if instrs == [] then [] else Flat(instrs[..|instrs| - 1]) + instrs[|instrs| - 1]
  }

  /** Where instruction k starts. */
  function Pos(instrs: seq<Instruction>, k: nat): nat
    requires k <= |instrs|
  {
    if k == 0 then 0 else Pos(instrs, k - 1) + |instrs[k - 1]|
  }

  ghost function Offsets(instrs: seq<Instruction>): seq<int> {
    seq(|instrs| + 1, k requires 0 <= k < |instrs| + 1 => Pos(instrs, k))
  }

  lemma {:induction false} FlatPrefix(instrs: seq<Instruction>, k: nat)
    requires k <= |instrs|
    ensures |Flat(instrs[..k])| == Pos(instrs, k) && Flat(instrs[..k]) <= Flat(instrs)
    decreases |instrs| - k, k
  {
    FlatSize(instrs, k);
    if k == |instrs| {
      assert instrs[..k] == instrs;
    } else {
      FlatPrefix(instrs, k + 1);
      assert instrs[..k + 1][..k] == instrs[..k];
    }
  }

  lemma {:induction false} FlatSize(instrs: seq<Instruction>, k: nat)
    requires k <= |instrs|
    ensures |Flat(instrs[..k])| == Pos(instrs, k)
  {
    if k > 0 {
      FlatSize(instrs, k - 1);
      assert instrs[..k][..k - 1] == instrs[..k - 1];
    }
  }

  /** Instruction k's bytes stand at its position. */
  lemma FlatAt(instrs: seq<Instruction>, k: nat)
    requires k < |instrs|
    ensures Pos(instrs, k) + |instrs[k]| == Pos(instrs, k + 1) <= |Flat(instrs)| == Pos(instrs, |instrs|)
    ensures Flat(instrs)[Pos(instrs, k)..Pos(instrs, k + 1)] == instrs[k]
  {
    hide Flat;
    FlatPrefix(instrs, k + 1);
    FlatPrefix(instrs, k);
    FlatPrefix(instrs, |instrs|);
    assert instrs[..|instrs|] == instrs;
    FlatSnoc(instrs, k);
    var before, now, all := Flat(instrs[..k]), Flat(instrs[..k + 1]), Flat(instrs);
    assert now == all[..|now|];
    assert now == before + instrs[k];
    assert all[|before|..|now|] == now[|before|..] == instrs[k];
  }

  lemma FlatSnoc(instrs: seq<Instruction>, k: nat)
    requires k < |instrs|
    ensures Flat(instrs[..k + 1]) == Flat(instrs[..k]) + instrs[k]
  {
    assert instrs[..k + 1][..k] == instrs[..k];
  }

  /** A whole instruction is as wide wherever it stands. */
  lemma WidthIn(code: seq<Byte>, at: nat, inst: Instruction)
    requires Whole(inst) && at + |inst| <= |code| && code[at..at + |inst|] == inst
    ensures at < |code| && code[at] == inst[0] && Width(code, at) == |inst|
    ensures Compaction.InstrAt(inst, 0, code, at)
  {
    var part := code[at..at + |inst|];
    assert part[0] == code[at];
    if |inst| > 1 {
      assert part[1] == code[at + 1];
    }
  }

  lemma {:induction false} PosGrows(instrs: seq<Instruction>, j: nat, k: nat)
    requires j <= k <= |instrs| && AllWhole(instrs)
    ensures Pos(instrs, j) <= Pos(instrs, k) && (j < k ==> Pos(instrs, j) < Pos(instrs, k))
    decreases k
  {
    hide Width;
    if j < k {
      PosGrows(instrs, j, k - 1);
      assert Whole(instrs[k - 1]);
    }
  }

  /** Whole instructions lay out as themselves. */
  lemma FlatLayout(instrs: seq<Instruction>)
    requires AllWhole(instrs)
    ensures Layout(Flat(instrs), Offsets(instrs))
  {
    hide Flat, Width, Pos, Whole;
    var code, s := Flat(instrs), Offsets(instrs);
    FlatPrefix(instrs, |instrs|);
    assert instrs[..|instrs|] == instrs;
    assert Pos(instrs, 0) == 0 by { PosZero(instrs); }
    forall j, k | 0 <= j < k < |s|
      ensures s[j] < s[k]
    {
      PosGrows(instrs, j, k);
    }
    forall k | 0 <= k < |s| - 1
      ensures 0 <= s[k] < |code| && s[k] + Width(code, s[k]) == s[k + 1]
    {
      FlatAt(instrs, k);
      WidthIn(code, s[k], instrs[k]);
    }
  }

  lemma PosZero(instrs: seq<Instruction>)
    ensures Pos(instrs, 0) == 0
  {
  }

  /** Concatenates instructions. */
  method Marshal(instrs: seq<Instruction>) returns (code: seq<Byte>)
    ensures code == Flat(instrs)
  {
    hide Flat;
    code := [];
    FlatNone(instrs);
    for i := 0 to |instrs|
      invariant code == Flat(instrs[..i])
    {
      FlatSnoc(instrs, i);
      code := code + instrs[i];
    }
    assert instrs[..|instrs|] == instrs;
  }

  lemma FlatNone(instrs: seq<Instruction>)
    ensures Flat(instrs[..0]) == []
  {
  }

  /** Cuts code into its instructions: whole ones that make up the code again. */
  method Unmarshal(code: seq<Byte>, ghost s: seq<int>) returns (instrs: seq<Instruction>)
    requires Layout(code, s)
    ensures AllWhole(instrs) && Flat(instrs) == code && Offsets(instrs) == s
    ensures forall written :: AllWhole(written) && Flat(written) == code ==> instrs == written
  {
    hide Layout, Flat, Width, Whole, Pos;
    instrs := [];
    var ip := 0;
    ghost var k := 0;
    FlatNone([]);
    PosFirst([]);
    LayoutEnds(code, s);
    while ip < |code|
      invariant 0 <= k < |s| && |instrs| == k && ip == s[k] && AllWhole(instrs) && ip <= |code|
      invariant Flat(instrs) == code[..ip] && forall j :: 0 <= j <= k ==> Pos(instrs, j) == s[j]
      decreases |code| - ip
    {
      LayoutNext(code, s, k);
      var width := Width(code, ip);
      var inst := code[ip..ip + width];
      CutWhole(code, ip);
      Snoc(instrs, inst);
      assert code[..ip + width] == code[..ip] + inst;
      instrs := instrs + [inst];
      ip := ip + width;
      k := k + 1;
    }
    assert code[..ip] == code;
    assert Offsets(instrs) == s;
    forall written | AllWhole(written) && Flat(written) == code
      ensures instrs == written
    {
      OneCut(instrs, written);
    }
  }

  lemma PosFirst(instrs: seq<Instruction>)
    ensures Pos(instrs, 0) == 0
  {
  }

  lemma LayoutEnds(code: seq<Byte>, s: seq<int>)
    requires Layout(code, s)
    ensures |s| > 0 && s[0] == 0 && forall k :: 0 <= k < |s| ==> (s[k] == |code| <==> k == |s| - 1)
  {
  }

  lemma CutWhole(code: seq<Byte>, ip: nat)
    requires ip < |code| && ip + Width(code, ip) <= |code|
    ensures Whole(code[ip..ip + Width(code, ip)])
  {
  }

  lemma Snoc(instrs: seq<Instruction>, inst: Instruction)
    ensures Flat(instrs + [inst]) == Flat(instrs) + inst
    ensures forall k :: 0 <= k <= |instrs| ==> Pos(instrs + [inst], k) == Pos(instrs, k)
    ensures Pos(instrs + [inst], |instrs| + 1) == Pos(instrs, |instrs|) + |inst|
  {
    hide Flat;
    var more := instrs + [inst];
    FlatSnoc(more, |instrs|);
    assert more[..|instrs| + 1] == more && more[..|instrs|] == instrs;
    forall k | 0 <= k <= |instrs|
      ensures Pos(more, k) == Pos(instrs, k)
    {
      PosPrefix(more, instrs, k);
    }
  }

  lemma {:induction false} PosPrefix(a: seq<Instruction>, b: seq<Instruction>, k: nat)
    requires b <= a && k <= |b|
    ensures Pos(a, k) == Pos(b, k)
  {
    if k > 0 {
      PosPrefix(a, b, k - 1);
    }
  }

  /** Code is cut into instructions in only one way: what was marshalled is what is read. */
  lemma {:induction false} OneCut(a: seq<Instruction>, b: seq<Instruction>)
    requires AllWhole(a) && AllWhole(b) && Flat(a) == Flat(b)
    ensures a == b
  {
    hide Flat, Whole;
    SameCuts(a, b, |a|);
    SameCuts(b, a, |b|);
    forall k | 0 <= k < |a|
      ensures a[k] == b[k]
    {
      FlatAt(a, k);
      FlatAt(b, k);
      SameCuts(a, b, k);
      SameCuts(a, b, k + 1);
    }
  }

  lemma {:induction false} SameCuts(a: seq<Instruction>, b: seq<Instruction>, k: nat)
    requires AllWhole(a) && AllWhole(b) && Flat(a) == Flat(b) && k <= |a|
    ensures k <= |b| && Pos(a, k) == Pos(b, k)
  {
    hide Flat, Width, Whole;
    if k > 0 {
      SameCuts(a, b, k - 1);
      FlatAt(a, k - 1);
      WidthIn(Flat(a), Pos(a, k - 1), a[k - 1]);
      WholeSome(a[k - 1]);
      FlatPrefix(b, |b|);
      assert b[..|b|] == b;
      if k - 1 < |b| {
        FlatAt(b, k - 1);
        WidthIn(Flat(b), Pos(b, k - 1), b[k - 1]);
      }
    }
  }

  lemma WholeSome(inst: Instruction)
    requires Whole(inst)
    ensures |inst| > 0
  {
  }

  /** Arm `arm` of the branch at index `branch` is to lead to a label. */
  datatype Fixup = Fixup(branch: nat, arm: nat, to: nat)

  datatype Region = Region(start: nat, end: nat, catch: nat, depth: int)

  datatype Failure = Unbound(to: nat) | OffsetRange(offset: int)

  datatype Assembled = Done | Failed(failure: Failure)

  /** A branch with room for n cases besides the default. */
  function BlankTable(n: nat): Instruction {
    [BR_TABLE, n % 256] + Codec.ListBytes(seq(n + 1, _ => 0), 2)
  }

  /** It is whole exactly when its count is right: otherwise it reads as a table of fewer cases and more code. */
  lemma TableWholeIff(n: nat)
    ensures Whole(BlankTable(n)) <==> n < 256
    ensures Width(BlankTable(n), 0) == 4 + 2 * (n % 256) <= |BlankTable(n)| == 4 + 2 * n
  {
    Codec.TimesIs(n + 1, 2);
  }

  /** Writes displacement v into arm `arm` of a branch. */
  function SetArm(inst: Instruction, arm: nat, v: int): (r: Instruction)
    requires inst != [] && ArmAt(inst, 0, arm) + 1 < |inst|
    ensures |r| == |inst|
  {
    var at := ArmAt(inst, 0, arm);
    inst[..at] + [Low(v), High(v)] + inst[at + 2..]
  }

  /** Setting an arm is setting the operand that holds it: operand 0 of a branch, operand arm + 1 of a table. */
  lemma ArmIsOperand(inst: Instruction, arm: nat, v: int)
    requires Whole(inst) && IsBranch(inst[0]) && arm < Arms(inst, 0)
    ensures ArmAt(inst, 0, arm) + 1 < |inst|
    ensures var table := inst[0] == BR_TABLE;
            var ws, operand := if table then [-2, 2] else [2], if table then arm + 1 else 0;
            && Codec.Operands(ws, inst[1..]).Some? && Codec.Slot(ws, inst[1..], operand).Some?
            && Codec.Slot(ws, inst[1..], operand).value.0 == ArmAt(inst, 0, arm) - 1
            && Codec.Slot(ws, inst[1..], operand).value.1 == 2 && !Codec.Slot(ws, inst[1..], operand).value.2
            && SetArm(inst, arm, v) == [inst[0]] + Codec.Patch(inst[1..], ArmAt(inst, 0, arm) - 1, v % 0x10000, 2)
  {
    hide Codec.Operands, Codec.Slot, Codec.Patch, SetArm;
    ArmPatches(inst, arm, v);
    if inst[0] == BR_TABLE {
      TableSlots(inst[1..], inst[1], arm);
    } else {
      PlainSlot(inst[1..]);
    }
  }

  lemma ArmPatches(inst: Instruction, arm: nat, v: int)
    requires inst != [] && 1 <= ArmAt(inst, 0, arm) && ArmAt(inst, 0, arm) + 1 < |inst|
    ensures SetArm(inst, arm, v) == [inst[0]] + Codec.Patch(inst[1..], ArmAt(inst, 0, arm) - 1, v % 0x10000, 2)
  {
    hide ArmAt, Codec.Bytes, Low, High;
    var at, b := ArmAt(inst, 0, arm), inst[1..];
    TwoBytes(v);
    var two := [Low(v), High(v)];
    assert [inst[0]] + b[..at - 1] == inst[..at] && b[at + 1..] == inst[at + 2..];
    assert inst[..at] + two + inst[at + 2..] == [inst[0]] + (b[..at - 1] + two + b[at + 1..]);
  }

  lemma TwoBytes(v: int)
    ensures Codec.Bytes(v % 0x10000, 2) == [Low(v), High(v)]
  {
    var w := v % 0x10000;
    assert Codec.Bytes(w / 256, 1) == [w / 256 % 256] + Codec.Bytes(w / 256 / 256, 0);
    assert w % 256 == v % 256 && w / 256 % 256 == v / 256 % 256;
  }

  lemma PlainSlot(b: seq<Byte>)
    requires |b| == 2
    ensures Codec.Operands([2], b).Some? && Codec.Slot([2], b, 0) == Some((0, 2, false))
  {
    hide Codec.Read, Codec.ReadList, Codec.Times;
    assert [2][1..] == [];
    Codec.NoFields(b[2..]);
  }

  lemma TableSlots(b: seq<Byte>, n: nat, arm: nat)
    requires |b| == 3 + 2 * n && b[0] == n && arm <= n
    ensures Codec.Operands([-2, 2], b).Some? && Codec.Slot([-2, 2], b, arm + 1).Some?
    ensures Codec.Slot([-2, 2], b, arm + 1).value.0 == 1 + 2 * arm
    ensures Codec.Slot([-2, 2], b, arm + 1).value.1 == 2 && !Codec.Slot([-2, 2], b, arm + 1).value.2
  {
    hide Codec.Read, Codec.ReadList, Codec.Times;
    Codec.TimesIs(n, 2);
    Codec.TimesIs(arm, 2);
    var ws, rest := [-2, 2], b[1 + 2 * n..];
    assert ws[1..] == [2];
    PlainSlot(rest);
  }

  /** Writing one displacement changes no other, and nothing else of the instruction. */
  lemma SetArmReads(inst: Instruction, arm: nat, v: int)
    requires Whole(inst) && IsBranch(inst[0]) && arm < Arms(inst, 0)
    ensures ArmAt(inst, 0, arm) + 1 < |inst|
    ensures var r := SetArm(inst, arm, v);
            && Whole(r) && Core(r, 0) == Core(inst, 0) && Arms(r, 0) == Arms(inst, 0) && IsBranch(r[0])
            && (-0x8000 <= v < 0x8000 ==> Disp(r, 0, arm) == v)
            && forall a :: 0 <= a < Arms(inst, 0) && a != arm ==> Disp(r, 0, a) == Disp(inst, 0, a)
  {
    I16Reads(v);
  }

  ghost predicate FixupOk(instrs: seq<Instruction>, labels: nat, fx: Fixup) {
    && fx.branch < |instrs| && fx.to < labels && Whole(instrs[fx.branch]) && IsBranch(instrs[fx.branch][0])
    && fx.arm < Arms(instrs[fx.branch], 0)
  }

  /** Every arm has at most one target. */
  ghost predicate OneEach(fixups: seq<Fixup>) {
    forall i, j :: 0 <= i < j < |fixups| ==> fixups[i].branch != fixups[j].branch || fixups[i].arm != fixups[j].arm
  }

  ghost predicate RegionOk(labels: nat, r: Region) {
    r.start < labels && r.end < labels && r.catch < labels
  }

  /** The distance a fixup's branch has to cover. */
  ghost function Distance(instrs: seq<Instruction>, labels: seq<int>, fx: Fixup): int
    requires FixupOk(instrs, |labels|, fx) && 0 <= labels[fx.to] <= |instrs|
  {
    Pos(instrs, labels[fx.to]) - Pos(instrs, fx.branch + 1)
  }

  /** A fixup's label is bound and within reach. */
  ghost predicate Resolvable(instrs: seq<Instruction>, labels: seq<int>, fx: Fixup) {
    FixupOk(instrs, |labels|, fx) && 0 <= labels[fx.to] <= |instrs| && -0x8000 <= Distance(instrs, labels, fx) < 0x8000
  }

  ghost predicate Bound(instrs: seq<Instruction>, labels: seq<int>, r: Region) {
    && RegionOk(|labels|, r) && 0 <= labels[r.start] <= |instrs| && 0 <= labels[r.end] <= |instrs|
    && 0 <= labels[r.catch] <= |instrs|
  }

  ghost function Settled(instrs: seq<Instruction>, labels: seq<int>, r: Region): Handler
    requires Bound(instrs, labels, r)
  {
    Handler(Pos(instrs, labels[r.start]), Pos(instrs, labels[r.end]), Pos(instrs, labels[r.catch]), r.depth)
  }

  /** One of the first n fixups is for this arm. */
  ghost predicate Fixed(fixups: seq<Fixup>, n: int, branch: int, arm: int) {
    exists i :: 0 <= i < n && i < |fixups| && fixups[i].branch == branch && fixups[i].arm == arm
  }

  /** The first n fixups are in; everything else is as it was. */
  ghost predicate Patched(was: seq<Instruction>, instrs: seq<Instruction>, labels: seq<int>, fixups: seq<Fixup>,
                          n: nat) {
    && |instrs| == |was| && AllWhole(was) && AllWhole(instrs) && n <= |fixups|
    && (forall b :: 0 <= b < |was| ==> SameShape(was, instrs, b))
    && (forall b, a ::
       0 <= b < |was| && 0 <= a < Arms(was[b], 0) && !Fixed(fixups, n, b, a) ==> SameArm(was, instrs, b, a))
    && (forall i :: 0 <= i < n ==> Leading(was, instrs, labels, fixups[i]))
  }

  ghost predicate SameShape(was: seq<Instruction>, instrs: seq<Instruction>, b: int)
    requires 0 <= b < |was| == |instrs| && Whole(was[b]) && Whole(instrs[b])
  {
    |instrs[b]| == |was[b]| && Core(instrs[b], 0) == Core(was[b], 0) && Arms(instrs[b], 0) == Arms(was[b], 0) &&
        instrs[b][0] == was[b][0]
  }

  ghost predicate SameArm(was: seq<Instruction>, instrs: seq<Instruction>, b: int, a: int)
    requires 0 <= b < |was| == |instrs| && Whole(was[b]) && Whole(instrs[b])
  {
    Disp(instrs[b], 0, a) == Disp(was[b], 0, a)
  }

  ghost predicate Leading(was: seq<Instruction>, instrs: seq<Instruction>, labels: seq<int>, fx: Fixup)
    requires |was| == |instrs|
  {
    Resolvable(was, labels, fx) && Whole(instrs[fx.branch]) &&
        Disp(instrs[fx.branch], 0, fx.arm) == Distance(was, labels, fx)
  }

  lemma {:induction false} SamePos(was: seq<Instruction>, instrs: seq<Instruction>, k: nat)
    requires |was| == |instrs| && k <= |was| && forall b :: 0 <= b < |was| ==> |instrs[b]| == |was[b]|
    ensures Pos(instrs, k) == Pos(was, k)
  {
    if k > 0 {
      SamePos(was, instrs, k - 1);
    }
  }

  /** One more fixup. */
  lemma PatchNext(was: seq<Instruction>, instrs: seq<Instruction>, labels: seq<int>, fixups: seq<Fixup>, n: nat)
    requires Patched(was, instrs, labels, fixups, n) && n < |fixups| && OneEach(fixups)
    requires Resolvable(was, labels, fixups[n])
    ensures var fx := fixups[n];
            && Whole(instrs[fx.branch]) && IsBranch(instrs[fx.branch][0]) && fx.arm < Arms(instrs[fx.branch], 0)
            && ArmAt(instrs[fx.branch], 0, fx.arm) + 1 < |instrs[fx.branch]|
            && Patched(was, instrs[fx.branch := SetArm(instrs[fx.branch], fx.arm, Distance(was, labels, fx))], labels,
               fixups, n + 1)
  {
    hide Distance, Whole, Core, Disp, Arms, ArmAt, SetArm;
    var fx := fixups[n];
    AllSome(was);
    assert SameShape(was, instrs, fx.branch);
    var v := Distance(was, labels, fx);
    SetArmReads(instrs[fx.branch], fx.arm, v);
    WholeSome(instrs[fx.branch]);
    WholeSome(SetArm(instrs[fx.branch], fx.arm, v));
    CoreHead(instrs[fx.branch], 0);
    CoreHead(SetArm(instrs[fx.branch], fx.arm, v), 0);
    var instrs' := instrs[fx.branch := SetArm(instrs[fx.branch], fx.arm, v)];
    var n' := n + 1;
    forall b | 0 <= b < |was|
      ensures SameShape(was, instrs', b)
    {
      assert SameShape(was, instrs, b);
    }
    forall b, a | 0 <= b < |was| && 0 <= a < Arms(was[b], 0) && !Fixed(fixups, n', b, a)
      ensures SameArm(was, instrs', b, a)
    {
      FixedNext(fixups, n, b, a);
      assert SameArm(was, instrs, b, a);
    }
    forall i | 0 <= i < n'
      ensures Leading(was, instrs', labels, fixups[i])
    {
      if i < n {
        assert Leading(was, instrs, labels, fixups[i]);
        assert SameShape(was, instrs, fixups[i].branch);
      }
    }
  }

  lemma AllSome(instrs: seq<Instruction>)
    requires AllWhole(instrs)
    ensures forall i :: 0 <= i < |instrs| ==> instrs[i] != []
  {
  }

  lemma FixedNext(fixups: seq<Fixup>, n: nat, b: int, a: int)
    requires n < |fixups|
    ensures Fixed(fixups, n, b, a) ==> Fixed(fixups, n + 1, b, a)
    ensures fixups[n].branch == b && fixups[n].arm == a ==> Fixed(fixups, n + 1, b, a)
  {
  }

  lemma StartPatched(was: seq<Instruction>, labels: seq<int>, fixups: seq<Fixup>)
    requires AllWhole(was)
    ensures Patched(was, was, labels, fixups, 0)
  {
  }

  /** Arm `arm` of the instruction at `branch` leads where instruction `to` starts. */
  ghost predicate LeadsTo(instrs: seq<Instruction>, branch: nat, arm: nat, to: int) {
    && AllWhole(instrs) && branch < |instrs| && 0 <= to <= |instrs| && Pos(instrs, branch) < |Flat(instrs)|
    && Target(Flat(instrs), Pos(instrs, branch), arm) == Pos(instrs, to)
  }

  /** In the assembled code a patched arm targets exactly the byte offset of its label. */
  lemma ArmLeads(was: seq<Instruction>, instrs: seq<Instruction>, labels: seq<int>, fixups: seq<Fixup>, n: nat, i: nat)
    requires Patched(was, instrs, labels, fixups, n) && i < n
    ensures FixupOk(was, |labels|, fixups[i]) && LeadsTo(instrs, fixups[i].branch, fixups[i].arm, labels[fixups[i].to])
  {
    hide Whole, Core, Arms, Flat, Width, Compaction.InstrAt, ArmAt;
    var fx := fixups[i];
    assert Leading(was, instrs, labels, fx);
    assert SameShape(was, instrs, fx.branch);
    forall b | 0 <= b < |was|
      ensures |instrs[b]| == |was[b]|
    {
      assert SameShape(was, instrs, b);
    }
    SamePos(was, instrs, labels[fx.to]);
    SamePos(was, instrs, fx.branch + 1);
    AllSome(instrs);
    FlatAt(instrs, fx.branch);
    var code, at, inst := Flat(instrs), Pos(instrs, fx.branch), instrs[fx.branch];
    WidthIn(code, at, inst);
    WholeWidth(inst);
    assert inst[0..0 + Width(inst, 0)] == inst;
    Compaction.BytesSame(inst, 0, code, at);
  }

  lemma WholeWidth(inst: Instruction)
    requires Whole(inst)
    ensures inst != [] && Width(inst, 0) == |inst|
  {
  }

  /** Assembles one stream of code with symbolic branch targets. */
  class Assembler {
    var instrs: seq<Instruction>
    var labels: seq<int>
    var fixups: seq<Fixup>
    var regions: seq<Region>
    var resolved: seq<Handler>

    ghost predicate Valid()
      reads this
    {
      && AllWhole(instrs) && OneEach(fixups)
      && (forall l :: 0 <= l < |labels| ==> -1 <= labels[l] <= |instrs|)
      && (forall i :: 0 <= i < |fixups| ==> FixupOk(instrs, |labels|, fixups[i]))
      && (forall i :: 0 <= i < |regions| ==> RegionOk(|labels|, regions[i]))
    }

    constructor ()
      ensures Valid() && instrs == [] && labels == [] && fixups == [] && regions == [] && resolved == []
    {
      instrs, labels, fixups, regions, resolved := [], [], [], [], [];
    }

    /** A label not yet placed. */
    method Label() returns (l: nat)
      requires Valid()
      modifies `labels
      ensures Valid() && l == |old(labels)| && labels == old(labels) + [-1]
    {
      l := |labels|;
      labels := labels + [-1];
    }

    /** Places a label at the next instruction. */
    method Bind(l: nat)
      requires Valid() && l < |labels|
      modifies `labels
      ensures Valid() && labels == old(labels)[l := |instrs|]
    {
      labels := labels[l := |instrs|];
    }

    method Append(inst: Instruction)
      requires Valid() && Whole(inst)
      modifies `instrs
      ensures Valid() && instrs == old(instrs) + [inst]
    {
      hide Whole, Arms;
      instrs := instrs + [inst];
    }

    /** A branch to a label, conditional or not. */
    method Branch(op: Byte, l: nat)
      requires Valid() && (op == BR || op == BR_IF) && l < |labels|
      modifies `instrs, `fixups
      ensures Valid() && instrs == old(instrs) + [[op, 0, 0]] && fixups == old(fixups) + [Fixup(|old(instrs)|, 0, l)]
    {
      Append([op, 0, 0]);
      fixups := fixups + [Fixup(|instrs| - 1, 0, l)];
    }

    /** A jump table: case i goes to its target, anything else to the default. */
    method Table(default: nat, targets: seq<nat>)
      requires Valid() && default < |labels| && forall i :: 0 <= i < |targets| ==> targets[i] < |labels|
      modifies `instrs, `fixups
      ensures Valid() <==> |targets| < 256
      ensures instrs == old(instrs) + [BlankTable(|targets|)]
      ensures fixups ==
        old(fixups) + seq(|targets|, i requires 0 <= i < |targets| => Fixup(|old(instrs)|, i, targets[i]))
                        + [Fixup(|old(instrs)|, |targets|, default)]
    {
      hide Arms, Whole, BlankTable;
      TableWholeIff(|targets|);
      instrs := instrs + [BlankTable(|targets|)];
      if |targets| < 256 {
        TableWhole(|targets|);
      } else {
        assert !Whole(instrs[|instrs| - 1]);
      }
      var branch := |instrs| - 1;
      ghost var start := fixups;
      for i := 0 to |targets|
        invariant instrs == old(instrs) + [BlankTable(|targets|)]
        invariant Valid() <==> |targets| < 256
        invariant fixups == start + seq(i, j requires 0 <= j < i => Fixup(branch, j, targets[j]))
        invariant forall j ::
          0 <= j < |fixups| ==> fixups[j].branch < branch || (fixups[j].branch == branch && fixups[j].arm < i)
      {
        fixups := fixups + [Fixup(branch, i, targets[i])];
        assert seq(i + 1, j requires 0 <= j < i + 1 => Fixup(branch, j, targets[j])) ==
               seq(i, j requires 0 <= j < i => Fixup(branch, j, targets[j])) + [Fixup(branch, i, targets[i])];
      }
      fixups := fixups + [Fixup(branch, |targets|, default)];
    }

    /** Declares a protected region between labels. */
    method Try(start: nat, end: nat, catch: nat, depth: int)
      requires Valid() && start < |labels| && end < |labels| && catch < |labels|
      modifies `regions
      ensures Valid() && regions == old(regions) + [Region(start, end, catch, depth)]
    {
      regions := regions + [Region(start, end, catch, depth)];
    }

    lemma Facts()
      requires Valid()
      ensures AllWhole(instrs) && OneEach(fixups) && forall i ::
        0 <= i < |fixups| ==> FixupOk(instrs, |labels|, fixups[i])
      ensures forall l :: 0 <= l < |labels| ==> -1 <= labels[l] <= |instrs|
      ensures forall i :: 0 <= i < |regions| ==> RegionOk(|labels|, regions[i])
    {
    }

    /** Resolves every branch. Fails on the first that is not bound or out of reach, with those before it resolved. */
    method Resolve(pos: seq<int>) returns (r: Assembled)
      requires Valid() && |pos| == |instrs| + 1 && forall k :: 0 <= k <= |instrs| ==> pos[k] == Pos(instrs, k)
      modifies `instrs
      ensures Valid() && exists n :: 0 <= n <= |fixups| && Patched(old(instrs), instrs, labels, fixups, n)
      ensures r.Done? <==> forall i :: 0 <= i < |fixups| ==> Resolvable(old(instrs), labels, fixups[i])
      ensures r.Done? ==> Patched(old(instrs), instrs, labels, fixups, |fixups|)
    {
      hide Patched, FixupOk, Resolvable, Whole, Distance;
      ghost var was := instrs;
      Facts();
      StartPatched(was, labels, fixups);
      for i := 0 to |fixups|
        invariant Patched(was, instrs, labels, fixups, i) && Valid()
        invariant forall j :: 0 <= j < i ==> Resolvable(was, labels, fixups[j])
      {
        var fx := fixups[i];
        FixupFacts(was, labels, fx);
        SizeKept(was, instrs, labels, fixups, i, fx.branch);
        var to := labels[fx.to];
        if to < 0 {
          return Failed(Unbound(fx.to));
        }
        var offset := pos[to] - (pos[fx.branch] + |instrs[fx.branch]|);
        if offset < -0x8000 || offset > 0x7fff {
          return Failed(OffsetRange(offset));
        }
        PatchNext(was, instrs, labels, fixups, i);
        instrs := instrs[fx.branch := SetArm(instrs[fx.branch], fx.arm, offset)];
        StillOk(was, instrs, labels, fixups, i + 1);
      }
      r := Done;
    }

    /** Resolves every region. */
    method Settle(pos: seq<int>) returns (r: Assembled)
      requires Valid() && |pos| == |instrs| + 1 && forall k :: 0 <= k <= |instrs| ==> pos[k] == Pos(instrs, k)
      modifies `resolved
      ensures Valid()
      ensures r.Done? <==> forall i :: 0 <= i < |regions| ==> Bound(instrs, labels, regions[i])
      ensures r.Done? ==> |resolved| == |regions| && forall i ::
        0 <= i < |regions| ==> resolved[i] == Settled(instrs, labels, regions[i])
    {
      hide Patched, FixupOk, Bound, Whole, AllWhole, OneEach;
      Facts();
      resolved := [];
      for i := 0 to |regions|
        invariant Valid()
        invariant |resolved| == i && forall j ::
          0 <= j < i ==> Bound(instrs, labels, regions[j]) && resolved[j] == Settled(instrs, labels, regions[j])
      {
        var region := regions[i];
        BoundIs(instrs, labels, region);
        var start, end, catch := labels[region.start], labels[region.end], labels[region.catch];
        if start < 0 {
          return Failed(Unbound(region.start));
        } else if end < 0 {
          return Failed(Unbound(region.end));
        } else if catch < 0 {
          return Failed(Unbound(region.catch));
        }
        resolved := resolved + [Handler(pos[start], pos[end], pos[catch], region.depth)];
      }
      r := Done;
    }

    /** Assembles the stream: every symbolic branch targets exactly the byte offset of its label, and every region is
        between the offsets of its labels. */
    method Assemble() returns (r: Assembled)
      requires Valid()
      modifies `instrs, `resolved
      ensures Valid() && exists n :: 0 <= n <= |fixups| && Patched(old(instrs), instrs, labels, fixups, n)
      ensures r.Done? <==>
                && (forall i :: 0 <= i < |fixups| ==> Resolvable(old(instrs), labels, fixups[i]))
                && (forall i :: 0 <= i < |regions| ==> Bound(old(instrs), labels, regions[i]))
      ensures r.Done? ==> Patched(old(instrs), instrs, labels, fixups, |fixups|)
      ensures r.Done? ==> forall i ::
        0 <= i < |fixups| ==> LeadsTo(instrs, fixups[i].branch, fixups[i].arm, labels[fixups[i].to])
      ensures r.Done? ==> |resolved| == |regions| && forall i ::
        0 <= i < |regions| ==> resolved[i] == Settled(old(instrs), labels, regions[i])
    {
      hide Patched, FixupOk, Resolvable, LeadsTo, Whole, Distance, Valid;
      ghost var was := instrs;
      var pos := Positions(instrs);
      r := Resolve(pos);
      if r.Failed? {
        return;
      }
      AllLead(was, instrs, labels, fixups);
      SamePositions(was, instrs, labels, fixups);
      r := Settle(pos);
      SameBounds(was, instrs, labels, regions);
    }
  }

  lemma SamePositions(was: seq<Instruction>, instrs: seq<Instruction>, labels: seq<int>, fixups: seq<Fixup>)
    requires Patched(was, instrs, labels, fixups, |fixups|)
    ensures |instrs| == |was| && forall k :: 0 <= k <= |was| ==> Pos(instrs, k) == Pos(was, k)
  {
    hide Whole, Arms, Disp, Core, Pos;
    forall b | 0 <= b < |was|
      ensures |instrs[b]| == |was[b]|
    {
      assert SameShape(was, instrs, b);
    }
    forall k | 0 <= k <= |was|
      ensures Pos(instrs, k) == Pos(was, k)
    {
      SamePos(was, instrs, k);
    }
  }

  lemma SameBounds(was: seq<Instruction>, instrs: seq<Instruction>, labels: seq<int>, regions: seq<Region>)
    requires |instrs| == |was| && forall k :: 0 <= k <= |was| ==> Pos(instrs, k) == Pos(was, k)
    ensures forall i :: 0 <= i < |regions| ==> (Bound(instrs, labels, regions[i]) <==> Bound(was, labels, regions[i]))
    ensures forall i :: 0 <= i < |regions| && Bound(was, labels, regions[i]) ==>
              Settled(instrs, labels, regions[i]) == Settled(was, labels, regions[i])
  {
    hide Pos;
  }

  /** Every instruction's byte offset, and the end. */
  method Positions(instrs: seq<Instruction>) returns (pos: seq<int>)
    ensures |pos| == |instrs| + 1 && forall k :: 0 <= k <= |instrs| ==> pos[k] == Pos(instrs, k)
  {
    pos := [0];
    for i := 0 to |instrs|
      invariant |pos| == i + 1 && forall k :: 0 <= k <= i ==> pos[k] == Pos(instrs, k)
    {
      pos := pos + [pos[i] + |instrs[i]|];
    }
  }

  lemma FixupFacts(was: seq<Instruction>, labels: seq<int>, fx: Fixup)
    requires FixupOk(was, |labels|, fx)
    ensures fx.branch < |was| && fx.to < |labels|
    ensures Resolvable(was, labels, fx) <==>
      0 <= labels[fx.to] <= |was| &&
      -0x8000 <= Pos(was, labels[fx.to]) - (Pos(was, fx.branch) + |was[fx.branch]|) < 0x8000
    ensures 0 <= labels[fx.to] <= |was| ==>
      Distance(was, labels, fx) == Pos(was, labels[fx.to]) - (Pos(was, fx.branch) + |was[fx.branch]|)
  {
  }

  lemma SizeKept(was: seq<Instruction>, instrs: seq<Instruction>, labels: seq<int>, fixups: seq<Fixup>, n: nat, b: int)
    requires Patched(was, instrs, labels, fixups, n) && 0 <= b < |was|
    ensures |instrs| == |was| && |instrs[b]| == |was[b]|
  {
    hide Whole, Arms, Disp, Core;
    assert SameShape(was, instrs, b);
  }

  lemma StillOk(was: seq<Instruction>, instrs: seq<Instruction>, labels: seq<int>, fixups: seq<Fixup>, n: nat)
    requires Patched(was, instrs, labels, fixups, n) && forall i ::
      0 <= i < |fixups| ==> FixupOk(was, |labels|, fixups[i])
    ensures AllWhole(instrs) && |instrs| == |was| && forall i ::
      0 <= i < |fixups| ==> FixupOk(instrs, |labels|, fixups[i])
  {
    hide Whole, Arms, Disp, Core;
    AllSome(instrs);
    forall i | 0 <= i < |fixups|
      ensures FixupOk(instrs, |labels|, fixups[i])
    {
      assert FixupOk(was, |labels|, fixups[i]);
      assert SameShape(was, instrs, fixups[i].branch);
    }
  }

  lemma AllLead(was: seq<Instruction>, instrs: seq<Instruction>, labels: seq<int>, fixups: seq<Fixup>)
    requires Patched(was, instrs, labels, fixups, |fixups|)
    ensures forall i ::
      0 <= i < |fixups| ==>
      fixups[i].to < |labels| && LeadsTo(instrs, fixups[i].branch, fixups[i].arm, labels[fixups[i].to])
  {
    hide Patched, LeadsTo;
    forall i | 0 <= i < |fixups|
      ensures fixups[i].to < |labels| && LeadsTo(instrs, fixups[i].branch, fixups[i].arm, labels[fixups[i].to])
    {
      ArmLeads(was, instrs, labels, fixups, |fixups|, i);
    }
  }

  lemma BoundIs(was: seq<Instruction>, labels: seq<int>, r: Region)
    requires RegionOk(|labels|, r) && forall l :: 0 <= l < |labels| ==> -1 <= labels[l] <= |was|
    ensures Bound(was, labels, r) <==> labels[r.start] >= 0 && labels[r.end] >= 0 && labels[r.catch] >= 0
  {
  }

  lemma TableWhole(n: nat)
    requires n < 256
    ensures Whole(BlankTable(n)) && IsBranch(BlankTable(n)[0]) && Arms(BlankTable(n), 0) == n + 1
  {
    Codec.TimesIs(n + 1, 2);
  }
}
