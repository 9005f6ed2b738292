/** Value numbering of a body: which computations, in different blocks, produce the same value. */
module Numbering {
  import opened Bytecode
  import opened Stacks
  import Blocks

  /** What gives a value an identity across blocks: a local that is never assigned, an instruction that always
      pushes the same value, or a pure operation on such values. */
  datatype Key = LocalKey(slot: int) | LeafKey(core: seq<Byte>) | OpKey(op: Byte, ids: seq<int>)

  /** Identity within a block; mutable loads carry a version. */
  datatype NumKey = LoadNum(space: Byte, index: int, version: int) | LeafNum(core: seq<Byte>) | OpNum(op: Byte,
      nums: seq<int>)

  /** One operand-stack entry: its number in the block, its group or -1, the code that computed it, its kind,
      and whether that code is self-contained. */
  datatype GSlot = GSlot(num: int, gid: int, start: int, end: int, kind: Kind, pure: bool)

  /** A block's first computation of a group. */
  datatype Compute = Compute(ip: int, start: int, end: int, kind: Kind, contig: bool)

  predicate Numeric(k: Kind) {
    k != Any && k != Ref
  }

  /** Deterministic value computations without side effects; division may still trap. */
  predicate IsPure(op: Byte) {
    || 31 <= op <= 33
    || (Fixed(op).Some? && |Fixed(op).value.pop| > 0 && |Fixed(op).value.push| == 1 && Numeric(Fixed(op).value.push[0])
        && forall i :: 0 <= i < |Fixed(op).value.pop| ==> Numeric(Fixed(op).value.pop[i]))
  }

  /** Operations whose operands the numbering puts in a fixed order. */
  predicate Commutes(op: Byte) {
    op in {32, 33, 35, 37, 45, 46, 47, 56, 57, 74, 76, 84, 85, 86, 96, 97, 113, 115, 129, 130, 142, 144, 158, 159}
  }

  /** Instructions that always push the same value: constants, pool loads and null. */
  predicate IsLeaf(op: Byte) {
    op == CONST_GET || op == 25 || op == 34 || op == 73 || op == 112 || op == 141
  }

  function Pops(op: Byte): nat {
    if Fixed(op).Some? then |Fixed(op).value.pop| else 0
  }

  function Pushes(op: Byte): nat {
    if Fixed(op).Some? then |Fixed(op).value.push| else 0
  }

  /** Opcodes that end numbering for the rest of the block. */
  predicate Opaque(op: Byte) {
    op == CALL || op == RETURN_CALL || op == RETURN || op == THROW || op == STRUCT_NEW || op == MAP_NEW ||
        op == CLOSURE_NEW
    || op == 12 || op == 13 || (Fixed(op).None? && !Handled(op))
  }

  /** Opcodes with an effect of their own. */
  predicate Handled(op: Byte) {
    op == NOP || op == UNREACHABLE || op == BR || op == LOCAL_GET || op == LOCAL_TEE || op == GLOBAL_TEE ||
        op == UPVAL_GET || op == CONST_GET
    || op == DUP || op == SWAP || op == SELECT
  }

  /** Opcodes that only take the top of the stack, if the block put it there. */
  predicate Takes(op: Byte) {
    op == 2 || op == BR_IF || op == BR_TABLE || op == GLOBAL_SET || op == UPVAL_SET || op == LOCAL_SET
  }

  /** The computations, by opcode: tests and comparisons of references, and the arithmetic of the four kinds of number
      but for its constants. */
  lemma PureByOpcode(op: Byte)
    ensures IsPure(op) <==> 31 <= op < 170 && op !in {34, 73, 112, 141}
  {
    var e := Fixed(op);
    if op == 34 || op == 73 || op == 112 || op == 141 {
      assert e.Some? && e.value.pop == [];
    } else if e.Some? && e.value.pop != [] && e.value.push != [] {
      assert op < 31 || op >= 170 ==>
          !Numeric(e.value.pop[0]) || !Numeric(e.value.pop[|e.value.pop| - 1]) || !Numeric(e.value.push[0]);
    }
  }

  /** What the numbering makes of the opcodes: which ones end it, which take the top of the stack whether or not it is
      known, and which always push the same value. */
  lemma Classes(op: Byte)
    ensures Opaque(op) <==> op in {9, 10, 11, 12, 13, 187, 190, 194, 203, 205} || op >= 210
    ensures Takes(op) <==> op in {2, 6, 7, 17, 20, 24}
    ensures IsLeaf(op) <==> op in {22, 25, 34, 73, 112, 141}
  {
  }

  lemma NotTakes(op: Byte)
    requires op == NOP || op == UNREACHABLE || op == BR || op == LOCAL_TEE || op == GLOBAL_TEE
    ensures !Takes(op)
  {
  }

  function PopOne(s: seq<GSlot>): seq<GSlot> {
    if s == [] then [] else s[..|s| - 1]
  }

  ghost predicate Named(names: seq<Key>, gid: int, key: Key) {
    0 <= gid < |names| && names[gid] == key
  }

  /** Every operation's operands were named before it. */
  ghost predicate WellNamed(names: seq<Key>) {
    forall g :: 0 <= g < |names| && names[g].OpKey? ==> forall i :: 0 <= i < |names[g].ids| ==> 0 <= names[g].ids[i] < g
  }

  function Gids(args: seq<GSlot>): (r: seq<int>)
    ensures |r| == |args|
  {
    seq(|args|, i requires 0 <= i < |args| => args[i].gid)
  }

  function Nums(args: seq<GSlot>): (r: seq<int>)
    ensures |r| == |args|
  {
    seq(|args|, i requires 0 <= i < |args| => args[i].num)
  }

  /** Operands of a commutative operation in a fixed order. */
  function Canonical(op: Byte, ids: seq<int>): seq<int> {
    if Commutes(op) && |ids| == 2 && ids[0] > ids[1] then [ids[1], ids[0]] else ids
  }

  /** The operands' code is self-contained and lies side by side up to ip. */
  ghost predicate Contiguous(args: seq<GSlot>, ip: int) {
    forall i :: 0 <= i < |args| ==> AdjacentAt(args, ip, i)
  }

  predicate AdjacentAt(args: seq<GSlot>, ip: int, i: int)
    requires 0 <= i < |args|
  {
    args[i].pure && args[i].end == if i + 1 < |args| then args[i + 1].start else ip
  }

  /** What numbering makes of the stack at the instruction at ip. */
  ghost predicate Steps(names: seq<Key>, stable: seq<bool>, code: seq<Byte>, ip: int, b: seq<GSlot>, a: seq<GSlot>)
    requires 0 <= ip < |code|
  {
    var op, end := code[ip], ip + Width(code, ip);
    !Opaque(op) &&
    if op == NOP || op == UNREACHABLE || op == BR then a == b
    else if Takes(op) then a == PopOne(b)
    else if op == LOCAL_TEE || op == GLOBAL_TEE then a == b
    else if op == LOCAL_GET || IsLeaf(op) || op == GLOBAL_GET || op == UPVAL_GET then
      && |a| == |b| + 1 && a[..|b|] == b
      && var g := a[|b|];
         && g.start == ip && g.end == end && g.pure
         && (if op == LOCAL_GET && Operand(code, ip) < |stable| && stable[Operand(code, ip)]
            then Named(names, g.gid, LocalKey(Operand(code, ip)))
             else if IsLeaf(op) then Named(names, g.gid, LeafKey(Core(code, ip)))
             else g.gid == -1)
    else if op == DUP then
      b != [] && |a| == |b| + 1 && a[..|b|] == b && a[|b|].gid == b[|b| - 1].gid && !a[|b|].pure
    else if op == SWAP then
      && |b| >= 2 && |a| == |b| && a[..|b| - 2] == b[..|b| - 2]
      && a[|b| - 1].gid == b[|b| - 2].gid && a[|b| - 2].gid == b[|b| - 1].gid && !a[|b| - 1].pure && !a[|b| - 2].pure
    else if op == SELECT then
      |b| >= 3 && |a| == |b| - 2 && a[..|b| - 3] == b[..|b| - 3] && a[|b| - 3].gid == -1 && !a[|b| - 3].pure
    else if IsPure(op) then
      Pops(op) > 0 && Pops(op) <= |b| && PureStep(names, op, ip, end, b, a, |b| - Pops(op))
    else
      && Pops(op) <= |b| && |a| == |b| - Pops(op) + Pushes(op) && a[..|b| - Pops(op)] == b[..|b| - Pops(op)]
      && forall i :: |b| - Pops(op) <= i < |a| ==> a[i].gid == -1 && !a[i].pure
  }

  /** Every operand has a group. */
  ghost predicate Grouped(args: seq<GSlot>) {
    forall i :: 0 <= i < |args| ==> args[i].gid >= 0
  }

  /** A pure operation on the entries from `base` on: it has a group exactly when every operand has. */
  ghost predicate PureStep(names: seq<Key>, op: Byte, ip: int, end: int, b: seq<GSlot>, a: seq<GSlot>, base: int)
    requires 0 <= base < |b|
  {
    && |a| == base + 1 && a[..base] == b[..base]
    && var g, args := a[base], b[base..];
       && g.start == b[base].start && g.end == end && (g.pure <==> Contiguous(args, ip))
       && Fixed(op).Some? && Fixed(op).value.push != [] && g.kind == Fixed(op).value.push[0]
       && (if Grouped(args) then Named(names, g.gid, OpKey(op, Canonical(op, Gids(args)))) else g.gid == -1)
  }

  /** Naming more values disturbs nothing. */
  lemma StepsGrow(names: seq<Key>, names': seq<Key>, stable: seq<bool>, code: seq<Byte>, ip: int, b: seq<GSlot>,
                  a: seq<GSlot>)
    requires 0 <= ip < |code| && names <= names' && Steps(names, stable, code, ip, b, a)
    ensures Steps(names', stable, code, ip, b, a)
  {
    hide Fixed, Operand, Core, Width, Canonical, Opaque, IsPure, IsLeaf, Takes, Pops, Pushes;
  }

  /** The stack before instruction k: empty at the start of a block, else what the one before it left. */
  ghost function BeforeOf(s: seq<int>, blocks: seq<Blocks.Block>, after: seq<Option<seq<GSlot>>>,
                          k: int): Option<seq<GSlot>>
    requires 0 <= k < |s| && |after| == |s| - 1
  {
    if StartsBlock(blocks, s[k]) then Some([]) else if k > 0 then after[k - 1] else None
  }

  ghost predicate StartsBlock(blocks: seq<Blocks.Block>, x: int) {
    exists j :: 0 <= j < |blocks| && blocks[j].start == x
  }

  type Gen = seq<map<int, Compute>>

  /** A recorded computation: instruction k of block b leaves the group's value on top. */
  ghost predicate GenAt(code: seq<Byte>, s: seq<int>, blocks: seq<Blocks.Block>, after: seq<Option<seq<GSlot>>>, b: int,
                        g: int, c: Compute, k: int)
    requires |after| == |s| - 1
  {
    && 0 <= k < |s| - 1 && s[k] == c.ip && s[k + 1] == c.end && Blocks.InBlock(blocks, b, s[k])
    && 0 <= s[k] < |code| && IsPure(code[s[k]]) && after[k].Some? && after[k].value != []
    && var top := after[k].value[|after[k].value| - 1];
       top.gid == g && c == Compute(s[k], top.start, s[k + 1], top.kind, top.pure) && top.end == s[k + 1]
  }

  ghost predicate GenOk(code: seq<Byte>, s: seq<int>, blocks: seq<Blocks.Block>, after: seq<Option<seq<GSlot>>>, b: int,
                        g: int, c: Compute)
    requires |after| == |s| - 1
  {
    exists k :: GenAt(code, s, blocks, after, b, g, c, k)
  }

  /** What numbering promises of a body. */
  ghost predicate Numbered(code: seq<Byte>, s: seq<int>, blocks: seq<Blocks.Block>, stable: seq<bool>, names: seq<Key>,
                           after: seq<Option<seq<GSlot>>>, gen: Gen)
    requires Layout(code, s)
  {
    && WellNamed(names) && |after| == |s| - 1 && |gen| == |blocks|
    && (forall k :: 0 <= k < |s| - 1 && after[k].Some? ==> StepAt(code, s, blocks, stable, names, after, k))
    && (forall b, g ::
       0 <= b < |gen| && g in gen[b] ==> 0 <= g < |names| && GenOk(code, s, blocks, after, b, g, gen[b][g]))
  }

  ghost predicate StepAt(code: seq<Byte>, s: seq<int>, blocks: seq<Blocks.Block>, stable: seq<bool>, names: seq<Key>,
                         after: seq<Option<seq<GSlot>>>, k: int)
    requires Layout(code, s) && |after| == |s| - 1 && 0 <= k < |s| - 1 && after[k].Some?
  {
    && 0 <= s[k] < |code| && BeforeOf(s, blocks, after, k).Some?
    && Steps(names, stable, code, s[k], BeforeOf(s, blocks, after, k).value, after[k].value)
  }

  /** No instruction assigns the local. */
  ghost predicate NeverAssigned(code: seq<Byte>, s: seq<int>, n: int, slot: int)
    requires Layout(code, s)
  {
    forall k :: 0 <= k < |s| - 1 && k < n && (code[s[k]] == LOCAL_SET || code[s[k]] == LOCAL_TEE) ==>
        Operand(code, s[k]) != slot
  }

  /** Which locals are never assigned. */
  method Stable(code: seq<Byte>, locals: nat, ghost s: seq<int>) returns (stable: seq<bool>)
    requires Layout(code, s)
    ensures |stable| == locals && forall slot ::
      0 <= slot < locals ==> (stable[slot] <==> NeverAssigned(code, s, |s| - 1, slot))
  {
    hide Layout, Operand, Width;
    stable := seq(locals, _ => true);
    var ip := 0;
    ghost var k := 0;
    Ends(code, s);
    while ip < |code|
      invariant 0 <= k <= |s| - 1 && ip == s[k] && |stable| == locals
      invariant forall slot :: 0 <= slot < locals ==> (stable[slot] <==> NeverAssigned(code, s, k, slot))
      decreases |code| - ip
    {
      Blocks.SlotsOf(code, s);
      LayoutNext(code, s, k);
      if code[ip] == LOCAL_SET || code[ip] == LOCAL_TEE {
        var slot := Operand(code, ip);
        if slot < |stable| {
          stable := stable[slot := false];
        }
      }
      forall slot | 0 <= slot < locals
        ensures stable[slot] <==> NeverAssigned(code, s, k + 1, slot)
      {
        AssignedNext(code, s, k, slot);
      }
      ip := ip + Width(code, ip);
      k := k + 1;
    }
    forall slot | 0 <= slot < locals
      ensures stable[slot] <==> NeverAssigned(code, s, |s| - 1, slot)
    {
      AtEnd(code, s, k);
    }
  }

  lemma AssignedNext(code: seq<Byte>, s: seq<int>, k: int, slot: int)
    requires Layout(code, s) && 0 <= k < |s| - 1
    ensures NeverAssigned(code, s, k + 1, slot) <==>
              NeverAssigned(code, s, k, slot) &&
                  !((code[s[k]] == LOCAL_SET || code[s[k]] == LOCAL_TEE) && Operand(code, s[k]) == slot)
  {
    hide Operand;
  }

  lemma Ends(code: seq<Byte>, s: seq<int>)
    requires Layout(code, s)
    ensures |s| > 0 && s[0] == 0 && s[|s| - 1] == |code|
  {
  }

  lemma AtEnd(code: seq<Byte>, s: seq<int>, k: int)
    requires Layout(code, s) && 0 <= k < |s| && s[k] >= |code|
    ensures k == |s| - 1
  {
  }
}
