/** The numbering pass: one walk over every block, with tables that grow as it goes. */
module Numberers {
  import opened Bytecode
  import opened Stacks
  import opened Numbering
  import Blocks

  /** keys interns names in order. */
  ghost predicate Interned(keys: map<Key, int>, names: seq<Key>) {
    && (forall k :: k in keys ==> 0 <= keys[k] < |names| && names[keys[k]] == k)
    && (forall g :: 0 <= g < |names| ==> names[g] in keys && keys[names[g]] == g)
    && WellNamed(names)
  }

  ghost predicate GidsBelow(s: seq<GSlot>, n: nat) {
    forall i :: 0 <= i < |s| ==> -1 <= s[i].gid < n
  }

  /** No two groups have one name. */
  ghost predicate NamedOnce(names: seq<Key>) {
    forall g, h :: 0 <= g < |names| && 0 <= h < |names| && names[g] == names[h] ==> g == h
  }

  /** How many entries of its own block an instruction must find to be numbered. */
  function Needs(op: Byte): nat {
    if op == LOCAL_TEE || op == DUP then 1 else if op == SWAP then 2 else if op == SELECT then 3
    else if Takes(op) || Handled(op) || IsLeaf(op) || op == GLOBAL_GET then 0 else Pops(op)
  }

  predicate Steppable(op: Byte, n: nat) {
    !Opaque(op) && Needs(op) <= n
  }

  ghost predicate IdsBelow(key: Key, n: nat) {
    key.OpKey? ==> forall i :: 0 <= i < |key.ids| ==> 0 <= key.ids[i] < n
  }

  lemma InternNext(keys: map<Key, int>, names: seq<Key>, key: Key)
    requires Interned(keys, names) && key !in keys && IdsBelow(key, |names|)
    ensures Interned(keys[key := |names|], names + [key])
  {
  }

  /** The interpreter and its tables for one body. */
  class Numberer {
    const code: seq<Byte>
    const locals: seq<Type>
    const stable: seq<bool>
    var keys: map<Key, int>
    ghost var names: seq<Key>
    var next: int
    var gen: Gen
    var stack: seq<GSlot>
    var exprs: map<NumKey, int>
    var localNum: map<int, int>
    var ver: map<(Byte, int), int>
    var count: int
    var block: int

    ghost predicate Valid()
      reads this
    {
      Interned(keys, names) && next == |names| && GidsBelow(stack, |names|) && 0 <= block < |gen|
    }

    constructor (code: seq<Byte>, locals: seq<Type>, stable: seq<bool>, blocks: nat)
      requires blocks > 0
      ensures Valid() && this.code == code && this.stable == stable && names == [] && stack == []
      ensures this.locals == locals
      ensures gen == seq(blocks, _ => map[])
    {
      this.code := code;
      this.locals := locals;
      this.stable := stable;
      keys, names, next := map[], [], 0;
      gen := seq(blocks, _ => map[]);
      stack, exprs, localNum, ver := [], map[], map[], map[];
      count, block := 0, 0;
    }

    lemma Facts()
      requires Valid()
      ensures WellNamed(names) && GidsBelow(stack, |names|) && NamedOnce(names)
    {
      forall g, h | 0 <= g < |names| && 0 <= h < |names| && names[g] == names[h]
        ensures g == h
      {
        assert keys[names[g]] == g && keys[names[h]] == h;
      }
    }

    /** Starts a block with nothing known. */
    method Reset(b: int)
      requires Valid() && 0 <= b < |gen|
      modifies this
      ensures Valid() && names == old(names) && stack == [] && block == b && gen == old(gen)[b := map[]]
      ensures exprs == map[]
    {
      block := b;
      gen := gen[b := map[]];
      stack, exprs, localNum, ver := [], map[], map[], map[];
    }

    method Fresh() returns (num: int)
      modifies `count
      ensures num == old(count) && count == num + 1
    {
      num := count;
      count := count + 1;
    }

    /** Interns a key; an opaque value has no group. */
    method IdOf(key: Option<Key>) returns (id: int)
      requires Valid() && (key.Some? ==> IdsBelow(key.value, |names|))
      modifies `keys, `names, `next
      ensures Valid() && old(names) <= names && stack == old(stack) && gen == old(gen)
      ensures id == -1 <==> key.None?
      ensures key.Some? ==> Named(names, id, key.value)
    {
      if key.None? {
        return -1;
      }
      if key.value in keys {
        return keys[key.value];
      }
      InternNext(keys, names, key.value);
      id := next;
      keys := keys[key.value := next];
      names := names + [key.value];
      next := next + 1;
    }

    method NumberOf(key: NumKey) returns (num: int, seen: bool)
      modifies `exprs, `count
      ensures seen <==> key in old(exprs)
      ensures seen ==> exprs == old(exprs) && count == old(count) && num == exprs[key]
      ensures !seen ==> exprs == old(exprs)[key := num] && num == old(count) && count == num + 1
    {
      if key in exprs {
        return exprs[key], true;
      }
      num := Fresh();
      exprs := exprs[key := num];
      seen := false;
    }

    method Pop() returns (s: GSlot)
      requires Valid()
      modifies `stack, `count
      ensures Valid() && stack == PopOne(old(stack))
      ensures old(stack) != [] ==> s == old(stack)[|old(stack)| - 1]
    {
      if |stack| == 0 {
        var num := Fresh();
        return GSlot(num, -1, 0, 0, Any, false);
      }
      s := stack[|stack| - 1];
      stack := stack[..|stack| - 1];
    }

    function Version(space: Byte, index: int): int
      reads this`ver
    {
      if (space, index) in ver then ver[(space, index)] else 0
    }

    method Bump(space: Byte, index: int)
      modifies `ver
    {
      ver := ver[(space, index) := Version(space, index) + 1];
    }

    function KindOfLocal(slot: int): Kind {
      if 0 <= slot < |locals| then KindOf(locals[slot]) else Any
    }

    /** A load, a constant or a pool entry. */
    method PushLeaf(ip: int, end: int, num: NumKey, key: Option<Key>, kind: Kind)
      requires Valid() && (key.Some? ==> !key.value.OpKey?) && !num.OpNum?
      modifies this
      ensures Valid() && old(names) <= names && gen == old(gen) && block == old(block)
      ensures |stack| == |old(stack)| + 1 && stack[..|old(stack)|] == old(stack)
      ensures var g := stack[|old(stack)|];
              && g.start == ip && g.end == end && g.pure
              && if key.Some? then Named(names, g.gid, key.value) else g.gid == -1
      ensures Numbers(old(exprs), exprs, None)
    {
      var n, _ := NumberOf(num);
      var id := IdOf(key);
      stack := stack + [GSlot(n, id, ip, end, kind, true)];
    }

    method LoadLocal(ip: int, end: int, slot: int)
      requires Valid()
      modifies this
      ensures Valid() && old(names) <= names && gen == old(gen) && block == old(block)
      ensures |stack| == |old(stack)| + 1 && stack[..|old(stack)|] == old(stack)
      ensures var g := stack[|old(stack)|];
              && g.start == ip && g.end == end && g.pure
              && if 0 <= slot < |stable| && stable[slot] then Named(names, g.gid, LocalKey(slot)) else g.gid == -1
      ensures Numbers(old(exprs), exprs, None)
    {
      var num;
      if slot in localNum {
        num := localNum[slot];
      } else {
        num := Fresh();
        localNum := localNum[slot := num];
      }
      var id := IdOf(if 0 <= slot < |stable| && stable[slot] then Some(LocalKey(slot)) else None);
      stack := stack + [GSlot(num, id, ip, end, KindOfLocal(slot), true)];
    }

    /** A pure operation: grouped by its operands, recorded when its number and its group are new to the block. */
    method Pure(ip: int, end: int, op: Byte) returns (ok: bool)
      requires Valid() && IsPure(op) && Pops(op) > 0 && Fixed(op).Some? && Fixed(op).value.push != []
      modifies this
      ensures Valid() && old(names) <= names && block == old(block)
      ensures ok <==> Pops(op) <= |old(stack)|
      ensures !ok ==> stack == old(stack) && gen == old(gen)
      ensures ok ==> PureStep(names, op, ip, end, old(stack), stack, |old(stack)| - Pops(op))
      ensures ok ==> Records(old(gen), gen, block, ip, end, stack)
      ensures ok ==> RecordsFirst(op, old(stack), old(exprs), old(gen), gen, block, ip, stack)
      ensures ok ==> Numbers(old(exprs), exprs, Some(KeyOf(op, old(stack))))
    {
      hide Fixed, IsPure, Commutes, Pops, Interned, GidsBelow, Contiguous, Canonical;
      var n := Pops(op);
      if |stack| < n {
        return false;
      }
      var base := |stack| - n;
      var args := stack[base..];
      ghost var before := stack;
      var start := stack[base].start;
      var contig := Adjacent(args, ip);
      var known := AllKnown(args);
      stack := stack[..base];
      BelowPrefix(before, base, |names|);
      CanonicalBelow(op, args, |names|);
      var kind := Fixed(op).value.push[0];
      var gid := IdOf(if known then Some(OpKey(op, Canonical(op, Gids(args)))) else None);
      var num, seen := NumberOf(OpNum(op, Canonical(op, Nums(args))));
      if !seen && gid >= 0 && gid !in gen[block] {
        gen := gen[block := gen[block][gid := Compute(ip, start, end, kind, contig)]];
      }
      stack := stack + [GSlot(num, gid, start, end, kind, contig)];
      BelowSnoc(before[..base], GSlot(num, gid, start, end, kind, contig), |names|);
      assert stack[..base] == before[..base];
      ok := true;
    }

    /** The opcodes that only move entries or load values. */
    method Simple(ip: int, end: int, op: Byte) returns (ok: bool)
      requires Valid() && 0 <= ip < |code| && op == code[ip] && end == ip + Width(code, ip) && !Opaque(op)
      requires !IsPure(op)
      requires op == NOP || op == UNREACHABLE || op == BR || Takes(op) || op == LOCAL_TEE || op == GLOBAL_TEE ||
        op == LOCAL_GET || IsLeaf(op)
               || op == GLOBAL_GET || op == UPVAL_GET
      modifies this
      ensures Valid() && old(names) <= names && gen == old(gen) && block == old(block)
      ensures ok ==> Steps(names, stable, code, ip, old(stack), stack)
      ensures !ok <==> op == LOCAL_TEE && old(stack) == []
      ensures Numbers(old(exprs), exprs, None)
    {
      hide Fixed, IsPure, Opaque, Interned, GidsBelow, Width, Operand, Core, Pops, Pushes;
      ok := true;
      var n := Operand(code, ip);
      if op == NOP || op == UNREACHABLE || op == BR {
        return;
      } else if Takes(op) {
        var v := Pop();
        if op == LOCAL_SET {
          localNum := localNum[n := v.num];
        } else if op == GLOBAL_SET || op == UPVAL_SET {
          Bump(if op == GLOBAL_SET then GLOBAL_GET else UPVAL_GET, n);
        }
      } else if op == LOCAL_TEE {
        if |stack| == 0 {
          return false;
        }
        localNum := localNum[n := stack[|stack| - 1].num];
      } else if op == GLOBAL_TEE {
        Bump(GLOBAL_GET, n);
      } else if op == LOCAL_GET {
        LoadLocal(ip, end, n);
      } else if IsLeaf(op) {
        var core := Core(code, ip);
        PushLeaf(ip, end, LeafNum(core), Some(LeafKey(core)), LeafKind(op));
      } else {
        PushLeaf(ip, end, LoadNum(op, n, Version(op, n)), None, Any);
      }
    }

    /** dup, swap and select. */
    method Shuffle(ip: int, end: int, op: Byte) returns (ok: bool)
      requires Valid() && 0 <= ip < |code| && op == code[ip] && end == ip + Width(code, ip) && !Opaque(op)
      requires op == DUP || op == SWAP || op == SELECT
      modifies this
      ensures Valid() && names == old(names) && gen == old(gen) && block == old(block)
      ensures ok ==> Steps(names, stable, code, ip, old(stack), stack)
      ensures !ok <==> |old(stack)| < (if op == DUP then 1 else if op == SWAP then 2 else 3)
      ensures Numbers(old(exprs), exprs, None)
    {
      hide Fixed, IsPure, Opaque, Width, Operand, Core, Pops, Pushes, Interned;
      var n := |stack|;
      if n < (if op == DUP then 1 else if op == SWAP then 2 else 3) {
        return false;
      }
      ok := true;
      ghost var before := stack;
      if op == DUP {
        var s := stack[n - 1];
        stack := stack + [GSlot(s.num, s.gid, ip, end, s.kind, false)];
      } else if op == SWAP {
        var x, y := stack[n - 1].(pure := false), stack[n - 2].(pure := false);
        stack := stack[..n - 2] + [x, y];
      } else {
        var num := Fresh();
        stack := stack[..n - 3] + [GSlot(num, -1, ip, end, Any, false)];
      }
    }

    /** Any other opcode with a fixed effect. */
    method Generic(ip: int, end: int, op: Byte) returns (ok: bool)
      requires Valid() && 0 <= ip < |code| && op == code[ip] && end == ip + Width(code, ip) && !Opaque(op)
      requires !IsPure(op)
      requires Fixed(op).Some? && !Takes(op) && !Handled(op) && !IsLeaf(op) && op != GLOBAL_GET
      modifies this
      ensures Valid() && names == old(names) && gen == old(gen) && block == old(block)
      ensures ok ==> Steps(names, stable, code, ip, old(stack), stack)
      ensures !ok <==> |old(stack)| < Pops(op)
      ensures Numbers(old(exprs), exprs, None)
    {
      hide Fixed, IsPure, Opaque, Width, Operand, Core, Interned;
      var effect := Fixed(op).value;
      if |stack| < |effect.pop| {
        return false;
      }
      var base := |stack| - |effect.pop|;
      stack := stack[..base];
      for i := 0 to |effect.push|
        invariant Valid() && |stack| == base + i && stack[..base] == old(stack)[..base]
        invariant forall j :: base <= j < |stack| ==> stack[j].gid == -1 && !stack[j].pure
        invariant names == old(names) && gen == old(gen) && block == old(block) && exprs == old(exprs)
      {
        var num := Fresh();
        stack := stack + [GSlot(num, -1, ip, end, effect.push[i], false)];
      }
      ok := true;
    }

    /** An instruction that computes no pure operation. */
    method Move(ip: int) returns (ok: bool)
      requires Valid() && 0 <= ip < |code| && !Opaque(code[ip]) && !IsPure(code[ip])
      modifies this
      ensures Valid() && old(names) <= names && gen == old(gen) && block == old(block)
      ensures ok ==> Steps(names, stable, code, ip, old(stack), stack)
      ensures ok <==> Needs(code[ip]) <= |old(stack)|
      ensures Numbers(old(exprs), exprs, None)
    {
      hide Fixed, IsPure, Opaque, Width, Operand, Core, Interned, GidsBelow, Steps, PureStep, Pops, Pushes, Takes,
           Numbers;
      var op, end := code[ip], ip + Width(code, ip);
      OpKinds(op);
      if op == DUP || op == SWAP || op == SELECT {
        ok := Shuffle(ip, end, op);
      } else if Takes(op) || Handled(op) || IsLeaf(op) || op == GLOBAL_GET {
        ok := Simple(ip, end, op);
      } else {
        ok := Generic(ip, end, op);
      }
    }

    /** Folds one instruction into the stack. False ends the block. */
    method Step(ip: int) returns (ok: bool)
      requires Valid() && 0 <= ip < |code|
      modifies this
      ensures ok <==> Steppable(code[ip], |old(stack)|)
      ensures Valid() && old(names) <= names && block == old(block)
      ensures ok ==> Steps(names, stable, code, ip, old(stack), stack)
      ensures ok ==> Records(old(gen), gen, block, ip, ip + Width(code, ip), stack)
      ensures gen != old(gen) ==> ok && IsPure(code[ip])
      ensures ok && IsPure(code[ip]) ==> RecordsFirst(code[ip], old(stack), old(exprs), old(gen), gen, block, ip, stack)
      ensures ok ==> Numbers(old(exprs), exprs, if IsPure(code[ip]) then Some(KeyOf(code[ip], old(stack))) else None)
      ensures |gen| == |old(gen)| && forall d :: 0 <= d < |gen| && d != block ==> gen[d] == old(gen)[d]
    {
      hide Fixed, IsPure, Opaque, Width, Operand, Core, Interned, GidsBelow, Steps, PureStep, Records, RecordsFirst,
           Pops, Pushes, Takes, Numbers, Handled, IsLeaf;
      var op, end := code[ip], ip + Width(code, ip);
      if Opaque(op) {
        return false;
      }
      if IsPure(op) {
        ghost var before := stack;
        OpKinds(op);
        ok := Pure(ip, end, op);
        if ok {
          PureSteps(names, stable, code, ip, before, stack);
          RecordsSize(old(gen), gen, block, ip, end, stack);
        }
      } else {
        ok := Move(ip);
        SameRecords(gen, block, ip, end, stack);
      }
    }
  }

  function LeafKind(op: Byte): Kind {
    if op == 34 then I32 else if op == 73 then I64 else if op == 112 then F32 else if op == 141 then F64
        else if op == 25 then Ref else Any
  }

  lemma RecordsSize(gen: Gen, gen': Gen, b: int, ip: int, end: int, stack: seq<GSlot>)
    requires Records(gen, gen', b, ip, end, stack)
    ensures |gen'| == |gen| && forall d :: 0 <= d < |gen| && d != b ==> gen'[d] == gen[d]
  {
  }

  lemma SameRecords(gen: Gen, b: int, ip: int, end: int, stack: seq<GSlot>)
    ensures Records(gen, gen, b, ip, end, stack)
  {
  }

  /** The families of opcodes do not overlap. */
  lemma OpKinds(op: Byte)
    ensures IsPure(op) ==>
      !Takes(op) && !Handled(op) && !IsLeaf(op) && op != GLOBAL_GET && Pops(op) > 0 && Fixed(op).Some? &&
      Fixed(op).value.push != []
    ensures IsPure(op) ==> Needs(op) == Pops(op)
    ensures !Opaque(op) && !Handled(op) ==> Fixed(op).Some?
  {
  }

  lemma PureSteps(names: seq<Key>, stable: seq<bool>, code: seq<Byte>, ip: int, b: seq<GSlot>, a: seq<GSlot>)
    requires 0 <= ip < |code| && IsPure(code[ip]) && !Opaque(code[ip]) && 0 < Pops(code[ip]) <= |b|
    requires PureStep(names, code[ip], ip, ip + Width(code, ip), b, a, |b| - Pops(code[ip]))
    ensures Steps(names, stable, code, ip, b, a)
  {
    hide Fixed, IsPure, Opaque, Width, Operand, Core, PureStep;
    OpKinds(code[ip]);
  }

  /** gen' adds at most the value on top of the stack to block b's computations. */
  ghost predicate Records(gen: Gen, gen': Gen, b: int, ip: int, end: int, stack: seq<GSlot>) {
    || gen' == gen
    || (stack != [] && 0 <= b < |gen| &&
        var g := stack[|stack| - 1];
        g.gid >= 0 && g.end == end && gen' == gen[b := gen[b][g.gid := Compute(ip, g.start, end, g.kind, g.pure)]])
  }

  /** The number an operation on the entries on top of the stack goes by. */
  function KeyOf(op: Byte, b: seq<GSlot>): NumKey {
    OpNum(op, Canonical(op, Nums(if Pops(op) <= |b| then b[|b| - Pops(op)..] else b)))
  }

  /** The value on top of the stack is recorded as the block's computation of its group exactly when the operation was
      not yet seen on the same numbers, it has a group, and the block has none of that group. */
  ghost predicate RecordsFirst(op: Byte, before: seq<GSlot>, exprs: map<NumKey, int>, gen: Gen, gen': Gen, b: int,
                               ip: int, stack: seq<GSlot>) {
    && stack != [] && 0 <= b < |gen|
    && var g := stack[|stack| - 1];
       gen' == (if KeyOf(op, before) !in exprs && g.gid >= 0 && g.gid !in gen[b]
                then gen[b := gen[b][g.gid := Compute(ip, g.start, g.end, g.kind, g.pure)]] else gen)
  }

  /** At most one operation is newly seen. */
  ghost predicate Numbers(exprs: map<NumKey, int>, exprs': map<NumKey, int>, added: Option<NumKey>) {
    forall key :: key in exprs' && key.OpNum? ==> key in exprs || Some(key) == added
  }

  /** Instruction k is a pure operation that has been numbered. */
  ghost predicate Computes(code: seq<Byte>, s: seq<int>, after: seq<Option<seq<GSlot>>>, k: int) {
    0 <= k < |s| - 1 && k < |after| && 0 <= s[k] < |code| && IsPure(code[s[k]]) && after[k].Some? &&
        after[k].value != []
  }

  ghost function TopOf(after: seq<Option<seq<GSlot>>>, k: int): GSlot
    requires 0 <= k < |after| && after[k].Some? && after[k].value != []
  {
    after[k].value[|after[k].value| - 1]
  }

  /** Instruction m computes the operation on the numbers that key says. */
  ghost predicate KeyIs(code: seq<Byte>, s: seq<int>, blocks: seq<Blocks.Block>, after: seq<Option<seq<GSlot>>>, m: int,
                        key: NumKey)
    requires |after| == |s| - 1
  {
    Computes(code, s, after, m) && BeforeOf(s, blocks, after, m).Some? &&
        key == KeyOf(code[s[m]], BeforeOf(s, blocks, after, m).value)
  }

  /** And it stands in block b, before k. */
  ghost predicate SeenAt(code: seq<Byte>, s: seq<int>, blocks: seq<Blocks.Block>, after: seq<Option<seq<GSlot>>>,
                         b: int, m: int, k: int, key: NumKey)
    requires |after| == |s| - 1
  {
    m < k && KeyIs(code, s, blocks, after, m, key) && Blocks.InBlock(blocks, b, s[m])
  }

  /** The group that instruction k of block b computes is recorded, unless the same operation on the same numbers came
      before it in the block. */
  ghost predicate CompleteAt(code: seq<Byte>, s: seq<int>, blocks: seq<Blocks.Block>, after: seq<Option<seq<GSlot>>>,
                             gen: Gen, b: int, k: int)
    requires |after| == |s| - 1
  {
    Computes(code, s, after, k) && Blocks.InBlock(blocks, b, s[k]) && TopOf(after, k).gid >= 0 && 0 <= b < |gen| ==>
      TopOf(after, k).gid in gen[b] ||
      exists m, key :: KeyIs(code, s, blocks, after, k, key) && SeenAt(code, s, blocks, after, b, m, k, key)
  }

  ghost predicate CompleteTo(code: seq<Byte>, s: seq<int>, blocks: seq<Blocks.Block>, after: seq<Option<seq<GSlot>>>,
                             gen: Gen, b: int, n: int)
    requires |after| == |s| - 1
  {
    forall k :: k < n ==> CompleteAt(code, s, blocks, after, gen, b, k)
  }

  /** Block b's record is complete. */
  ghost predicate Complete(code: seq<Byte>, s: seq<int>, blocks: seq<Blocks.Block>, after: seq<Option<seq<GSlot>>>,
                           gen: Gen, b: int)
    requires |after| == |s| - 1
  {
    CompleteTo(code, s, blocks, after, gen, b, |s| - 1)
  }

  ghost predicate Known(code: seq<Byte>, s: seq<int>, blocks: seq<Blocks.Block>, after: seq<Option<seq<GSlot>>>,
                        exprs: map<NumKey, int>, b: int, k: int)
    requires |after| == |s| - 1
  {
    forall key :: key in exprs && key.OpNum? ==> Seen(code, s, blocks, after, b, k, key)
  }

  ghost predicate Seen(code: seq<Byte>, s: seq<int>, blocks: seq<Blocks.Block>, after: seq<Option<seq<GSlot>>>, b: int,
                       k: int, key: NumKey)
    requires |after| == |s| - 1
  {
    exists m :: SeenAt(code, s, blocks, after, b, m, k, key)
  }

  /** What has been seen stays seen when instruction k is numbered. */
  lemma SeenStays(code: seq<Byte>, s: seq<int>, blocks: seq<Blocks.Block>, after: seq<Option<seq<GSlot>>>, b: int,
                  m: int, n: int, k: int, stack: seq<GSlot>, key: NumKey)
    requires |after| == |s| - 1 && 0 <= k < |after| && after[k].None? && n <= k
    requires SeenAt(code, s, blocks, after, b, m, n, key)
    ensures SeenAt(code, s, blocks, after[k := Some(stack)], b, m, n, key)
    ensures SeenAt(code, s, blocks, after[k := Some(stack)], b, m, k + 1, key)
  {
    hide IsPure, Blocks.InBlock, KeyOf, StartsBlock;
  }

  /** Numbering one more instruction keeps the record complete. */
  lemma CompleteNext(code: seq<Byte>, s: seq<int>, blocks: seq<Blocks.Block>, after: seq<Option<seq<GSlot>>>, gen: Gen,
                     gen': Gen, b: int, k: int, stack: seq<GSlot>, before: seq<GSlot>, exprs: map<NumKey, int>,
                     exprs': map<NumKey, int>)
    requires 0 <= k < |s| - 1 && |after| == |s| - 1 && after[k].None? && 0 <= s[k] < |code|
    requires Blocks.InBlock(blocks, b, s[k]) && BeforeOf(s, blocks, after, k) == Some(before)
    requires CompleteTo(code, s, blocks, after, gen, b, k) && Known(code, s, blocks, after, exprs, b, k)
    requires if IsPure(code[s[k]])
      then RecordsFirst(code[s[k]], before, exprs, gen, gen', b, s[k], stack) &&
           Numbers(exprs, exprs', Some(KeyOf(code[s[k]], before)))
      else gen' == gen && Numbers(exprs, exprs', None)
    ensures CompleteTo(code, s, blocks, after[k := Some(stack)], gen', b, k + 1)
    ensures Known(code, s, blocks, after[k := Some(stack)], exprs', b, k + 1)
  {
    hide IsPure, Blocks.InBlock, CompleteAt, KeyOf, StartsBlock;
    var after' := after[k := Some(stack)];
    forall key | key in exprs' && key.OpNum?
      ensures Seen(code, s, blocks, after', b, k + 1, key)
    {
      if key in exprs {
        assert Seen(code, s, blocks, after, b, k, key);
        var m :| SeenAt(code, s, blocks, after, b, m, k, key);
        SeenStays(code, s, blocks, after, b, m, k, k, stack, key);
      } else {
        assert SeenAt(code, s, blocks, after', b, k, k + 1, key);
      }
    }
    forall j | j < k + 1
      ensures CompleteAt(code, s, blocks, after', gen', b, j)
    {
      if j < k {
        CompleteStays(code, s, blocks, after, gen, gen', b, k, stack, j);
      } else {
        CompleteNow(code, s, blocks, after, gen, gen', b, k, stack, before, exprs);
      }
    }
  }

  lemma CompleteStays(code: seq<Byte>, s: seq<int>, blocks: seq<Blocks.Block>, after: seq<Option<seq<GSlot>>>, gen: Gen,
                      gen': Gen, b: int, k: int, stack: seq<GSlot>, j: int)
    requires |after| == |s| - 1 && 0 <= k < |after| && after[k].None? && j < k
    requires CompleteAt(code, s, blocks, after, gen, b, j)
    requires |gen'| == |gen| && (0 <= b < |gen| ==> forall g :: g in gen[b] ==> g in gen'[b])
    ensures CompleteAt(code, s, blocks, after[k := Some(stack)], gen', b, j)
  {
    hide IsPure, Blocks.InBlock, KeyOf, StartsBlock, SeenAt;
    var after' := after[k := Some(stack)];
    if Computes(code, s, after', j) && Blocks.InBlock(blocks, b, s[j]) && TopOf(after', j).gid >= 0 &&
        0 <= b < |gen| && TopOf(after', j).gid !in gen'[b] {
      var m, key :| KeyIs(code, s, blocks, after, j, key) && SeenAt(code, s, blocks, after, b, m, j, key);
      SeenStays(code, s, blocks, after, b, m, j, k, stack, key);
      assert KeyIs(code, s, blocks, after', j, key);
    }
  }

  lemma CompleteNow(code: seq<Byte>, s: seq<int>, blocks: seq<Blocks.Block>, after: seq<Option<seq<GSlot>>>, gen: Gen,
                    gen': Gen, b: int, k: int, stack: seq<GSlot>, before: seq<GSlot>, exprs: map<NumKey, int>)
    requires 0 <= k < |s| - 1 && |after| == |s| - 1 && 0 <= s[k] < |code| && Known(code, s, blocks, after, exprs, b, k)
    requires after[k].None? && BeforeOf(s, blocks, after, k) == Some(before)
    requires IsPure(code[s[k]]) ==> RecordsFirst(code[s[k]], before, exprs, gen, gen', b, s[k], stack)
    ensures CompleteAt(code, s, blocks, after[k := Some(stack)], gen', b, k)
  {
    hide IsPure, Blocks.InBlock, StartsBlock, SeenAt, Canonical;
    var after' := after[k := Some(stack)];
    if Computes(code, s, after', k) && Blocks.InBlock(blocks, b, s[k]) && TopOf(after', k).gid >= 0 && 0 <= b < |gen'| {
      var key := KeyOf(code[s[k]], before);
      if key in exprs {
        assert Seen(code, s, blocks, after, b, k, key);
        var m :| SeenAt(code, s, blocks, after, b, m, k, key);
        SeenStays(code, s, blocks, after, b, m, k, k, stack, key);
        assert KeyIs(code, s, blocks, after', k, key);
      }
    }
  }

  lemma BelowPrefix(s: seq<GSlot>, k: nat, n: nat)
    requires GidsBelow(s, n) && k <= |s|
    ensures GidsBelow(s[..k], n) && GidsBelow(s[k..], n)
  {
  }

  lemma BelowSnoc(s: seq<GSlot>, x: GSlot, n: nat)
    requires -1 <= x.gid < n
    ensures GidsBelow(s, n) ==> GidsBelow(s + [x], n)
  {
  }

  lemma CanonicalBelow(op: Byte, args: seq<GSlot>, n: nat)
    requires GidsBelow(args, n)
    ensures Grouped(args) ==> IdsBelow(OpKey(op, Canonical(op, Gids(args))), n)
  {
  }

  /** Whether the operands' code is self-contained and side by side up to ip. */
  method Adjacent(args: seq<GSlot>, ip: int) returns (ok: bool)
    ensures ok <==> Contiguous(args, ip)
  {
    ok := true;
    for i := 0 to |args|
      invariant ok <==> forall j :: 0 <= j < i ==> AdjacentAt(args, ip, j)
    {
      if !AdjacentAt(args, ip, i) {
        ok := false;
      }
    }
  }

  method AllKnown(args: seq<GSlot>) returns (ok: bool)
    ensures ok <==> Grouped(args)
  {
    ok := true;
    for i := 0 to |args|
      invariant ok <==> forall j :: 0 <= j < i ==> args[j].gid >= 0
    {
      if args[i].gid < 0 {
        ok := false;
      }
    }
  }

  ghost predicate Unvisited(after: seq<Option<seq<GSlot>>>, k: int) {
    forall m :: 0 <= m < |after| && k <= m ==> after[m].None?
  }

  /** Block starts in order, on instructions. */
  ghost predicate Tiled(s: seq<int>, blocks: seq<Blocks.Block>, size: int) {
    && |blocks| > 0
    && (forall j ::
       0 <= j < |blocks| ==>
       blocks[j].start in s && blocks[j].end in s && 0 <= blocks[j].start <= blocks[j].end <= size)
    && (forall i, j :: 0 <= i < j < |blocks| ==> blocks[i].end <= blocks[j].start)
  }

  lemma NothingNumbered(code: seq<Byte>, s: seq<int>, blocks: seq<Blocks.Block>, stable: seq<bool>,
                        after: seq<Option<seq<GSlot>>>, gen: Gen)
    requires Layout(code, s) && |after| == |s| - 1 && Unvisited(after, 0)
    requires |gen| == |blocks| && forall b :: 0 <= b < |gen| ==> gen[b] == map[]
    ensures Numbered(code, s, blocks, stable, [], after, gen)
  {
  }

  lemma GenStays(code: seq<Byte>, s: seq<int>, blocks: seq<Blocks.Block>, after: seq<Option<seq<GSlot>>>, k: int,
                 v: seq<GSlot>, b: int, g: int, c: Compute)
    requires |after| == |s| - 1 && 0 <= k < |after| && after[k].None? && GenOk(code, s, blocks, after, b, g, c)
    ensures GenOk(code, s, blocks, after[k := Some(v)], b, g, c)
  {
    hide IsPure, Blocks.InBlock;
    var m :| GenAt(code, s, blocks, after, b, g, c, m);
    assert GenAt(code, s, blocks, after[k := Some(v)], b, g, c, m);
  }

  lemma StepStays(code: seq<Byte>, s: seq<int>, blocks: seq<Blocks.Block>, stable: seq<bool>, names: seq<Key>,
                  names': seq<Key>, after: seq<Option<seq<GSlot>>>, k: int, v: seq<GSlot>, m: int)
    requires Layout(code, s) && |after| == |s| - 1 && 0 <= m < k < |after| && names <= names'
    requires after[m].Some? && StepAt(code, s, blocks, stable, names, after, m)
    ensures StepAt(code, s, blocks, stable, names', after[k := Some(v)], m)
  {
    hide Steps, StartsBlock;
    StepsGrow(names, names', stable, code, s[m], BeforeOf(s, blocks, after, m).value, after[m].value);
  }

  /** One more instruction numbered. */
  lemma NumberedNext(code: seq<Byte>, s: seq<int>, blocks: seq<Blocks.Block>, stable: seq<bool>, names: seq<Key>,
                     names': seq<Key>, after: seq<Option<seq<GSlot>>>, gen: Gen, gen': Gen, b: int, k: int,
                     before: seq<GSlot>, stack: seq<GSlot>)
    requires Layout(code, s) && Numbered(code, s, blocks, stable, names, after, gen) && Unvisited(after, k)
    requires names <= names' && WellNamed(names')
    requires 0 <= k < |s| - 1 && Blocks.InBlock(blocks, b, s[k]) && 0 <= s[k] < |code|
    requires BeforeOf(s, blocks, after, k) == Some(before) && Steps(names', stable, code, s[k], before, stack)
    requires Records(gen, gen', b, s[k], s[k + 1], stack) && (gen' != gen ==> IsPure(code[s[k]]))
    requires GidsBelow(stack, |names'|)
    ensures Numbered(code, s, blocks, stable, names', after[k := Some(stack)], gen')
    ensures Unvisited(after[k := Some(stack)], k + 1)
  {
    hide Steps, IsPure, StartsBlock, WellNamed, StepAt, GenOk;
    var after' := after[k := Some(stack)];
    forall m | 0 <= m < |s| - 1 && after'[m].Some?
      ensures StepAt(code, s, blocks, stable, names', after', m)
    {
      if m == k {
        StepNow(code, s, blocks, stable, names', after, k, before, stack);
      } else {
        StepStays(code, s, blocks, stable, names, names', after, k, stack, m);
      }
    }
    forall d, g | 0 <= d < |gen'| && g in gen'[d]
      ensures 0 <= g < |names'| && GenOk(code, s, blocks, after', d, g, gen'[d][g])
    {
      if d < |gen| && g in gen[d] && gen'[d][g] == gen[d][g] {
        GenStays(code, s, blocks, after, k, stack, d, g, gen[d][g]);
      } else {
        GenNow(code, s, blocks, after', gen'[d][g], b, g, k, stack);
      }
    }
  }

  lemma StepNow(code: seq<Byte>, s: seq<int>, blocks: seq<Blocks.Block>, stable: seq<bool>, names: seq<Key>,
                after: seq<Option<seq<GSlot>>>, k: int, before: seq<GSlot>, stack: seq<GSlot>)
    requires Layout(code, s) && |after| == |s| - 1 && 0 <= k < |s| - 1 && 0 <= s[k] < |code|
    requires BeforeOf(s, blocks, after, k) == Some(before) && Steps(names, stable, code, s[k], before, stack)
    ensures StepAt(code, s, blocks, stable, names, after[k := Some(stack)], k)
  {
    hide Steps, StartsBlock;
  }

  lemma GenNow(code: seq<Byte>, s: seq<int>, blocks: seq<Blocks.Block>, after: seq<Option<seq<GSlot>>>, c: Compute,
               b: int, g: int, k: int, stack: seq<GSlot>)
    requires |after| == |s| - 1 && 0 <= k < |s| - 1 && after[k] == Some(stack) && stack != []
    requires Blocks.InBlock(blocks, b, s[k])
    requires 0 <= s[k] < |code| && IsPure(code[s[k]])
    requires var top := stack[|stack| - 1];
             g == top.gid && top.end == s[k + 1] && c == Compute(s[k], top.start, s[k + 1], top.kind, top.pure)
    ensures GenOk(code, s, blocks, after, b, g, c)
  {
    hide IsPure;
    assert GenAt(code, s, blocks, after, b, g, c, k);
  }

  lemma NumberedMore(code: seq<Byte>, s: seq<int>, blocks: seq<Blocks.Block>, stable: seq<bool>, names: seq<Key>,
                     names': seq<Key>, after: seq<Option<seq<GSlot>>>, gen: Gen)
    requires Layout(code, s) && Numbered(code, s, blocks, stable, names, after, gen) && names <= names'
    requires WellNamed(names')
    ensures Numbered(code, s, blocks, stable, names', after, gen)
  {
    hide Steps, StartsBlock, GenOk, WellNamed;
    forall k | 0 <= k < |s| - 1 && after[k].Some?
      ensures StepAt(code, s, blocks, stable, names', after, k)
    {
      assert StepAt(code, s, blocks, stable, names, after, k);
      StepsGrow(names, names', stable, code, s[k], BeforeOf(s, blocks, after, k).value, after[k].value);
    }
  }

  lemma SizeOf(code: seq<Byte>, s: seq<int>)
    requires Layout(code, s)
    ensures |s| > 0
  {
  }

  lemma AtStart(code: seq<Byte>, s: seq<int>, blocks: seq<Blocks.Block>, after: seq<Option<seq<GSlot>>>, b: int, k: int)
    requires Layout(code, s) && Tiled(s, blocks, |code|) && |after| == |s| - 1 && 0 <= b < |blocks| && 0 <= k < |s|
    requires s[k] == blocks[b].start
    requires forall m :: 0 <= m < |after| && s[m] >= blocks[b].start ==> after[m].None?
    ensures Unvisited(after, k) && BeforeOf(s, blocks, after, k) == Some([])
  {
    assert StartsBlock(blocks, s[k]);
    forall m | 0 <= m < |after| && k <= m
      ensures s[m] >= s[k]
    {
    }
  }

  lemma InstrIn(code: seq<Byte>, s: seq<int>, blocks: seq<Blocks.Block>, b: int, k: int)
    requires Layout(code, s) && Tiled(s, blocks, |code|) && 0 <= b < |blocks| && 0 <= k < |s|
    requires blocks[b].start <= s[k] < blocks[b].end
    ensures k < |s| - 1 && 0 <= s[k] < |code| && Blocks.InBlock(blocks, b, s[k])
    ensures s[k] + Width(code, s[k]) == s[k + 1] && s[k] < s[k + 1] <= blocks[b].end
  {
    hide Width;
    Ends(code, s);
    LayoutNext(code, s, k);
    var m :| 0 <= m < |s| && s[m] == blocks[b].end;
    assert m > k;
    assert m == k + 1 || s[k + 1] < s[m];
  }

  lemma NextBefore(code: seq<Byte>, s: seq<int>, blocks: seq<Blocks.Block>, after: seq<Option<seq<GSlot>>>, b: int,
                   k: int, stack: seq<GSlot>)
    requires Layout(code, s) && Tiled(s, blocks, |code|) && |after| == |s| - 1 && 0 <= b < |blocks| && 0 <= k < |s| - 1
    requires blocks[b].start <= s[k] < blocks[b].end
    ensures s[k + 1] < blocks[b].end ==> BeforeOf(s, blocks, after[k := Some(stack)], k + 1) == Some(stack)
  {
    if s[k + 1] < blocks[b].end {
      forall j | 0 <= j < |blocks|
        ensures blocks[j].start != s[k + 1]
      {
        assert s[k] < s[k + 1];
      }
    }
  }

  lemma LaterBlocks(code: seq<Byte>, s: seq<int>, blocks: seq<Blocks.Block>, after: seq<Option<seq<GSlot>>>, b: int,
                    k: int)
    requires Layout(code, s) && Tiled(s, blocks, |code|) && |after| == |s| - 1 && 0 <= b < |blocks| && 0 <= k < |s|
    requires s[k] <= blocks[b].end && Unvisited(after, k)
    ensures forall m :: 0 <= m < |after| && b + 1 < |blocks| && s[m] >= blocks[b + 1].start ==> after[m].None?
  {
    forall m | 0 <= m < |after| && b + 1 < |blocks| && s[m] >= blocks[b + 1].start
      ensures m >= k
    {
      Later(code, s, m, k);
    }
  }

  lemma Later(code: seq<Byte>, s: seq<int>, m: int, k: int)
    requires Layout(code, s) && 0 <= m < |s| && 0 <= k < |s|
    ensures s[m] >= s[k] ==> m >= k
  {
  }

  /** Numbering goes on exactly while the block has put on the stack what its instructions read. */
  ghost predicate ThoroughAt(code: seq<Byte>, s: seq<int>, blocks: seq<Blocks.Block>, after: seq<Option<seq<GSlot>>>,
                             b: int, k: int)
    requires |after| == |s| - 1
  {
    0 <= k < |s| - 1 && Blocks.InBlock(blocks, b, s[k]) && BeforeOf(s, blocks, after, k).Some? && 0 <= s[k] < |code| ==>
      (after[k].Some? <==> Steppable(code[s[k]], |BeforeOf(s, blocks, after, k).value|))
  }

  ghost predicate ThoroughTo(code: seq<Byte>, s: seq<int>, blocks: seq<Blocks.Block>, after: seq<Option<seq<GSlot>>>,
                             b: int, n: int)
    requires |after| == |s| - 1
  {
    forall k :: k < n ==> ThoroughAt(code, s, blocks, after, b, k)
  }

  ghost predicate Thorough(code: seq<Byte>, s: seq<int>, blocks: seq<Blocks.Block>, after: seq<Option<seq<GSlot>>>,
                           b: int)
    requires |after| == |s| - 1
  {
    ThoroughTo(code, s, blocks, after, b, |s| - 1)
  }

  lemma ThoroughStart(code: seq<Byte>, s: seq<int>, blocks: seq<Blocks.Block>, after: seq<Option<seq<GSlot>>>, b: int,
                      k: int)
    requires Layout(code, s) && |after| == |s| - 1 && 0 <= k < |s| && 0 <= b < |blocks| && s[k] == blocks[b].start
    ensures ThoroughTo(code, s, blocks, after, b, k)
  {
    hide Steppable;
  }

  lemma ThoroughNext(code: seq<Byte>, s: seq<int>, blocks: seq<Blocks.Block>, after: seq<Option<seq<GSlot>>>, b: int,
                     k: int, stack: seq<GSlot>)
    requires |after| == |s| - 1 && 0 <= k < |s| - 1 && ThoroughTo(code, s, blocks, after, b, k) && 0 <= s[k] < |code|
    requires BeforeOf(s, blocks, after, k).Some? && Steppable(code[s[k]], |BeforeOf(s, blocks, after, k).value|)
    ensures ThoroughTo(code, s, blocks, after[k := Some(stack)], b, k + 1)
  {
    hide Steppable, StartsBlock;
    var after' := after[k := Some(stack)];
    forall m | m < k + 1
      ensures ThoroughAt(code, s, blocks, after', b, m)
    {
      assert m < k ==> ThoroughAt(code, s, blocks, after, b, m);
    }
  }

  /** Numbering stopped at instruction k, or at the end of the block. */
  lemma ThoroughEnd(code: seq<Byte>, s: seq<int>, blocks: seq<Blocks.Block>, after: seq<Option<seq<GSlot>>>, b: int,
                    k: int)
    requires Layout(code, s) && Tiled(s, blocks, |code|) && |after| == |s| - 1 && 0 <= b < |blocks| && 0 <= k < |s|
    requires blocks[b].start <= s[k] && ThoroughTo(code, s, blocks, after, b, k) && Unvisited(after, k)
    requires k < |s| - 1 && s[k] < blocks[b].end ==>
      BeforeOf(s, blocks, after, k).Some? && !Steppable(code[s[k]], |BeforeOf(s, blocks, after, k).value|)
    ensures Thorough(code, s, blocks, after, b)
  {
    hide Steppable, Width;
    forall m | m < |s| - 1
      ensures ThoroughAt(code, s, blocks, after, b, m)
    {
      if m < k {
        assert ThoroughAt(code, s, blocks, after, b, m);
      } else if m > k && Blocks.InBlock(blocks, b, s[m]) {
        assert s[k] < s[m];
        NoStartInside(s, blocks, |code|, b, s[m]);
      }
    }
  }

  lemma NoStartInside(s: seq<int>, blocks: seq<Blocks.Block>, size: int, b: int, x: int)
    requires Tiled(s, blocks, size) && 0 <= b < |blocks| && blocks[b].start < x < blocks[b].end
    ensures !StartsBlock(blocks, x)
  {
  }

  lemma ThoroughKept(code: seq<Byte>, s: seq<int>, blocks: seq<Blocks.Block>, after: seq<Option<seq<GSlot>>>,
                     after': seq<Option<seq<GSlot>>>, b: int, d: int)
    requires Layout(code, s) && Tiled(s, blocks, |code|) && 0 <= b < |blocks| && 0 <= d < |blocks| && d != b
    requires |after| == |after'| == |s| - 1 && Thorough(code, s, blocks, after, d)
    requires forall m :: 0 <= m < |after| && !Blocks.InBlock(blocks, b, s[m]) ==> after'[m] == after[m]
    ensures Thorough(code, s, blocks, after', d)
  {
    hide Steppable, Width;
    assert forall m :: 0 <= m < |after| && Blocks.InBlock(blocks, d, s[m]) ==> !Blocks.InBlock(blocks, b, s[m]);
    forall k | k < |s| - 1
      ensures ThoroughAt(code, s, blocks, after', d, k)
    {
      assert ThoroughAt(code, s, blocks, after, d, k);
      if 0 < k && Blocks.InBlock(blocks, d, s[k]) && !StartsBlock(blocks, s[k]) {
        SameBlockBefore(code, s, blocks, d, k);
      }
    }
  }

  /** The instruction before one that does not start a block is in the same block. */
  lemma SameBlockBefore(code: seq<Byte>, s: seq<int>, blocks: seq<Blocks.Block>, d: int, k: int)
    requires Layout(code, s) && Tiled(s, blocks, |code|) && 0 <= d < |blocks| && 0 < k < |s| - 1
    requires Blocks.InBlock(blocks, d, s[k]) && !StartsBlock(blocks, s[k])
    ensures Blocks.InBlock(blocks, d, s[k - 1])
  {
    hide Width;
    var m :| 0 <= m < |s| && s[m] == blocks[d].start;
    assert blocks[d].start != s[k];
    assert m < k;
    assert m == k - 1 || s[m] < s[k - 1];
  }

  /** Numbers one block. */
  method NumberBlock(g: Numberer, blocks: seq<Blocks.Block>, b: int, ghost s: seq<int>,
                     ghost start: seq<Option<seq<GSlot>>>)
    returns (ghost after: seq<Option<seq<GSlot>>>)
    requires Layout(g.code, s) && Tiled(s, blocks, |g.code|) && 0 <= b < |blocks| == |g.gen| && |start| == |s| - 1
    requires g.Valid() && Numbered(g.code, s, blocks, g.stable, g.names, start, g.gen) && g.gen[b] == map[]
    requires forall m :: 0 <= m < |start| && s[m] >= blocks[b].start ==> start[m].None?
    modifies g
    ensures |after| == |s| - 1 && g.Valid() && Numbered(g.code, s, blocks, g.stable, g.names, after, g.gen)
    ensures |g.gen| == |blocks|
    ensures forall d :: 0 <= d < |blocks| && d != b ==> g.gen[d] == old(g.gen)[d]
    ensures forall m :: 0 <= m < |after| && b + 1 < |blocks| && s[m] >= blocks[b + 1].start ==> after[m].None?
    ensures Complete(g.code, s, blocks, after, g.gen, b) && Thorough(g.code, s, blocks, after, b)
    ensures forall m :: 0 <= m < |after| && !Blocks.InBlock(blocks, b, s[m]) ==> after[m] == start[m]
  {
    hide Layout, Numbered, Steps, Records, RecordsFirst, Numbers, CompleteTo, Complete, Known, IsPure, Width, WellNamed,
         StartsBlock, Interned, GidsBelow, Tiled, BeforeOf, Pops, Canonical, Steppable, ThoroughTo, Thorough;
    TiledAt(g.code, s, blocks, b);
    after := start;
    ghost var gen0 := g.gen;
    g.Reset(b);
    assert g.gen == gen0;
    var ip := blocks[b].start;
    ghost var k :| 0 <= k < |s| && s[k] == ip;
    AtStart(g.code, s, blocks, after, b, k);
    NothingComplete(g.code, s, blocks, after, g.gen, b, k);
    ThoroughStart(g.code, s, blocks, after, b, k);
    while ip < blocks[b].end
      invariant 0 <= k < |s| && ip == s[k] && blocks[b].start <= ip <= blocks[b].end && |after| == |s| - 1
      invariant g.Valid() && Numbered(g.code, s, blocks, g.stable, g.names, after, g.gen) && |g.gen| == |blocks|
      invariant g.block == b && Unvisited(after, k) && ThoroughTo(g.code, s, blocks, after, b, k)
      invariant ip < blocks[b].end ==> BeforeOf(s, blocks, after, k) == Some(g.stack)
      invariant forall d :: 0 <= d < |blocks| && d != b ==> g.gen[d] == gen0[d]
      invariant CompleteTo(g.code, s, blocks, after, g.gen, b, k) && Known(g.code, s, blocks, after, g.exprs, b, k)
      invariant forall m :: 0 <= m < |after| && !Blocks.InBlock(blocks, b, s[m]) ==> after[m] == start[m]
      decreases blocks[b].end - ip
    {
      InstrIn(g.code, s, blocks, b, k);
      ghost var before, names1, gen1, exprs1 := g.stack, g.names, g.gen, g.exprs;
      var ok := g.Step(ip);
      g.Facts();
      if !ok {
        NumberedMore(g.code, s, blocks, g.stable, names1, g.names, after, g.gen);
        break;
      }
      NumberedNext(g.code, s, blocks, g.stable, names1, g.names, after, gen1, g.gen, b, k, before, g.stack);
      NextBefore(g.code, s, blocks, after, b, k, g.stack);
      CompleteNext(g.code, s, blocks, after, gen1, g.gen, b, k, g.stack,
                   before, exprs1, g.exprs);
      ThoroughNext(g.code, s, blocks, after, b, k, g.stack);
      after := after[k := Some(g.stack)];
      ip := ip + Width(g.code, ip);
      k := k + 1;
    }
    LaterBlocks(g.code, s, blocks, after, b, k);
    CompleteEnd(g.code, s, blocks, after, g.gen, b, k);
    ThoroughEnd(g.code, s, blocks, after, b, k);
  }

  lemma NothingComplete(code: seq<Byte>, s: seq<int>, blocks: seq<Blocks.Block>, after: seq<Option<seq<GSlot>>>,
                        gen: Gen, b: int, k: int)
    requires Layout(code, s) && 0 <= k < |s| && 0 <= b < |blocks| && s[k] == blocks[b].start && |after| == |s| - 1
    ensures CompleteTo(code, s, blocks, after, gen, b, k) && Known(code, s, blocks, after, map[], b, k)
  {
    hide IsPure;
  }

  lemma CompleteEnd(code: seq<Byte>, s: seq<int>, blocks: seq<Blocks.Block>, after: seq<Option<seq<GSlot>>>, gen: Gen,
                    b: int, k: int)
    requires |after| == |s| - 1 && CompleteTo(code, s, blocks, after, gen, b, k) && Unvisited(after, k)
    ensures Complete(code, s, blocks, after, gen, b)
  {
    hide IsPure, Blocks.InBlock;
  }

  lemma KeyKept(code: seq<Byte>, s: seq<int>, blocks: seq<Blocks.Block>, after: seq<Option<seq<GSlot>>>,
                after': seq<Option<seq<GSlot>>>, d: int, k: int, key: NumKey)
    requires Layout(code, s) && Tiled(s, blocks, |code|) && 0 <= d < |blocks| && |after| == |after'| == |s| - 1
    requires KeyIs(code, s, blocks, after, k, key) && Blocks.InBlock(blocks, d, s[k])
    requires forall m :: 0 <= m < |after| && Blocks.InBlock(blocks, d, s[m]) ==> after'[m] == after[m]
    ensures KeyIs(code, s, blocks, after', k, key)
  {
    hide IsPure, KeyOf, Width, Layout, Tiled, Blocks.InBlock, StartsBlock;
    if k > 0 && !StartsBlock(blocks, s[k]) {
      SameBlockBefore(code, s, blocks, d, k);
    }
  }

  lemma BlocksApart(s: seq<int>, blocks: seq<Blocks.Block>, size: int, b: int, d: int, x: int)
    requires Tiled(s, blocks, size) && 0 <= b < |blocks| && 0 <= d < |blocks| && d != b && Blocks.InBlock(blocks, d, x)
    ensures !Blocks.InBlock(blocks, b, x)
  {
  }

  lemma CompleteKept(code: seq<Byte>, s: seq<int>, blocks: seq<Blocks.Block>, after: seq<Option<seq<GSlot>>>,
                     after': seq<Option<seq<GSlot>>>, gen: Gen, gen': Gen, b: int, d: int)
    requires Layout(code, s) && Tiled(s, blocks, |code|) && 0 <= b < |blocks| && 0 <= d < |blocks| && d != b
    requires |after| == |after'| == |s| - 1 && |gen| == |gen'| == |blocks|
    requires Complete(code, s, blocks, after, gen, d) && gen'[d] == gen[d]
    requires forall m :: 0 <= m < |after| && !Blocks.InBlock(blocks, b, s[m]) ==> after'[m] == after[m]
    ensures Complete(code, s, blocks, after', gen', d)
  {
    hide IsPure, Layout, Tiled, Blocks.InBlock, KeyIs, CompleteAt;
    forall m | 0 <= m < |after| && Blocks.InBlock(blocks, d, s[m])
      ensures after'[m] == after[m]
    {
      BlocksApart(s, blocks, |code|, b, d, s[m]);
    }
    forall k | k < |s| - 1
      ensures CompleteAt(code, s, blocks, after', gen', d, k)
    {
      assert CompleteAt(code, s, blocks, after, gen, d, k);
      CompleteAtKept(code, s, blocks, after, after', gen, gen', d, k);
    }
  }

  lemma CompleteAtKept(code: seq<Byte>, s: seq<int>, blocks: seq<Blocks.Block>, after: seq<Option<seq<GSlot>>>,
                       after': seq<Option<seq<GSlot>>>, gen: Gen, gen': Gen, d: int, k: int)
    requires Layout(code, s) && Tiled(s, blocks, |code|) && 0 <= d < |blocks|
    requires |after| == |after'| == |s| - 1 && |gen| == |gen'| == |blocks|
    requires CompleteAt(code, s, blocks, after, gen, d, k) && gen'[d] == gen[d]
    requires forall m :: 0 <= m < |after| && Blocks.InBlock(blocks, d, s[m]) ==> after'[m] == after[m]
    ensures CompleteAt(code, s, blocks, after', gen', d, k)
  {
    hide IsPure, Layout, Tiled, Blocks.InBlock, KeyIs;
    if Computes(code, s, after', k) && Blocks.InBlock(blocks, d, s[k]) && TopOf(after', k).gid >= 0 &&
        TopOf(after', k).gid !in gen[d] {
      var m, key :| KeyIs(code, s, blocks, after, k, key) && SeenAt(code, s, blocks, after, d, m, k, key);
      KeyKept(code, s, blocks, after, after', d, k, key);
      KeyKept(code, s, blocks, after, after', d, m, key);
      assert SeenAt(code, s, blocks, after', d, m, k, key);
    }
  }

  lemma TiledAt(code: seq<Byte>, s: seq<int>, blocks: seq<Blocks.Block>, b: int)
    requires Tiled(s, blocks, |code|) && 0 <= b < |blocks|
    ensures blocks[b].start in s && 0 <= blocks[b].start <= blocks[b].end <= |code|
  {
  }

  /** Numbers every block of a body. */
  method Number(code: seq<Byte>, locals: seq<Type>, stable: seq<bool>, blocks: seq<Blocks.Block>, ghost s: seq<int>)
    returns (gen: Gen, ghost names: seq<Key>, ghost after: seq<Option<seq<GSlot>>>)
    requires Layout(code, s) && Tiled(s, blocks, |code|)
    ensures Numbered(code, s, blocks, stable, names, after, gen)
    ensures forall b :: 0 <= b < |blocks| ==> Complete(code, s, blocks, after, gen, b)
    ensures |after| == |s| - 1 && forall b :: 0 <= b < |blocks| ==> Thorough(code, s, blocks, after, b)
    ensures NamedOnce(names)
  {
    hide Layout, Numbered, Interned, Tiled, Complete, Blocks.InBlock, Thorough, NamedOnce;
    TiledSome(s, blocks, |code|);
    var g := new Numberer(code, locals, stable, |blocks|);
    SizeOf(code, s);
    after := seq(|s| - 1, _ => None);
    NothingNumbered(code, s, blocks, stable, after, g.gen);
    for b := 0 to |blocks|
      invariant g.Valid() && |after| == |s| - 1 && Numbered(code, s, blocks, stable, g.names, after, g.gen)
      invariant |g.gen| == |blocks|
      invariant forall d :: b <= d < |blocks| ==> g.gen[d] == map[]
      invariant forall m :: 0 <= m < |after| && b < |blocks| && s[m] >= blocks[b].start ==> after[m].None?
      invariant forall d :: 0 <= d < b ==> Complete(code, s, blocks, after, g.gen, d)
      invariant forall d :: 0 <= d < b ==> Thorough(code, s, blocks, after, d)
    {
      ghost var after1, gen1 := after, g.gen;
      after := NumberBlock(g, blocks, b, s, after);
      forall d | 0 <= d < b
        ensures Complete(code, s, blocks, after, g.gen, d) && Thorough(code, s, blocks, after, d)
      {
        ThoroughKept(code, s, blocks, after1, after, b, d);
        CompleteKept(code, s, blocks, after1, after, gen1, g.gen, b, d);
      }
    }
    g.Facts();
    gen, names := g.gen, g.names;
  }

  lemma TiledSome(s: seq<int>, blocks: seq<Blocks.Block>, size: int)
    requires Tiled(s, blocks, size)
    ensures |blocks| > 0
  {
  }
}
