/** Why replacing an available computation by a load of its captured value keeps every run. */
module Reuse {
  import opened Bytecode
  import opened Stacks
  import opened Numbering
  import opened Terms
  import opened GroupValues
  import opened PureRanges
  import opened Edits
  import opened EditRuns
  import Splicer
  import Blocks
  import Compaction

  /** A numbered body, the groups available at each block, the extra local given to each reused group, and the
      edits that capture and reload. */
  datatype Plan = Plan(code: seq<Byte>, s: seq<int>, blocks: seq<Blocks.Block>, stable: seq<bool>, names: seq<Key>,
                       after: seq<Option<seq<GSlot>>>, gen: Gen, avail: seq<set<int>>, slots: map<int, nat>, count: nat,
                           es: seq<Edit>)

  /** The instruction for extra local n. */
  function LocalText(op: Byte, p: Plan, n: int): seq<Byte>
    requires 0 <= n && |p.stable| + n < 256
  {
    [op, |p.stable| + n]
  }

  /** Group g is computed by block b. */
  ghost predicate Made(p: Plan, b: int, g: int) {
    0 <= b < |p.gen| && g in p.gen[b]
  }

  /** Block b computes g where it is not available: the value is captured here. */
  ghost predicate Captures(p: Plan, b: int, g: int) {
    Made(p, b, g) && b < |p.avail| && g !in p.avail[b]
  }

  /** Block b computes g where it is available: the computation can be a load. */
  ghost predicate Reloads(p: Plan, b: int, g: int) {
    Made(p, b, g) && b < |p.avail| && g in p.avail[b] && p.gen[b][g].contig
  }

  ghost predicate IsTee(p: Plan, i: int, b: int, g: int) {
    && 0 <= i < |p.es| && g in p.slots && Captures(p, b, g) && 0 <= p.slots[g] && |p.stable| + p.slots[g] < 256
    && p.es[i].start == p.es[i].end == p.gen[b][g].end && p.es[i].bytes == LocalText(LOCAL_TEE, p, p.slots[g])
  }

  ghost predicate IsLoad(p: Plan, i: int, b: int, g: int) {
    && 0 <= i < |p.es| && g in p.slots && Reloads(p, b, g) && 0 <= p.slots[g] && |p.stable| + p.slots[g] < 256
    && p.es[i].start == p.gen[b][g].start && p.es[i].end == p.gen[b][g].end
    && p.es[i].bytes == LocalText(LOCAL_GET, p, p.slots[g])
  }

  ghost predicate EditOk(p: Plan, i: int) {
    (exists b, g :: IsTee(p, i, b, g)) || (exists b, g :: IsLoad(p, i, b, g))
  }

  ghost predicate TeeFor(p: Plan, b: int, g: int) {
    exists i :: IsTee(p, i, b, g)
  }

  /** Every edit captures or reloads a group, every capture of a reused group is there, once. */
  ghost predicate EditsOk(p: Plan) {
    && Apart(p.es, |p.code|)
    && (forall i :: 0 <= i < |p.es| ==> EditOk(p, i))
    && (forall b, g :: g in p.slots && Captures(p, b, g) ==> TeeFor(p, b, g))
    && (forall i, j ::
       0 <= i < j < |p.es| && p.es[i].start == p.es[i].end && p.es[j].start == p.es[j].end ==>
       p.es[i].start != p.es[j].start)
  }

  ghost predicate SlotsOk(p: Plan) {
    && |p.stable| + p.count <= 256
    && (forall g :: g in p.slots ==> 0 <= p.slots[g] < p.count)
    && (forall g, h :: g in p.slots && h in p.slots && p.slots[g] == p.slots[h] ==> g == h)
  }

  /** avail solves the dataflow equations of the blocks. */
  ghost predicate AvailOk(p: Plan) {
    && |p.avail| == |p.blocks| == |p.gen|
    && (|p.blocks| > 0 ==> p.avail[0] == {})
    && forall j, i, g :: 0 <= j < |p.blocks| && 0 <= i < |p.blocks| && j in p.blocks[i].preds && g in p.avail[i] ==>
         g in p.avail[j] || g in p.gen[j]
  }

  ghost predicate IsPath(p: Plan, path: seq<int>) {
    && |path| > 0 && path[0] == 0 && (forall i :: 0 <= i < |path| ==> 0 <= path[i] < |p.blocks|)
    && forall i :: 0 < i < |path| ==> path[i - 1] in p.blocks[path[i]].preds
  }

  /** Every path to a block where g is available passes a block that captures it. */
  lemma {:induction false} CapturedOnEveryPath(p: Plan, path: seq<int>, n: nat, g: int)
    requires AvailOk(p) && IsPath(p, path) && n < |path| && g in p.avail[path[n]]
    ensures exists m :: 0 <= m < n && Captures(p, path[m], g)
  {
    if n > 0 {
      var j, i := path[n - 1], path[n];
      assert j in p.blocks[i].preds;
      if g in p.avail[j] {
        CapturedOnEveryPath(p, path, n - 1, g);
      }
    }
  }

  /** No instruction names a local past the declared ones, and every targets and table is in order. */
  ghost predicate BodyOk(p: Plan) {
    && Layout(p.code, p.s) && Blocks.Targeted(p.code, [], p.s) && Blocks.InRange(p.code, p.s, |p.s| - 1)
    && Blocks.TablesEndBlocks(p.code, [], p.s) && Blocks.IsCfg(p.code, [], p.s, p.blocks)
    && Numbered(p.code, p.s, p.blocks, p.stable, p.names, p.after, p.gen)
    && (forall k :: 0 <= k < |p.s| - 1 && IsLocalOp(p.code[p.s[k]]) ==> Operand(p.code, p.s[k]) < |p.stable|)
    && (forall slot :: 0 <= slot < |p.stable| && p.stable[slot] ==> NeverAssigned(p.code, p.s, |p.s| - 1, slot))
  }

  ghost predicate PlanOk(p: Plan) {
    BodyOk(p) && AvailOk(p) && SlotsOk(p) && EditsOk(p)
  }

  /** Where x stands in s. */
  ghost function Spot(s: seq<int>, x: int): (k: nat)
    ensures x in s ==> k < |s| && s[k] == x
  {
    if x in s then (var k :| 0 <= k < |s| && s[k] == x; k) else |s|
  }

  function TopTerm(ts: seq<Term>): Term {
    if ts == [] then Unknown else ts[|ts| - 1]
  }

  /** The expression block b computes group g by. */
  ghost function MadeTerm(p: Plan, b: int, g: int): Term
    requires Layout(p.code, p.s) && Made(p, b, g)
  {
    var k := Spot(p.s, p.gen[b][g].ip);
    if k < |p.s| - 1 then TopTerm(After(p, k)) else Unknown
  }

  /** Along path, block c's computation of g is the last that captures it. */
  ghost predicate CarriesTo(p: Plan, g: int, c: int, j: int, path: seq<int>) {
    && |path| > 0 && path[0] == c && path[|path| - 1] == j && Captures(p, c, g)
    && (forall n :: 0 <= n < |path| ==> 0 <= path[n] < |p.blocks| && path[n] < |p.avail|)
    && forall n :: 0 < n < |path| ==> path[n - 1] in p.blocks[path[n]].preds && g in p.avail[path[n]]
  }

  /** What block c captures as g can be in g's extra local in block j. */
  ghost predicate Supplies(p: Plan, g: int, c: int, j: int) {
    exists path :: CarriesTo(p, g, c, j, path)
  }

  ghost predicate HoldsFrom(p: Plan, env: Env, c: int, j: int, g: int, v: int)
    requires Layout(p.code, p.s)
  {
    Captures(p, c, g) && Supplies(p, g, c, j) && TermValue(env, MadeTerm(p, c, g)) == Some(v)
  }

  /** What a capture that reaches block j computed for group g is in its extra local. */
  ghost predicate InSlot(p: Plan, env: Env, j: int, g: int, extra: seq<int>)
    requires Layout(p.code, p.s)
  {
    g in p.slots && 0 <= p.slots[g] < |extra| && exists c :: HoldsFrom(p, env, c, j, g, extra[p.slots[g]])
  }

  /** The computation that edit i reloads has the value of every computation captured for it. */
  ghost predicate AgreesAt(p: Plan, env: Env, b: int, g: int, c: int)
    requires Layout(p.code, p.s)
  {
    Reloads(p, b, g) && Captures(p, c, g) && Supplies(p, g, c, b) ==>
      TermValue(env, MadeTerm(p, c, g)) == TermValue(env, MadeTerm(p, b, g))
  }

  /** Every reload has the value of every capture that can reach it. */
  ghost predicate Agree(p: Plan, env: Env)
    requires Layout(p.code, p.s)
  {
    forall i, b, g, c :: IsLoad(p, i, b, g) ==> AgreesAt(p, env, b, g, c)
  }

  /** In block j, past offset lim: what is available or has been captured is in its extra local. */
  ghost predicate Held(p: Plan, env: Env, j: int, lim: int, extra: seq<int>)
    requires Layout(p.code, p.s)
  {
    && 0 <= j < |p.avail| && j < |p.gen| && |extra| == p.count
    && forall g :: g in p.slots && (g in p.avail[j] || (g in p.gen[j] && p.gen[j][g].end <= lim)) ==>
       InSlot(p, env, j, g, extra)
  }

  /** The next edit is a capture at x. */
  ghost predicate Pending(p: Plan, i: nat, x: int) {
    i < |p.es| && p.es[i].start == x && p.es[i].end == x
  }

  ghost function Before(p: Plan, k: nat): seq<Term>
    requires Layout(p.code, p.s) && k < |p.s|
  {
    TermsBefore(p.code, p.s, p.blocks, p.stable, k)
  }

  ghost function After(p: Plan, k: nat): seq<Term>
    requires Layout(p.code, p.s) && k < |p.s| - 1
  {
    TermsAfter(p.code, p.s, p.blocks, p.stable, k)
  }

  /** Instruction k of block j has run, and what it left is still to be captured. */
  ghost predicate Behind(p: Plan, env: Env, j: int, k: int, x: int, a: State, extra: seq<int>)
    requires Layout(p.code, p.s)
  {
    && 0 <= k < |p.s| - 1 && p.s[k + 1] == x && Blocks.InBlock(p.blocks, j, p.s[k])
    && Matches(env, After(p, k), a.stack)
    && Held(p, env, j, p.s[k], extra)
  }

  /** Instruction k of block j is next. */
  ghost predicate Ahead(p: Plan, env: Env, j: int, k: int, x: int, a: State, extra: seq<int>)
    requires Layout(p.code, p.s)
  {
    && 0 <= k < |p.s| - 1 && p.s[k] == x && Blocks.InBlock(p.blocks, j, x)
    && Matches(env, Before(p, k), a.stack)
    && Held(p, env, j, x, extra)
  }

  /** How the two programs' states are related at offset x with i edits behind. */
  ghost predicate Carries(p: Plan, env: Env, i: nat, x: int, a: State, b: State)
    requires Layout(p.code, p.s)
  {
    && StableHeld(p.stable, env, a.locals) && |b.locals| == |a.locals| + p.count
    && var extra := b.locals[|a.locals|..];
       && b == Plus(a, extra)
       && (if Pending(p, i, x) then exists j, k :: Behind(p, env, j, k, x, a, extra)
           else x == |p.code| || exists j, k :: Ahead(p, env, j, k, x, a, extra))
  }

  /** What a run ends with: the same, extra locals aside. */
  ghost predicate Alike(a: State, b: State) {
    b.stack == a.stack && b.world == a.world && a.locals <= b.locals
  }

  /** What is known of a recorded computation. */
  lemma Recorded(p: Plan, b: int, g: int) returns (k: int)
    requires BodyOk(p) && Made(p, b, g)
    ensures |p.after| == |p.s| - 1 && 0 <= g < |p.names|
    ensures GenAt(p.code, p.s, p.blocks, p.after, b, g, p.gen[b][g], k)
  {
    hide GenAt, Steps, Layout, IsPure, WellNamed, StepAt, Blocks.IsCfg, Blocks.Targeted, Blocks.InRange,
         Blocks.TablesEndBlocks;
    assert GenOk(p.code, p.s, p.blocks, p.after, b, g, p.gen[b][g]);
    k :| GenAt(p.code, p.s, p.blocks, p.after, b, g, p.gen[b][g], k);
  }

  /** The entry a recorded computation leaves on top. */
  lemma RecordedTop(p: Plan, b: int, g: int) returns (k: int, abs: seq<GSlot>)
    requires BodyOk(p) && Made(p, b, g)
    ensures |p.after| == |p.s| - 1 && 0 <= g < |p.names| && 0 <= k < |p.s| - 1 && p.s[k + 1] == p.gen[b][g].end
    ensures Blocks.InBlock(p.blocks, b, p.s[k]) && 0 <= p.s[k] < |p.code| && IsPure(p.code[p.s[k]])
    ensures p.after[k] == Some(abs) && abs != []
    ensures var top := abs[|abs| - 1];
            top.gid == g && top.start == p.gen[b][g].start && top.end == p.gen[b][g].end &&
                (p.gen[b][g].contig ==> top.pure)
    ensures p.s[k] == p.gen[b][g].ip
  {
    hide BodyOk, IsPure, Blocks.InBlock;
    k := Recorded(p, b, g);
    abs := p.after[k].value;
  }

  /** A recorded computation's expression is what its last instruction leaves on top. */
  lemma MadeIs(p: Plan, b: int, g: int, k: int)
    requires BodyOk(p) && Made(p, b, g) && 0 <= k < |p.s| - 1 && p.s[k] == p.gen[b][g].ip
    ensures Layout(p.code, p.s) && MadeTerm(p, b, g) == TopTerm(After(p, k))
  {
    hide BodyOk, After, TopTerm, Layout;
    Shape(p);
    Spots(p, k, Spot(p.s, p.s[k]));
  }

  lemma SpelledAt(p: Plan, k: nat)
    requires BodyOk(p) && k < |p.s| - 1 && k < |p.after| && p.after[k].Some?
    ensures Layout(p.code, p.s) && Spelled(p.names, p.after[k].value, After(p, k))
  {
    hide BodyOk, Layout, Spelled, TermsAfter;
    Shape(p);
    AfterSpelled(p.code, p.s, p.blocks, p.stable, p.names, p.after, p.gen, k);
  }

  /** It computes its group. */
  lemma MadeSpells(p: Plan, b: int, g: int)
    requires BodyOk(p) && Made(p, b, g)
    ensures Layout(p.code, p.s) && Spells(p.names, g, MadeTerm(p, b, g))
  {
    hide BodyOk, IsPure, Blocks.InBlock, Spells, Spelled, MadeTerm, After, Layout;
    var k, abs := RecordedTop(p, b, g);
    SpelledAt(p, k);
    MadeIs(p, b, g, k);
    TopSpelled(p.names, abs, After(p, k), g);
  }

  lemma TopSpelled(names: seq<Key>, abs: seq<GSlot>, ts: seq<Term>, g: int)
    requires Spelled(names, abs, ts) && abs != [] && abs[|abs| - 1].gid == g && g >= 0
    ensures ts != [] && Spells(names, g, TopTerm(ts))
  {
    hide Spells;
    assert EntrySpelled(names, abs[|abs| - 1], ts[|ts| - 1]);
  }

  lemma Spots(p: Plan, k: int, m: int)
    requires BodyOk(p) && 0 <= k < |p.s| && 0 <= m < |p.s|
    ensures p.s[k] == p.s[m] ==> k == m
    ensures p.s[k] < p.s[m] <==> k < m
    ensures 0 <= p.s[k] <= |p.code|
  {
    Compaction.SortedStarts(p.code, p.s);
    Compaction.Ordered(p.code, p.s, k, m);
    Compaction.Ordered(p.code, p.s, m, k);
  }

  /** Only one computation ends at an offset. */
  lemma OneAtSpot(p: Plan, b: int, g: int, b': int, g': int)
    requires BodyOk(p) && Made(p, b, g) && Made(p, b', g') && p.gen[b][g].end == p.gen[b'][g'].end
    ensures b == b' && g == g'
  {
    hide BodyOk, IsPure;
    var k := Recorded(p, b, g);
    var k' := Recorded(p, b', g');
    Spots(p, k + 1, k' + 1);
    SameBlock(p, b, b', p.s[k]);
  }

  lemma SameBlock(p: Plan, i: int, j: int, x: int)
    requires BodyOk(p) && Blocks.InBlock(p.blocks, i, x) && Blocks.InBlock(p.blocks, j, x)
    ensures i == j
  {
    hide Blocks.LinkedTo, Blocks.Flows, Blocks.Leader;
    var starts :| Blocks.CfgBy(p.code, [], p.s, p.blocks, starts);
    BlockIs(p, starts, i);
    BlockIs(p, starts, j);
    Blocks.EndsBefore(starts, |p.code|);
  }

  lemma BlockIs(p: Plan, starts: seq<int>, j: int)
    requires Layout(p.code, p.s) && Blocks.CfgBy(p.code, [], p.s, p.blocks, starts) && 0 <= j < |p.blocks|
    ensures |starts| == |p.blocks| && p.blocks[j].start == starts[j]
    ensures p.blocks[j].end == Blocks.EndOf(starts, |p.code|, j)
  {
    hide Blocks.Flows, Blocks.Leader;
  }

  /** Blocks are stretches of whole instructions, and only starts of blocks start blocks. */
  lemma BlockSpan(p: Plan, j: int)
    requires BodyOk(p) && 0 <= j < |p.blocks|
    ensures p.blocks[j].start in p.s && p.blocks[j].end in p.s && 0 <= p.blocks[j].start <= p.blocks[j].end <= |p.code|
    ensures forall x :: p.blocks[j].start < x < p.blocks[j].end ==> !StartsBlock(p.blocks, x)
  {
    hide Blocks.Leader, Blocks.Targeted, Blocks.LinkedTo, Blocks.Flows;
    var starts :| Blocks.CfgBy(p.code, [], p.s, p.blocks, starts);
    BlockIs(p, starts, j);
    Blocks.BlockAligned(p.code, [], p.s, starts, j);
    Blocks.EndsInside(p.code, [], p.s, starts, j);
    Blocks.EndsBefore(starts, |p.code|);
    forall x | p.blocks[j].start < x < p.blocks[j].end
      ensures !StartsBlock(p.blocks, x)
    {
      forall i | 0 <= i < |p.blocks|
        ensures p.blocks[i].start != x
      {
        BlockIs(p, starts, i);
      }
    }
    StartsRise(p, starts, j);
  }

  lemma StartsRise(p: Plan, starts: seq<int>, j: int)
    requires Layout(p.code, p.s) && Blocks.CfgBy(p.code, [], p.s, p.blocks, starts) && 0 <= j < |p.blocks|
    ensures p.blocks[j].start <= p.blocks[j].end
  {
    hide Blocks.Flows, Blocks.Leads, Blocks.Bounds;
    BlockIs(p, starts, j);
    assert starts[j] in starts;
    assert Blocks.Leader(p.code, [], p.s, starts[j]);
  }

  lemma Shape(p: Plan)
    requires BodyOk(p)
    ensures Layout(p.code, p.s) && WellNamed(p.names) && |p.after| == |p.s| - 1 && |p.gen| == |p.blocks|
    ensures Numbered(p.code, p.s, p.blocks, p.stable, p.names, p.after, p.gen)
  {
    hide Layout, WellNamed;
  }

  lemma EffectsAt(sem: Semantics, p: Plan, env: Env, k: int, st: State, st': State)
    requires BodyOk(p) && Standard(sem, env) && 0 <= k < |p.s| - 1 && 0 <= p.s[k] < |p.code|
    requires var o := sem(Core(p.code, p.s[k]), st); (o.Next? || o.Jump?) && o.state == st'
    ensures Core(p.code, p.s[k]) != [] && Core(p.code, p.s[k])[0] == p.code[p.s[k]]
    ensures Effects(env, Core(p.code, p.s[k]), st, st')
  {
    hide Effects, Does, Blind, BodyOk, Core;
    CoreHead(p.code, p.s[k]);
  }

  lemma AssignedIsUnstable(p: Plan, k: int)
    requires BodyOk(p) && 0 <= k < |p.s| - 1 && (p.code[p.s[k]] == LOCAL_SET || p.code[p.s[k]] == LOCAL_TEE)
    ensures Operand(p.code, p.s[k]) < |p.stable| && !p.stable[Operand(p.code, p.s[k])]
  {
    hide Layout, Numbered, Operand, Blocks.IsCfg, Blocks.Targeted, Blocks.InRange, Blocks.TablesEndBlocks;
  }

  /** Locals that are never assigned keep their values. */
  lemma LocalsKept(p: Plan, env: Env, k: int, st: State, st': State)
    requires BodyOk(p) && 0 <= k < |p.s| - 1 && 0 <= p.s[k] < |p.code| && StableHeld(p.stable, env, st.locals)
    requires Core(p.code, p.s[k]) != [] && Core(p.code, p.s[k])[0] == p.code[p.s[k]]
    requires Effects(env, Core(p.code, p.s[k]), st, st')
    ensures StableHeld(p.stable, env, st'.locals)
  {
    hide Core, Layout, Numbered, Opaque, IsPure, IsLeaf, Takes, Operand, Index, Pops, Pushes, Blocks.IsCfg,
         Blocks.Targeted, Blocks.InRange, Blocks.TablesEndBlocks;
    var op := p.code[p.s[k]];
    if op == LOCAL_SET || op == LOCAL_TEE {
      IndexIs(p.code, p.s, k);
      AssignedIsUnstable(p, k);
    }
  }

  /** One instruction of the original keeps what is known. */
  lemma OneStep(sem: Semantics, p: Plan, env: Env, k: int, st: State, st': State)
    requires BodyOk(p) && Standard(sem, env) && 0 <= k < |p.s| - 1 && 0 <= p.s[k] < |p.code|
    requires StableHeld(p.stable, env, st.locals)
    requires var o := sem(Core(p.code, p.s[k]), st); (o.Next? || o.Jump?) && o.state == st'
    requires Layout(p.code, p.s) && Matches(env, Before(p, k), st.stack)
    ensures StableHeld(p.stable, env, st'.locals) && Matches(env, After(p, k), st'.stack)
  {
    hide BodyOk, Standard, StableHeld, Matches, Core, TermsBefore, Effects, TermStep;
    EffectsAt(sem, p, env, k, st, st');
    LocalsKept(p, env, k, st, st');
    StepMatches(p.stable, env, p.code, p.s, k, Before(p, k), st, st');
  }

  /** Inside a block, what is known before an instruction is what the one before it left. */
  lemma SameStretch(p: Plan, j: int, k: int)
    requires BodyOk(p) && 0 <= k && k + 1 < |p.s| - 1 && Blocks.InBlock(p.blocks, j, p.s[k])
    requires Blocks.InBlock(p.blocks, j, p.s[k + 1])
    ensures Layout(p.code, p.s) && Before(p, k + 1) == After(p, k)
  {
    hide BodyOk, StartsBlock;
    Shape(p);
    Spots(p, k, k + 1);
    BlockSpan(p, j);
  }

  /** A block is not empty, and its first instruction is one of the body's. */
  lemma BlockFirst(p: Plan, j: int) returns (k: int)
    requires BodyOk(p) && 0 <= j < |p.blocks| && p.blocks[j].start < |p.code|
    ensures 0 <= k < |p.s| - 1 && p.s[k] == p.blocks[j].start && Blocks.InBlock(p.blocks, j, p.s[k])
    ensures Layout(p.code, p.s) && Before(p, k) == []
  {
    hide BodyOk, Layout, Blocks.LinkedTo, Blocks.Flows, Blocks.Leader;
    Shape(p);
    BlockSpan(p, j);
    BlockFull(p, j);
    k :| 0 <= k < |p.s| && p.s[k] == p.blocks[j].start;
    Numbering.Ends(p.code, p.s);
    assert StartsBlock(p.blocks, p.s[k]);
  }

  lemma BlockFull(p: Plan, j: int)
    requires BodyOk(p) && 0 <= j < |p.blocks| && p.blocks[j].start < |p.code|
    ensures p.blocks[j].start < p.blocks[j].end
  {
    hide Blocks.LinkedTo, Blocks.Flows, Blocks.Leader, Numbered, Layout;
    var starts :| Blocks.CfgBy(p.code, [], p.s, p.blocks, starts);
    BlockIs(p, starts, j);
  }

  /** A recorded computation ends inside its block, after its start. */
  lemma GenInside(p: Plan, b: int, g: int) returns (k: int)
    requires BodyOk(p) && Made(p, b, g)
    ensures GenAt(p.code, p.s, p.blocks, p.after, b, g, p.gen[b][g], k)
    ensures p.blocks[b].start <= p.s[k] < p.gen[b][g].end <= p.blocks[b].end
  {
    hide BodyOk, IsPure, Layout;
    Shape(p);
    k := Recorded(p, b, g);
    BlockSpan(p, b);
    Spots(p, k, k + 1);
    Blocks.Ends(p.code, p.s, k, p.blocks[b].end);
  }

  ghost predicate AllMade(p: Plan, j: int, lim: int) {
    0 <= j < |p.gen| && forall g :: g in p.gen[j] ==> p.gen[j][g].end <= lim
  }

  ghost predicate Somewhere(p: Plan, env: Env, x: int, a: State, extra: seq<int>)
    requires Layout(p.code, p.s)
  {
    x == |p.code| || exists j, k :: Ahead(p, env, j, k, x, a, extra)
  }

  /** What can be in a slot in block j can be there in the next, where nothing captures the group. */
  lemma SuppliesNext(p: Plan, g: int, c: int, j: int, i: int)
    requires Supplies(p, g, c, j) && 0 <= i < |p.blocks| && i < |p.avail| && j in p.blocks[i].preds && g in p.avail[i]
    ensures Supplies(p, g, c, i)
  {
    hide Captures;
    var path :| CarriesTo(p, g, c, j, path);
    assert CarriesTo(p, g, c, i, path + [i]);
  }

  lemma SuppliesHere(p: Plan, g: int, c: int)
    requires Captures(p, c, g) && 0 <= c < |p.blocks|
    ensures Supplies(p, g, c, c)
  {
    assert CarriesTo(p, g, c, c, [c]);
  }

  lemma SlotNext(p: Plan, env: Env, j: int, g: int, i: int, extra: seq<int>)
    requires Layout(p.code, p.s) && InSlot(p, env, j, g, extra) && 0 <= i < |p.blocks| && i < |p.avail|
    requires j in p.blocks[i].preds && g in p.avail[i]
    ensures InSlot(p, env, i, g, extra)
  {
    hide TermValue, MadeTerm, Supplies, Captures;
    var c :| HoldsFrom(p, env, c, j, g, extra[p.slots[g]]);
    SuppliesNext(p, g, c, j, i);
    assert HoldsFrom(p, env, c, i, g, extra[p.slots[g]]);
  }

  /** Along an edge: what block j had or made is there at the start of the next. */
  lemma Arrive(p: Plan, env: Env, j: int, lim: int, i: int, a: State, extra: seq<int>)
    requires BodyOk(p) && AvailOk(p) && Layout(p.code, p.s) && Held(p, env, j, lim, extra) && AllMade(p, j, lim)
    requires 0 <= i < |p.blocks| && j in p.blocks[i].preds && p.blocks[i].start < |p.code|
    ensures Somewhere(p, env, p.blocks[i].start, a, extra)
  {
    hide BodyOk, InSlot, GenAt, TermsBefore, Layout, TermValue;
    Shape(p);
    var k := BlockFirst(p, i);
    forall g | g in p.slots && (g in p.avail[i] || (g in p.gen[i] && p.gen[i][g].end <= p.s[k]))
      ensures InSlot(p, env, i, g, extra)
    {
      if g in p.avail[i] {
        SlotNext(p, env, j, g, i, extra);
      } else {
        var m := GenInside(p, i, g);
      }
    }
    assert Matches(env, Before(p, k), a.stack) by { NothingMatches(env, a.stack); }
    assert Ahead(p, env, i, k, p.s[k], a, extra);
  }

  /** Falling through from instruction k of block j with everything captured so far in its slot. */
  lemma Proceed(p: Plan, env: Env, j: int, k: int, a: State, extra: seq<int>)
    requires BodyOk(p) && AvailOk(p) && 0 <= k < |p.s| - 1 && Blocks.InBlock(p.blocks, j, p.s[k])
    requires 0 <= p.s[k] < |p.code| && Layout(p.code, p.s)
    requires Blocks.FallsThrough(p.code[p.s[k]]) && Held(p, env, j, p.s[k + 1], extra)
    requires Matches(env, After(p, k), a.stack)
    ensures Somewhere(p, env, p.s[k + 1], a, extra)
  {
    hide BodyOk, AvailOk, Held, Matches, Blocks.FallsThrough, TermsBefore;
    Shape(p);
    Spots(p, k, k + 1);
    Falls(p, j, k);
    var x := p.s[k + 1];
    if x != |p.code| {
      NotLast(p, k + 1);
      if Blocks.InBlock(p.blocks, j, x) {
        SameStretch(p, j, k);
        assert Ahead(p, env, j, k + 1, x, a, extra);
      } else {
        var i :| 0 <= i < |p.blocks| && p.blocks[i].start == x && j in p.blocks[i].preds;
        BlockSpan(p, j);
        assert StartsBlock(p.blocks, x);
        EndsAllMade(p, j, x);
        Arrive(p, env, j, x, i, a, extra);
      }
    }
  }

  lemma NotLast(p: Plan, k: int)
    requires BodyOk(p) && 0 <= k < |p.s| && p.s[k] != |p.code|
    ensures k < |p.s| - 1 && 0 <= p.s[k] < |p.code|
  {
    hide Numbered, Blocks.IsCfg, Blocks.Targeted, Blocks.InRange, Blocks.TablesEndBlocks;
    Spots(p, k, |p.s| - 1);
  }

  lemma Falls(p: Plan, j: int, k: int)
    requires BodyOk(p) && 0 <= k < |p.s| - 1 && Blocks.InBlock(p.blocks, j, p.s[k]) && 0 <= p.s[k] < |p.code|
    requires Blocks.FallsThrough(p.code[p.s[k]])
    ensures var x := p.s[k + 1];
            || x == |p.code| || Blocks.InBlock(p.blocks, j, x)
            || exists i :: 0 <= i < |p.blocks| && p.blocks[i].start == x && j in p.blocks[i].preds
  {
    hide Blocks.LinkedTo, Blocks.Flows, Blocks.Leader, Blocks.StartsOk, Numbered, Layout;
    var starts :| Blocks.CfgBy(p.code, [], p.s, p.blocks, starts);
    Blocks.NextFollows(p.code, [], p.s, p.blocks, starts, j, k);
  }

  /** Everything a block computes ends by the block's end. */
  lemma EndsAllMade(p: Plan, j: int, lim: int)
    requires BodyOk(p) && 0 <= j < |p.blocks| && p.blocks[j].end <= lim
    ensures AllMade(p, j, lim)
  {
    hide BodyOk, GenAt;
    Shape(p);
    forall g | g in p.gen[j]
      ensures p.gen[j][g].end <= lim
    {
      var k := GenInside(p, j, g);
    }
  }

  /** Jumping from instruction k of block j. */
  lemma Leap(p: Plan, env: Env, j: int, k: int, arm: int, a: State, extra: seq<int>)
    requires BodyOk(p) && AvailOk(p) && 0 <= k < |p.s| - 1 && Blocks.InBlock(p.blocks, j, p.s[k])
    requires 0 <= p.s[k] < |p.code|
    requires 0 <= arm < Arms(p.code, p.s[k]) && Held(p, env, j, p.s[k], extra)
    ensures Somewhere(p, env, Target(p.code, p.s[k], arm), a, extra)
  {
    hide BodyOk, AvailOk, Held, Arms, Target, GenAt;
    Shape(p);
    Leaves(p, j, k, arm);
    var x := Target(p.code, p.s[k], arm);
    if x != |p.code| {
      var i :| 0 <= i < |p.blocks| && p.blocks[i].start == x && j in p.blocks[i].preds;
      assert p.blocks[i].start < |p.code| by { StartInside(p, i, x); }
      BranchAllMade(p, j, k);
      Arrive(p, env, j, p.s[k], i, a, extra);
    }
  }

  lemma StartInside(p: Plan, i: int, x: int)
    requires BodyOk(p) && 0 <= i < |p.blocks| && p.blocks[i].start == x && x != |p.code|
    ensures x < |p.code|
  {
    hide BodyOk;
    BlockSpan(p, i);
  }

  /** A branch ends its block and follows an edge out of it. */
  lemma Leaves(p: Plan, j: int, k: int, arm: int)
    requires BodyOk(p) && 0 <= k < |p.s| - 1 && Blocks.InBlock(p.blocks, j, p.s[k]) && 0 <= p.s[k] < |p.code|
    requires 0 <= arm < Arms(p.code, p.s[k])
    ensures p.s[k + 1] == p.blocks[j].end
    ensures var x := Target(p.code, p.s[k], arm);
            x == |p.code| || exists i :: 0 <= i < |p.blocks| && p.blocks[i].start == x && j in p.blocks[i].preds
  {
    hide Blocks.LinkedTo, Blocks.Flows, Blocks.Leader, Blocks.StartsOk, Numbered, Layout, Target, Blocks.EndOf,
         Blocks.Targeted, Blocks.InRange, Blocks.TablesEndBlocks, Blocks.TableInside, Blocks.Last;
    var starts :| Blocks.CfgBy(p.code, [], p.s, p.blocks, starts);
    BlockIs(p, starts, j);
    Blocks.EndsInside(p.code, [], p.s, starts, j);
    Blocks.TableEnds(p.code, [], p.s, k);
    Blocks.JumpFollows(p.code, [], p.s, p.blocks, starts, j, k, arm);
    Blocks.BranchEnds(p.code, [], p.s, starts, j, k);
    NotBeyond(p, k, Target(p.code, p.s[k], arm));
  }

  lemma NotBeyond(p: Plan, k: int, x: int)
    requires BodyOk(p) && 0 <= k < |p.s| - 1 && x in p.s
    ensures !(p.s[k] < x < p.s[k + 1])
  {
    hide BodyOk;
    Shape(p);
    NotBetween(p.code, p.s, k, x);
  }

  /** Before the branch that ends it, a block has computed all it computes. */
  lemma BranchAllMade(p: Plan, j: int, k: int)
    requires BodyOk(p) && 0 <= k < |p.s| - 1 && Blocks.InBlock(p.blocks, j, p.s[k]) && 0 <= p.s[k] < |p.code|
    requires Arms(p.code, p.s[k]) > 0 && p.s[k + 1] == p.blocks[j].end
    ensures AllMade(p, j, p.s[k])
  {
    hide BodyOk, IsPure;
    Shape(p);
    forall g | g in p.gen[j]
      ensures p.gen[j][g].end <= p.s[k]
    {
      var m := GenInside(p, j, g);
      Spots(p, m, k + 1);
      Spots(p, m + 1, k);
      PureIsPlain(p.code[p.s[m]]);
      BranchHas(p.code, p.s[k]);
      assert m != k;
    }
  }

  lemma BranchHas(code: seq<Byte>, ip: int)
    requires 0 <= ip < |code| && Arms(code, ip) > 0
    ensures IsBranch(code[ip])
  {
  }

  lemma PureIsPlain(op: Byte)
    ensures IsPure(op) ==> !IsBranch(op) && Blocks.FallsThrough(op)
  {
  }

  /** Something is captured exactly at the next offset only by the edit that is next. */
  lemma CaughtUp(p: Plan, env: Env, j: int, k: int, i: nat, extra: seq<int>)
    requires BodyOk(p) && EditsOk(p) && 0 <= k < |p.s| - 1 && Blocks.InBlock(p.blocks, j, p.s[k])
    requires Held(p, env, j, p.s[k], extra)
    requires i <= |p.es| && Done(p.es, i) <= p.s[k] && (i < |p.es| ==> p.s[k] < p.es[i].start)
    requires forall m :: 0 <= m < |p.es| ==> p.es[m].start in p.s
    requires !Pending(p, i, p.s[k + 1])
    ensures Held(p, env, j, p.s[k + 1], extra)
  {
    hide BodyOk, InSlot, GenAt, EditOk, IsLoad;
    Shape(p);
    forall g | g in p.slots && (g in p.avail[j] || (g in p.gen[j] && p.gen[j][g].end <= p.s[k + 1]))
      ensures InSlot(p, env, j, g, extra)
    {
      if g !in p.avail[j] && p.gen[j][g].end > p.s[k] {
        EndIs(p, j, g, k);
        NoTeeAhead(p, j, g, k, i);
      }
    }
  }

  /** A computation that ends after s[k] but not after s[k + 1] ends there. */
  lemma EndIs(p: Plan, j: int, g: int, k: int)
    requires BodyOk(p) && Made(p, j, g) && 0 <= k < |p.s| - 1 && p.s[k] < p.gen[j][g].end <= p.s[k + 1]
    ensures p.gen[j][g].end == p.s[k + 1]
  {
    hide BodyOk, IsPure;
    Shape(p);
    var m := GenInside(p, j, g);
    NotBeyond(p, k, p.s[m + 1]);
  }

  lemma NoTeeAhead(p: Plan, j: int, g: int, k: int, i: nat)
    requires BodyOk(p) && EditsOk(p) && g in p.slots && Captures(p, j, g) && 0 <= k < |p.s| - 1
    requires p.gen[j][g].end == p.s[k + 1]
    requires i <= |p.es| && Done(p.es, i) <= p.s[k] && (i < |p.es| ==> p.s[k] < p.es[i].start)
    requires forall m :: 0 <= m < |p.es| ==> p.es[m].start in p.s
    ensures Pending(p, i, p.s[k + 1])
  {
    hide BodyOk, EditOk, IsLoad, IsTee, Apart, Done, Captures;
    assert TeeFor(p, j, g);
    var m :| IsTee(p, m, j, g);
    TeeIs(p, m, j, g);
    NextEdit(p, k, i, m);
  }

  lemma NextEdit(p: Plan, k: int, i: nat, m: nat)
    requires BodyOk(p) && EditsOk(p) && 0 <= k < |p.s| - 1 && m < |p.es| && p.es[m].start == p.es[m].end == p.s[k + 1]
    requires i <= |p.es| && Done(p.es, i) <= p.s[k] && (i < |p.es| ==> p.s[k] < p.es[i].start)
    requires forall n :: 0 <= n < |p.es| ==> p.es[n].start in p.s
    ensures m == i
  {
    hide BodyOk, EditOk, TeeFor, Captures;
    Shape(p);
    Spots(p, k, k + 1);
    if m < i {
      NotDone(p, k, i, m);
    } else if m > i {
      assert p.es[i].end <= p.es[m].start;
      NotBeyond(p, k, p.es[i].start);
    }
  }

  lemma NotDone(p: Plan, k: int, i: nat, m: nat)
    requires EditsOk(p) && m < i <= |p.es|
    ensures p.es[m].end <= Done(p.es, i)
  {
    hide EditOk, TeeFor, Captures;
    assert p.es[m].end <= p.es[i - 1].start <= p.es[i - 1].end || m == i - 1;
  }

  lemma TeeIs(p: Plan, i: int, b: int, g: int)
    requires IsTee(p, i, b, g)
    ensures 0 <= i < |p.es| && g in p.slots && Captures(p, b, g) && 0 <= p.slots[g] && |p.stable| + p.slots[g] < 256
    ensures p.es[i].start == p.es[i].end == p.gen[b][g].end && p.es[i].bytes == LocalText(LOCAL_TEE, p, p.slots[g])
  {
  }

  lemma LoadIs(p: Plan, i: int, b: int, g: int)
    requires IsLoad(p, i, b, g)
    ensures 0 <= i < |p.es| && g in p.slots && Reloads(p, b, g) && 0 <= p.slots[g] && |p.stable| + p.slots[g] < 256
    ensures p.es[i].start == p.gen[b][g].start && p.es[i].end == p.gen[b][g].end
    ensures p.es[i].bytes == LocalText(LOCAL_GET, p, p.slots[g])
  {
  }

  /** What a load or a tee of an extra local does. */
  lemma TextFlow(sem: Semantics, p: Plan, env: Env, op: Byte, n: int, a: State, extra: seq<int>)
    requires Standard(sem, env) && (op == LOCAL_GET || op == LOCAL_TEE) && |a.locals| == |p.stable|
    requires 0 <= n < |extra| && |p.stable| + n < 256
    ensures op == LOCAL_GET ==>
      Flow(sem, LocalText(op, p, n), 0, 2, Plus(a, extra)) == Next(Plus(Pushed(a, [extra[n]]), extra))
    ensures op == LOCAL_TEE && a.stack != [] ==>
              Flow(sem, LocalText(op, p, n), 0, 2, Plus(a, extra)) == Next(Plus(a, extra[n := a.stack[|a.stack| - 1]]))
  {
    hide Effects, Blind, IsPure, IsLeaf;
    var text := LocalText(op, p, n);
    assert Core(text, 0) == text && Width(text, 0) == 2;
    assert Does(sem, env, text, Plus(a, extra));
    if op == LOCAL_TEE && a.stack != [] {
      var v := a.stack[|a.stack| - 1];
      assert (a.locals + extra)[|a.locals| + n := v] == a.locals + extra[n := v];
    }
  }

  /** Capturing a value puts its group in its slot, and leaves the others. */
  lemma Captured(p: Plan, env: Env, j: int, g: int, k: int, v: int, extra: seq<int>)
    requires BodyOk(p) && EditsOk(p) && SlotsOk(p) && g in p.slots && Captures(p, j, g) && 0 <= k < |p.s| - 1
    requires p.gen[j][g].end == p.s[k + 1]
    requires Held(p, env, j, p.s[k], extra) && TermValue(env, MadeTerm(p, j, g)) == Some(v)
    ensures Held(p, env, j, p.s[k + 1], extra[p.slots[g] := v])
  {
    hide BodyOk, EditsOk, TermValue, SlotsOk, InSlot, Layout, MadeTerm;
    Shape(p);
    SlotIn(p, g);
    var extra' := extra[p.slots[g] := v];
    SlotNow(p, env, j, g, v, extra);
    forall h | h in p.slots && (h in p.avail[j] || (h in p.gen[j] && p.gen[j][h].end <= p.s[k + 1]))
      ensures InSlot(p, env, j, h, extra')
    {
      if h != g {
        if h !in p.avail[j] && p.gen[j][h].end > p.s[k] {
          EndIs(p, j, h, k);
          OneAtSpot(p, j, g, j, h);
        }
        assert InSlot(p, env, j, h, extra);
        SlotKept(p, env, j, h, g, v, extra);
      }
    }
  }

  lemma SlotIn(p: Plan, g: int)
    requires SlotsOk(p) && g in p.slots
    ensures 0 <= p.slots[g] < p.count
  {
  }

  lemma SlotNow(p: Plan, env: Env, j: int, g: int, v: int, extra: seq<int>)
    requires Layout(p.code, p.s) && |p.gen| == |p.blocks| && g in p.slots && 0 <= p.slots[g] < |extra|
    requires Captures(p, j, g) && TermValue(env, MadeTerm(p, j, g)) == Some(v)
    ensures InSlot(p, env, j, g, extra[p.slots[g] := v])
  {
    hide TermValue, MadeTerm, Supplies, Layout;
    SuppliesHere(p, g, j);
    var extra' := extra[p.slots[g] := v];
    assert HoldsFrom(p, env, j, j, g, extra'[p.slots[g]]);
  }

  lemma SlotKept(p: Plan, env: Env, j: int, h: int, g: int, v: int, extra: seq<int>)
    requires Layout(p.code, p.s) && SlotsOk(p) && g in p.slots && h != g && 0 <= p.slots[g] < |extra|
    requires InSlot(p, env, j, h, extra)
    ensures InSlot(p, env, j, h, extra[p.slots[g] := v])
  {
    hide HoldsFrom, Layout;
    var extra' := extra[p.slots[g] := v];
    var c :| HoldsFrom(p, env, c, j, h, extra[p.slots[h]]);
    assert HoldsFrom(p, env, c, j, h, extra'[p.slots[h]]);
  }

  /** Where a capture stands, the computation's value is on top. */
  lemma OnTop(p: Plan, env: Env, b: int, g: int, j: int, k: int, a: State) returns (v: int)
    requires BodyOk(p) && Made(p, b, g) && 0 <= k < |p.s| - 1 && p.s[k + 1] == p.gen[b][g].end
    requires Blocks.InBlock(p.blocks, j, p.s[k]) && Matches(env, After(p, k), a.stack)
    ensures b == j && 0 <= p.s[k] < |p.code| && IsPure(p.code[p.s[k]]) && a.stack != []
    ensures v == a.stack[|a.stack| - 1] && TermValue(env, MadeTerm(p, b, g)) == Some(v)
  {
    hide BodyOk, IsPure, TermValue, Matches, Blocks.InBlock, MadeTerm, TermsAfter, Spelled, Layout, Spells;
    Shape(p);
    var m, abs := RecordedTop(p, b, g);
    Spots(p, m + 1, k + 1);
    SameBlock(p, b, j, p.s[k]);
    MadeIs(p, b, g, k);
    MadeKnown(p, b, g);
    TopMatches(env, After(p, k), a.stack);
    v := a.stack[|a.stack| - 1];
  }

  lemma MadeKnown(p: Plan, b: int, g: int)
    requires BodyOk(p) && Made(p, b, g)
    ensures MadeTerm(p, b, g) != Unknown
  {
    hide BodyOk, MadeTerm;
    MadeSpells(p, b, g);
  }

  lemma TopMatches(env: Env, ts: seq<Term>, stack: seq<int>)
    requires Matches(env, ts, stack) && TopTerm(ts) != Unknown
    ensures stack != [] && TermValue(env, TopTerm(ts)) == Some(stack[|stack| - 1])
  {
    hide TermValue;
    assert MatchAt(env, ts[|ts| - 1], stack[|stack| - |ts| + (|ts| - 1)]);
  }

  /** The state after a capture. */
  lemma TeeCarries(p: Plan, env: Env, i: nat, b: int, g: int, a: State, extra: seq<int>) returns (extra': seq<int>)
    requires PlanOk(p) && IsTee(p, i, b, g) && StableHeld(p.stable, env, a.locals) && |extra| == p.count
    requires exists j, k :: Behind(p, env, j, k, p.es[i].start, a, extra)
    ensures a.stack != [] && extra' == extra[p.slots[g] := a.stack[|a.stack| - 1]]
    ensures Carries(p, env, i + 1, p.es[i].end, a, Plus(a, extra'))
  {
    hide BodyOk, EditsOk, AvailOk, IsTee, Matches, StableHeld, IsPure, Held, Captures, TermValue, MadeTerm, Layout,
         TermsAfter;
    Shape(p);
    TeeIs(p, i, b, g);
    assert Made(p, b, g) by { CapturesIs(p, b, g); }
    var j, k :| Behind(p, env, j, k, p.es[i].start, a, extra);
    var v := OnTop(p, env, b, g, j, k, a);
    extra' := extra[p.slots[g] := v];
    Captured(p, env, j, g, k, v, extra);
    PureIsPlain(p.code[p.s[k]]);
    Proceed(p, env, j, k, a, extra');
    NotPendingAfter(p, i);
    CarriesHere(p, env, i + 1, p.es[i].end, a, extra');
  }

  lemma CapturesIs(p: Plan, b: int, g: int)
    requires Captures(p, b, g)
    ensures Made(p, b, g)
  {
  }

  lemma CarriesHere(p: Plan, env: Env, i: nat, x: int, a: State, extra: seq<int>)
    requires Layout(p.code, p.s) && StableHeld(p.stable, env, a.locals) && |extra| == p.count
    requires if Pending(p, i, x) then exists j, k :: Behind(p, env, j, k, x, a, extra)
      else Somewhere(p, env, x, a, extra)
    ensures Carries(p, env, i, x, a, Plus(a, extra))
  {
    hide Behind, Ahead, StableHeld, Pending;
    assert (a.locals + extra)[|a.locals|..] == extra;
  }

  lemma NotPendingAfter(p: Plan, i: nat)
    requires EditsOk(p) && i < |p.es| && p.es[i].start == p.es[i].end
    ensures !Pending(p, i + 1, p.es[i].end)
  {
    hide EditOk, TeeFor;
  }

  /** From its block's start up to an instruction, everything is in the instruction's block. */
  lemma {:induction false} FirstInBlock(p: Plan, b: int, k: nat, m: nat)
    requires BodyOk(p) && k < |p.s| - 1 && Blocks.InBlock(p.blocks, b, p.s[k]) && First(p.s, p.blocks, k) <= m <= k
    ensures Blocks.InBlock(p.blocks, b, p.s[m])
  {
    hide BodyOk, Layout, StartsBlock;
    Shape(p);
    if m < k {
      BlockSpan(p, b);
      Spots(p, k - 1, k);
      StartsAt(p, b, p.blocks[b].start);
      if p.s[k] != p.blocks[b].start {
        NotBeyond(p, k - 1, p.blocks[b].start);
        FirstInBlock(p, b, k - 1, m);
      }
    }
  }

  lemma StartsAt(p: Plan, b: int, x: int)
    requires 0 <= b < |p.blocks| && p.blocks[b].start == x
    ensures StartsBlock(p.blocks, x)
  {
  }

  /** The instructions a load replaces, m to k, compute the recorded expression. */
  lemma LoadSpan(sem: Semantics, p: Plan, env: Env, b: int, g: int) returns (m: nat, k: int)
    requires BodyOk(p) && Standard(sem, env) && Reloads(p, b, g)
    ensures m <= k < |p.s| - 1 && p.s[m] == p.gen[b][g].start && p.s[k + 1] == p.gen[b][g].end
    ensures Blocks.InBlock(p.blocks, b, p.s[m]) && Blocks.InBlock(p.blocks, b, p.s[k])
    ensures 0 <= p.s[k] < |p.code| && IsPure(p.code[p.s[k]])
    ensures Computes(sem, p.stable, env, p.code, p.gen[b][g].start, p.gen[b][g].end, MadeTerm(p, b, g))
  {
    hide BodyOk, Standard, IsPure, Layout, Computes, AllOk, Blocks.InBlock, MadeTerm, TermsAfter, Spelled;
    Shape(p);
    var abs, n;
    k, abs := RecordedTop(p, b, g);
    MadeIs(p, b, g, k);
    MadeKnown(p, b, g);
    EntriesCompute(sem, p.names, p.stable, env, p.code, p.s, p.blocks, p.after, p.gen, k);
    m, n := TopSpan(sem, p, env, First(p.s, p.blocks, k), k + 1, abs, After(p, k));
    Spots(p, n, k + 1);
    FirstInBlock(p, b, k, m);
  }

  /** The code of the entry on top. */
  lemma TopSpan(sem: Semantics, p: Plan, env: Env, lo: int, hi: int, abs: seq<GSlot>, ts: seq<Term>)
                returns (m: int, n: int)
    requires AllOk(sem, p.stable, env, p.code, p.s, lo, hi, abs, ts) && abs != []
    requires abs[|abs| - 1].pure && TopTerm(ts) != Unknown
    ensures var x := abs[|abs| - 1];
            SpansAt(p.s, lo, hi, x, m, n) && Computes(sem, p.stable, env, p.code, x.start, x.end, TopTerm(ts))
  {
    hide Computes;
    var x, t := abs[|abs| - 1], TopTerm(ts);
    assert EntryOk(sem, p.stable, env, p.code, p.s, lo, hi, x, ts[|ts| - 1]);
    m, n :| SpansAt(p.s, lo, hi, x, m, n) && Computes(sem, p.stable, env, p.code, x.start, x.end, t);
  }

  /** Straight-line code of one block keeps what is known. */
  lemma {:induction false} RangeMatches(sem: Semantics, p: Plan, env: Env, j: int, m: nat, n: nat, st: State,
                                        st': State)
    requires BodyOk(p) && Standard(sem, env) && m < n < |p.s| && Blocks.InBlock(p.blocks, j, p.s[m])
    requires Blocks.InBlock(p.blocks, j, p.s[n - 1])
    requires Flow(sem, p.code, p.s[m], p.s[n], st) == Next(st') && StableHeld(p.stable, env, st.locals)
    requires Matches(env, Before(p, m), st.stack)
    ensures StableHeld(p.stable, env, st'.locals) && Matches(env, After(p, n - 1), st'.stack)
    decreases n - m
  {
    hide BodyOk, Standard, Flow, StableHeld, Matches, TermsBefore, TermsAfter, Layout;
    Shape(p);
    FlowSplit(sem, p.code, p.s, m, m + 1, n, st);
    FlowOne(sem, p.code, p.s, m, st);
    var st1 := sem(Core(p.code, p.s[m]), st).state;
    OneStep(sem, p, env, m, st, st1);
    if m + 1 == n {
      NoFlow(sem, p.code, p.s[n], st1);
    } else {
      Spots(p, m, m + 1);
      Spots(p, m + 1, n - 1);
      SameStretch(p, j, m);
      RangeMatches(sem, p, env, j, m + 1, n, st1, st');
    }
  }

  /** Nothing is captured inside a range that is replaced, or at its end. */
  lemma HeldOver(p: Plan, env: Env, i: int, b: int, g: int, extra: seq<int>)
    requires PlanOk(p) && IsLoad(p, i, b, g) && Held(p, env, b, p.es[i].start, extra)
    ensures Held(p, env, b, p.es[i].end, extra)
  {
    hide BodyOk, InSlot, IsLoad, EditsOk;
    Shape(p);
    LoadIs(p, i, b, g);
    forall h | h in p.slots && (h in p.avail[b] || (h in p.gen[b] && p.gen[b][h].end <= p.es[i].end))
      ensures InSlot(p, env, b, h, extra)
    {
      if h !in p.avail[b] && p.gen[b][h].end > p.es[i].start {
        NoTeeInside(p, i, b, g, h);
      }
    }
  }

  lemma NoTeeInside(p: Plan, i: int, b: int, g: int, h: int)
    requires BodyOk(p) && EditsOk(p) && IsLoad(p, i, b, g) && h in p.slots && Captures(p, b, h)
    ensures !(p.es[i].start < p.gen[b][h].end <= p.es[i].end)
  {
    hide BodyOk, IsLoad, IsTee, EditOk;
    LoadIs(p, i, b, g);
    assert TeeFor(p, b, h);
    var m :| IsTee(p, m, b, h);
    TeeIs(p, m, b, h);
    if p.gen[b][h].end == p.es[i].end {
      OneAtSpot(p, b, h, b, g);
    } else if m < i {
      assert p.es[m].end <= p.es[i].start;
    } else if i < m {
      assert p.es[i].end <= p.es[m].start;
    }
  }

  lemma NotPendingAfterLoad(sem: Semantics, p: Plan, env: Env, i: nat, b: int, g: int)
    requires BodyOk(p) && EditsOk(p) && Standard(sem, env) && IsLoad(p, i, b, g)
    ensures !Pending(p, i + 1, p.es[i].end)
  {
    hide BodyOk, IsLoad, IsTee, Standard, TeeFor, Computes, IsPure;
    LoadIs(p, i, b, g);
    var n := i + 1;
    if Pending(p, n, p.es[i].end) {
      assert EditOk(p, n);
      if b', g' :| IsTee(p, n, b', g') {
        TeeIs(p, n, b', g');
        OneAtSpot(p, b, g, b', g');
      } else {
        var b', g' :| IsLoad(p, n, b', g');
        LoadIs(p, n, b', g');
        var m, k := LoadSpan(sem, p, env, b', g');
        Spots(p, m, k + 1);
      }
    }
  }

  lemma PlanHas(p: Plan)
    requires PlanOk(p)
    ensures BodyOk(p) && AvailOk(p) && SlotsOk(p) && EditsOk(p) && Layout(p.code, p.s)
    ensures |p.avail| == |p.blocks| == |p.gen| && Apart(p.es, |p.code|) && |p.stable| + p.count <= 256
    ensures forall i :: 0 <= i < |p.es| ==> EditOk(p, i)
  {
    hide BodyOk, EditOk, TeeFor, Layout, WellNamed;
    Shape(p);
  }

  /** The load pushes what is in the slot, the range it replaces what it computes: the same, if they agree. */
  lemma LoadPushes(sem: Semantics, p: Plan, env: Env, i: nat, b: int, g: int, c: int, v: int, a: State,
                   extra: seq<int>)
    requires BodyOk(p) && Standard(sem, env) && IsLoad(p, i, b, g) && StableHeld(p.stable, env, a.locals)
    requires 0 <= p.slots[g] < |extra| && extra[p.slots[g]] == v && HoldsFrom(p, env, c, b, g, v)
    ensures Flow(sem, p.es[i].bytes, 0, |p.es[i].bytes|, Plus(a, extra)) == Next(Plus(Pushed(a, [v]), extra))
    ensures AgreesAt(p, env, b, g, c) ==>
      Flow(sem, p.code, p.es[i].start, p.es[i].end, a) == Next(Pushed(a, [v]))
  {
    hide BodyOk, IsLoad, StableHeld, IsPure, TermValue, Flow, Standard, MadeTerm, Supplies, Layout;
    Shape(p);
    LoadIs(p, i, b, g);
    var m, k := LoadSpan(sem, p, env, b, g);
    if AgreesAt(p, env, b, g, c) {
      assert ComputesAt(sem, env, p.code, p.es[i].start, p.es[i].end, MadeTerm(p, b, g), a);
    }
    SizeHeld(p.stable, env, a.locals);
    TextFlow(sem, p, env, LOCAL_GET, p.slots[g], a, extra);
  }

  /** The range a load replaces pushes what the load pushes, if the captures that reach it agree. */
  lemma LoadFlow(sem: Semantics, p: Plan, env: Env, i: nat, b: int, g: int, a: State, extra: seq<int>) returns (v: int)
    requires PlanOk(p) && Standard(sem, env) && IsLoad(p, i, b, g) && StableHeld(p.stable, env, a.locals)
    requires |extra| == p.count && Agree(p, env)
    requires Held(p, env, b, p.es[i].start, extra)
    ensures Flow(sem, p.code, p.es[i].start, p.es[i].end, a) == Next(Pushed(a, [v]))
    ensures Flow(sem, p.es[i].bytes, 0, |p.es[i].bytes|, Plus(a, extra)) == Next(Plus(Pushed(a, [v]), extra))
  {
    hide BodyOk, EditsOk, AvailOk, SlotsOk, IsLoad, StableHeld, Held, TermValue, Flow, Standard, MadeTerm, Supplies,
         Captures, Layout, HoldsFrom, AgreesAt;
    Shape(p);
    LoadIs(p, i, b, g);
    var c;
    v, c := HasSlot(p, env, b, p.es[i].start, g, extra);
    assert AgreesAt(p, env, b, g, c);
    LoadPushes(sem, p, env, i, b, g, c, v, a, extra);
  }

  /** After the range the bodies are together again. */
  lemma LoadCarries(sem: Semantics, p: Plan, env: Env, i: nat, b: int, g: int, m: nat, k: nat, a: State, a': State,
                    extra: seq<int>)
    requires PlanOk(p) && Standard(sem, env) && IsLoad(p, i, b, g) && StableHeld(p.stable, env, a.locals)
    requires |extra| == p.count
    requires m <= k < |p.s| - 1 && p.s[m] == p.es[i].start && p.s[k + 1] == p.es[i].end && 0 <= p.s[k] < |p.code|
    requires IsPure(p.code[p.s[k]])
    requires Blocks.InBlock(p.blocks, b, p.s[m]) && Blocks.InBlock(p.blocks, b, p.s[k])
    requires Ahead(p, env, b, m, p.es[i].start, a, extra) && Flow(sem, p.code, p.s[m], p.s[k + 1], a) == Next(a')
    ensures Carries(p, env, i + 1, p.es[i].end, a', Plus(a', extra))
  {
    hide BodyOk, EditsOk, AvailOk, SlotsOk, IsLoad, Matches, StableHeld, IsPure, Held, Flow, TermsBefore, Standard,
         Carries, Blocks.InBlock;
    PlanHas(p);
    LoadIs(p, i, b, g);
    RangeMatches(sem, p, env, b, m, k + 1, a, a');
    HeldOver(p, env, i, b, g, extra);
    PureIsPlain(p.code[p.s[k]]);
    Proceed(p, env, b, k, a', extra);
    NotPendingAfterLoad(sem, p, env, i, b, g);
    CarriesHere(p, env, i + 1, p.es[i].end, a', extra);
  }

  /** A load does what the range it replaces did. */
  lemma LoadRight(sem: Semantics, p: Plan, env: Env, i: nat, b: int, g: int, a: State, extra: seq<int>)
                  returns (a': State)
    requires PlanOk(p) && Standard(sem, env) && IsLoad(p, i, b, g) && StableHeld(p.stable, env, a.locals)
    requires |extra| == p.count && Agree(p, env)
    requires exists j, k :: Ahead(p, env, j, k, p.es[i].start, a, extra)
    ensures Flow(sem, p.code, p.es[i].start, p.es[i].end, a) == Next(a')
    ensures Flow(sem, p.es[i].bytes, 0, |p.es[i].bytes|, Plus(a, extra)) == Next(Plus(a', extra))
    ensures Carries(p, env, i + 1, p.es[i].end, a', Plus(a', extra))
  {
    hide PlanOk, BodyOk, EditsOk, AvailOk, SlotsOk, IsLoad, Matches, StableHeld, IsPure, Held, TermValue, Flow,
         TermsBefore, Standard, Carries, Computes, EditOk, Agree, MadeTerm, Layout;
    PlanHas(p);
    LoadIs(p, i, b, g);
    var j, k0 :| Ahead(p, env, j, k0, p.es[i].start, a, extra);
    var m, k := LoadSpan(sem, p, env, b, g);
    Spots(p, m, k0);
    SameBlock(p, b, j, p.s[m]);
    var v := LoadFlow(sem, p, env, i, b, g, a, extra);
    a' := Pushed(a, [v]);
    LoadCarries(sem, p, env, i, b, g, m, k, a, a', extra);
  }

  lemma SizeHeld(stable: seq<bool>, env: Env, locals: seq<int>)
    requires StableHeld(stable, env, locals)
    ensures |locals| == |stable|
  {
  }

  lemma HasSlot(p: Plan, env: Env, j: int, lim: int, g: int, extra: seq<int>) returns (v: int, c: int)
    requires BodyOk(p) && Held(p, env, j, lim, extra) && g in p.slots && g in p.avail[j]
    ensures 0 <= p.slots[g] < |extra| && v == extra[p.slots[g]] && HoldsFrom(p, env, c, j, g, v)
  {
    hide BodyOk, HoldsFrom, Layout;
    Shape(p);
    assert InSlot(p, env, j, g, extra);
    v := extra[p.slots[g]];
    c :| HoldsFrom(p, env, c, j, g, v);
  }

  /** How the rewritten body follows the original. */
  ghost function Following(p: Plan, env: Env): Relation {
    (i: nat, x: int, a: State, b: State) => Layout(p.code, p.s) && Carries(p, env, i, x, a, b)
  }

  lemma TextsRight(sem: Semantics, land: Land, p: Plan, env: Env, i: nat)
    requires PlanOk(p) && Standard(sem, env) && i < |p.es| && Agree(p, env)
    ensures TextRight(sem, land, Following(p, env), Alike, p.code, [], p.es, i)
  {
    hide PlanOk, Standard, Carries, Flow, RaiseAgrees, Agree, Layout;
    PlanHas(p);
    forall a, b | Following(p, env)(i, p.es[i].start, a, b)
      ensures Agrees(Following(p, env), Alike, land, p.es, [], p.es[i].end - 1, i + 1, p.es[i].end,
                     Flow(sem, p.code, p.es[i].start, p.es[i].end, a), Flow(sem, p.es[i].bytes, 0, |p.es[i].bytes|, b))
    {
      var a', b' := TextTogether(sem, p, env, i, a, b);
    }
  }

  /** Across an edit the two bodies' states stay related. */
  lemma TextTogether(sem: Semantics, p: Plan, env: Env, i: nat, a: State, b: State) returns (a': State, b': State)
    requires PlanOk(p) && Standard(sem, env) && i < |p.es| && Agree(p, env)
    requires Carries(p, env, i, p.es[i].start, a, b)
    ensures Flow(sem, p.code, p.es[i].start, p.es[i].end, a) == Next(a')
    ensures Flow(sem, p.es[i].bytes, 0, |p.es[i].bytes|, b) == Next(b')
    ensures Carries(p, env, i + 1, p.es[i].end, a', b')
  {
    hide PlanOk, Standard, Flow, Ahead, Behind, StableHeld, BodyOk, AvailOk, SlotsOk, EditsOk, IsTee, IsLoad,
         Agree, Layout;
    PlanHas(p);
    var extra := b.locals[|a.locals|..];
    assert EditOk(p, i);
    if bl, g :| IsTee(p, i, bl, g) {
      TeeIs(p, i, bl, g);
      var extra' := TeeCarries(p, env, i, bl, g, a, extra);
      SizeHeld(p.stable, env, a.locals);
      SlotInside(p, g);
      TextFlow(sem, p, env, LOCAL_TEE, p.slots[g], a, extra);
      NoFlow(sem, p.code, p.es[i].start, a);
      a', b' := a, Plus(a, extra');
    } else {
      var bl, g :| IsLoad(p, i, bl, g);
      LoadIs(p, i, bl, g);
      LoadNotEmpty(sem, p, env, i, bl, g);
      a' := LoadRight(sem, p, env, i, bl, g, a, extra);
      b' := Plus(a', extra);
    }
  }

  lemma SlotInside(p: Plan, g: int)
    requires SlotsOk(p) && g in p.slots
    ensures 0 <= p.slots[g] < p.count
  {
  }

  lemma LoadNotEmpty(sem: Semantics, p: Plan, env: Env, i: nat, b: int, g: int)
    requires BodyOk(p) && Standard(sem, env) && IsLoad(p, i, b, g)
    ensures p.es[i].start < p.es[i].end <= |p.code| && !Pending(p, i, p.es[i].start)
  {
    hide BodyOk, Standard, Computes, IsPure, IsLoad;
    LoadIs(p, i, b, g);
    var m, k := LoadSpan(sem, p, env, b, g);
    Spots(p, k + 1, m);
  }

  lemma ReloadsIs(p: Plan, b: int, g: int)
    requires Reloads(p, b, g)
    ensures Made(p, b, g)
  {
  }

  /** Edits start and end on instructions. */
  lemma EditsOnInstructions(sem: Semantics, p: Plan, env: Env, i: nat)
    requires PlanOk(p) && Standard(sem, env) && i < |p.es|
    ensures p.es[i].start in p.s && p.es[i].end in p.s
    ensures forall k ::
      0 <= k < |p.s| - 1 && p.es[i].start <= p.s[k] < p.es[i].end ==>
      0 <= p.s[k] < |p.code| && !IsBranch(p.code[p.s[k]])
    ensures forall x :: p.es[i].start < x < p.es[i].end ==> !StartsBlock(p.blocks, x)
  {
    hide PlanOk, Standard, BodyOk, AvailOk, SlotsOk, EditsOk, IsTee, IsLoad, Reloads, IsPure, StartsBlock;
    PlanHas(p);
    assert EditOk(p, i);
    if b, g :| IsTee(p, i, b, g) {
      TeeIs(p, i, b, g);
      CapturesIs(p, b, g);
      var k := Recorded(p, b, g);
    } else {
      var b, g :| IsLoad(p, i, b, g);
      LoadIs(p, i, b, g);
      ReloadsIs(p, b, g);
      LoadRange(sem, p, env, b, g);
    }
  }

  /** The code of a computation that can be reloaded is whole instructions inside one block, and no branch. */
  lemma LoadRange(sem: Semantics, p: Plan, env: Env, b: int, g: int)
    requires BodyOk(p) && Standard(sem, env) && Reloads(p, b, g)
    ensures var c := p.gen[b][g];
            && 0 <= c.start < c.end <= |p.code| && c.start in p.s && c.end in p.s
            && (forall k ::
               0 <= k < |p.s| - 1 && c.start <= p.s[k] < c.end ==> 0 <= p.s[k] < |p.code| && !IsBranch(p.code[p.s[k]]))
            && forall x :: c.start < x < c.end ==> !StartsBlock(p.blocks, x)
  {
    hide Standard, BodyOk, Reloads, Computes, IsPure, StartsBlock;
    ReloadsIs(p, b, g);
    var m, k := LoadSpan(sem, p, env, b, g);
    BlockSpan(p, b);
    Spots(p, m, k + 1);
    Spots(p, k + 1, m);
    var c := p.gen[b][g];
    forall q | 0 <= q < |p.s| - 1 && c.start <= p.s[q] < c.end
      ensures 0 <= p.s[q] < |p.code| && !IsBranch(p.code[p.s[q]])
    {
      RangePlain(p, b, m, k, q);
    }
    LoadInside(p, b, k);
  }

  lemma LoadInside(p: Plan, b: int, k: int)
    requires BodyOk(p) && 0 <= k < |p.s| - 1 && Blocks.InBlock(p.blocks, b, p.s[k])
    ensures p.s[k + 1] <= p.blocks[b].end
  {
    hide BodyOk, Layout;
    Shape(p);
    BlockSpan(p, b);
    Blocks.Ends(p.code, p.s, k, p.blocks[b].end);
  }

  /** Instructions m to k of a block, the last of them pure, are no branches. */
  lemma RangePlain(p: Plan, b: int, m: int, k: int, q: int)
    requires BodyOk(p) && 0 <= m <= k < |p.s| - 1 && 0 <= q < |p.s| - 1 && p.s[m] <= p.s[q] < p.s[k + 1]
    requires Blocks.InBlock(p.blocks, b, p.s[m]) && Blocks.InBlock(p.blocks, b, p.s[k]) && 0 <= p.s[k] < |p.code|
    requires IsPure(p.code[p.s[k]])
    ensures 0 <= p.s[q] < |p.code| && !IsBranch(p.code[p.s[q]])
  {
    hide BodyOk, IsPure, Layout;
    Shape(p);
    Spots(p, q, k + 1);
    Spots(p, q + 1, k);
    Spots(p, q, k);
    Spots(p, q, |p.s| - 1);
    PureIsPlain(p.code[p.s[k]]);
    Numbering.Ends(p.code, p.s);
    if q < k {
      MidPlain(p, b, q);
    }
  }

  lemma MidPlain(p: Plan, b: int, q: int)
    requires BodyOk(p) && 0 <= q < |p.s| - 1 && Blocks.InBlock(p.blocks, b, p.s[q]) && p.s[q + 1] < p.blocks[b].end
    ensures 0 <= p.s[q] < |p.code| && !IsBranch(p.code[p.s[q]])
  {
    hide Blocks.LinkedTo, Blocks.Flows, Blocks.Leader, Blocks.StartsOk, Numbered, Layout, Blocks.EndOf, Blocks.Targeted,
         Blocks.InRange, Blocks.TablesEndBlocks, Blocks.TableInside;
    var starts :| Blocks.CfgBy(p.code, [], p.s, p.blocks, starts);
    BlockIs(p, starts, b);
    Blocks.EndsInside(p.code, [], p.s, starts, b);
    LayoutNext(p.code, p.s, q);
    Blocks.TableEnds(p.code, [], p.s, q);
    Blocks.InsideBlock(p.code, [], p.s, starts, b, q);
  }

  /** With no handlers every branch leads outside the edits' insides. */
  lemma TargetsClear(sem: Semantics, p: Plan, env: Env)
    requires PlanOk(p) && Standard(sem, env)
    ensures Layout(p.code, p.s) && EditsAligned(p.code, p.es, p.s) && ClearTargets(p.code, [], p.es, p.s)
  {
    hide PlanOk, Standard, BodyOk, AvailOk, SlotsOk, EditsOk, Layout, Target, Arms, StartsBlock, EditOk;
    PlanHas(p);
    forall i | 0 <= i < |p.es|
      ensures p.es[i].start in p.s && p.es[i].end in p.s
      ensures forall k ::
        0 <= k < |p.s| - 1 && p.es[i].start <= p.s[k] < p.es[i].end ==>
        0 <= p.s[k] < |p.code| && !IsBranch(p.code[p.s[k]])
      ensures forall x :: p.es[i].start < x < p.es[i].end ==> !StartsBlock(p.blocks, x)
    {
      EditsOnInstructions(sem, p, env, i);
    }
    Blocks.SlotsOf(p.code, p.s);
    forall k, a | 0 <= k < |p.s| - 1 && 0 <= a < Arms(p.code, p.s[k])
      ensures Open(p.es, p.s, Target(p.code, p.s[k], a))
    {
      TargetStarts(p, k, a);
      InsideCode(p);
    }
  }

  lemma InsideCode(p: Plan)
    requires Apart(p.es, |p.code|)
    ensures forall i :: 0 <= i < |p.es| ==> p.es[i].end <= |p.code|
  {
  }

  lemma TargetStarts(p: Plan, k: int, a: int)
    requires BodyOk(p) && 0 <= k < |p.s| - 1 && 0 <= p.s[k] < |p.code| && 0 <= a < Arms(p.code, p.s[k])
    ensures Target(p.code, p.s[k], a) in p.s
    ensures Target(p.code, p.s[k], a) == |p.code| || StartsBlock(p.blocks, Target(p.code, p.s[k], a))
  {
    hide Blocks.LinkedTo, Blocks.Flows, Blocks.Bounds, Numbered, Layout, Target, Arms, Blocks.TablesEndBlocks,
         Blocks.Leads;
    var x := Target(p.code, p.s[k], a);
    var starts :| Blocks.CfgBy(p.code, [], p.s, p.blocks, starts);
    if x != |p.code| {
      Blocks.TargetLeads(p.code, p.s, k, a);
      assert Blocks.Leader(p.code, [], p.s, x);
      var j :| 0 <= j < |starts| && starts[j] == x;
      BlockIs(p, starts, j);
    }
  }

  /** A jump lands with no capture pending. */
  lemma {:induction false} LandingClear(p: Plan, n: nat, x: int)
    requires n <= |p.es| && Apart(p.es, |p.code|)
    ensures Landing(p.es, n, x) < n ==> p.es[Landing(p.es, n, x)].end > x
  {
    if n > 0 && p.es[n - 1].end > x {
      LandingClear(p, n - 1, x);
    }
  }

  /** An unedited instruction does the same in both bodies. */
  lemma StepsRight(sem: Semantics, land: Land, p: Plan, env: Env, i: nat, k: int)
    requires PlanOk(p) && Standard(sem, env) && Sensible(sem) && 0 <= k < |p.s| - 1 && 0 <= p.s[k] < |p.code|
    requires i <= |p.es| && Done(p.es, i) <= p.s[k] && (i < |p.es| ==> p.s[k] < p.es[i].start)
    ensures StepRight(sem, land, Following(p, env), Alike, p.code, [], p.es, i, p.s[k])
  {
    hide PlanOk, Standard, Carries, Sensible, Core, Width, Target, Landing, BodyOk, AvailOk, SlotsOk, EditsOk, Layout,
         Done, EditOk;
    PlanHas(p);
    LayoutNext(p.code, p.s, k);
    forall a, b | Following(p, env)(i, p.s[k], a, b)
      ensures match (sem(Core(p.code, p.s[k]), a), sem(Core(p.code, p.s[k]), b))
              case (Jump(arm, st), Jump(arm', st')) => arm == arm' &&
                  Related(Following(p, env), p.es, Target(p.code, p.s[k], arm), st, st')
              case (o, o') => Agrees(Following(p, env), Alike, land, p.es, [], p.s[k], i,
                  p.s[k] + Width(p.code, p.s[k]), o, o')
    {
      var extra := SameOutcome(sem, p, env, i, k, a, b);
      match sem(Core(p.code, p.s[k]), a)
      case Next(a') =>
        NextCarries(sem, p, env, i, k, a, a', extra);
      case Jump(arm, a') =>
        JumpCarries(sem, p, env, i, k, arm, a, a', extra);
      case Stop(a') =>
        AlikePlus(a', extra);
      case Raise(a') =>
        AlikePlus(a', extra);
    }
  }

  lemma AlikePlus(a: State, extra: seq<int>)
    ensures Alike(a, Plus(a, extra))
  {
  }

  /** The original's instruction does not see the extra locals. */
  lemma SameOutcome(sem: Semantics, p: Plan, env: Env, i: nat, k: int, a: State, b: State) returns (extra: seq<int>)
    requires BodyOk(p) && Standard(sem, env) && Layout(p.code, p.s)
    requires 0 <= k < |p.s| - 1 && 0 <= p.s[k] < |p.code| && (i < |p.es| ==> p.s[k] < p.es[i].start)
    requires Carries(p, env, i, p.s[k], a, b)
    ensures b == Plus(a, extra) && |extra| == p.count && StableHeld(p.stable, env, a.locals)
    ensures exists j :: Ahead(p, env, j, k, p.s[k], a, extra)
    ensures sem(Core(p.code, p.s[k]), b) == PlusOutcome(sem(Core(p.code, p.s[k]), a), extra)
  {
    hide Effects, Does, StableHeld, Numbered, Layout, Core, Operand, Index, Held, Matches, TermsBefore, Blocks.IsCfg,
         Blocks.Targeted, Blocks.InRange, Blocks.TablesEndBlocks;
    extra := b.locals[|a.locals|..];
    var j, k' :| Ahead(p, env, j, k', p.s[k], a, extra);
    Spots(p, k, k');
    CoreHead(p.code, p.s[k]);
    SizeHeld(p.stable, env, a.locals);
    if IsLocalOp(p.code[p.s[k]]) {
      IndexIs(p.code, p.s, k);
    }
    assert Blind(sem, Core(p.code, p.s[k]), a, extra);
  }

  lemma NextCarries(sem: Semantics, p: Plan, env: Env, i: nat, k: int, a: State, a': State, extra: seq<int>)
    requires PlanOk(p) && Standard(sem, env) && Sensible(sem) && 0 <= k < |p.s| - 1 && 0 <= p.s[k] < |p.code|
    requires i <= |p.es| && Done(p.es, i) <= p.s[k] && (i < |p.es| ==> p.s[k] < p.es[i].start)
    requires Layout(p.code, p.s) && StableHeld(p.stable, env, a.locals) && |extra| == p.count
    requires exists j :: Ahead(p, env, j, k, p.s[k], a, extra)
    requires sem(Core(p.code, p.s[k]), a) == Next(a')
    ensures Carries(p, env, i, p.s[k + 1], a', Plus(a', extra))
  {
    hide PlanOk, Standard, Sensible, Core, BodyOk, AvailOk, SlotsOk, EditsOk, Layout, Done, EditOk, Held, Matches,
         TermsBefore, StableHeld;
    PlanHas(p);
    var j :| Ahead(p, env, j, k, p.s[k], a, extra);
    OneStep(sem, p, env, k, a, a');
    if Pending(p, i, p.s[k + 1]) {
      assert Behind(p, env, j, k, p.s[k + 1], a', extra);
    } else {
      assert forall m :: 0 <= m < |p.es| ==> p.es[m].start in p.s by { AllOn(sem, p, env); }
      CaughtUp(p, env, j, k, i, extra);
      NextFalls(sem, p.code, p.s[k], a);
      Proceed(p, env, j, k, a', extra);
    }
    CarriesHere(p, env, i, p.s[k + 1], a', extra);
  }

  lemma AllOn(sem: Semantics, p: Plan, env: Env)
    requires PlanOk(p) && Standard(sem, env)
    ensures forall m :: 0 <= m < |p.es| ==> p.es[m].start in p.s
  {
    hide PlanOk, Standard;
    forall m | 0 <= m < |p.es|
      ensures p.es[m].start in p.s
    {
      EditsOnInstructions(sem, p, env, m);
    }
  }

  lemma NextFalls(sem: Semantics, code: seq<Byte>, ip: int, a: State)
    requires Sensible(sem) && 0 <= ip < |code| && sem(Core(code, ip), a).Next?
    ensures Blocks.FallsThrough(code[ip])
  {
    CoreHead(code, ip);
  }

  lemma JumpCarries(sem: Semantics, p: Plan, env: Env, i: nat, k: int, arm: int, a: State, a': State, extra: seq<int>)
    requires PlanOk(p) && Standard(sem, env) && Sensible(sem) && 0 <= k < |p.s| - 1 && 0 <= p.s[k] < |p.code|
    requires Layout(p.code, p.s) && StableHeld(p.stable, env, a.locals) && |extra| == p.count
    requires exists j :: Ahead(p, env, j, k, p.s[k], a, extra)
    requires sem(Core(p.code, p.s[k]), a) == Jump(arm, a')
    ensures Related(Following(p, env), p.es, Target(p.code, p.s[k], arm), a', Plus(a', extra))
  {
    hide PlanOk, Standard, Sensible, Core, BodyOk, AvailOk, SlotsOk, EditsOk, Layout, EditOk, Held, Matches,
         TermsBefore, StableHeld, Target, Landing, Carries;
    PlanHas(p);
    var j :| Ahead(p, env, j, k, p.s[k], a, extra);
    OneStep(sem, p, env, k, a, a');
    ArmInside(sem, p.code, p.s[k], a);
    Leap(p, env, j, k, arm, a', extra);
    var x := Target(p.code, p.s[k], arm);
    LandingClear(p, |p.es|, x);
    CarriesHere(p, env, Landing(p.es, |p.es|, x), x, a', extra);
  }

  lemma PointIs(p: Plan, i: nat, k: int)
    requires Layout(p.code, p.s) && 0 <= k < |p.s| - 1 && PointOk(p.code, p.es, p.s, i, p.s[k])
    ensures i <= |p.es| && Done(p.es, i) <= p.s[k] && 0 <= p.s[k] < |p.code|
  {
    hide Done;
    LayoutNext(p.code, p.s, k);
  }

  /** Every edit and every unedited instruction does what it should. */
  lemma AllRight(sem: Semantics, land: Land, p: Plan, env: Env, fin: (State, State) -> bool)
    requires PlanOk(p) && Standard(sem, env) && Sensible(sem) && Layout(p.code, p.s) && Agree(p, env) && fin == Alike
    ensures LocallyRight(sem, land, Following(p, env), fin, p.code, [], p.es, p.s)
  {
    hide PlanOk, Standard, Sensible, TextRight, StepRight, Layout, Following, Alike, PointOk, Done, Agree;
    forall i | 0 <= i < |p.es|
      ensures TextRight(sem, land, Following(p, env), fin, p.code, [], p.es, i)
    {
      TextsRight(sem, land, p, env, i);
    }
    Blocks.SlotsOf(p.code, p.s);
    forall i: nat, k | 0 <= k < |p.s| - 1 && PointOk(p.code, p.es, p.s, i, p.s[k]) &&
        (i < |p.es| ==> p.s[k] < p.es[i].start)
      ensures StepRight(sem, land, Following(p, env), fin, p.code, [], p.es, i, p.s[k])
    {
      PointIs(p, i, k);
      StepsRight(sem, land, p, env, i, k);
    }
  }

  /** The texts of the edits are single instructions. */
  lemma TextsStraight(p: Plan)
    requires PlanOk(p)
    ensures StraightTexts(p.es, seq(|p.es|, _ => [0, 2]))
  {
    hide PlanOk, BodyOk, IsTee, IsLoad, EditsOk, AvailOk, SlotsOk;
    PlanHas(p);
    forall i | 0 <= i < |p.es|
      ensures Layout(p.es[i].bytes, [0, 2]) && Straight(p.es[i].bytes, [0, 2])
    {
      assert EditOk(p, i);
      if b, g :| IsTee(p, i, b, g) {
        TeeIs(p, i, b, g);
        OneInstruction(LOCAL_TEE, p, p.slots[g]);
      } else {
        var b, g :| IsLoad(p, i, b, g);
        LoadIs(p, i, b, g);
        OneInstruction(LOCAL_GET, p, p.slots[g]);
      }
    }
  }

  lemma OneInstruction(op: Byte, p: Plan, n: int)
    requires (op == LOCAL_GET || op == LOCAL_TEE) && 0 <= n && |p.stable| + n < 256
    ensures Layout(LocalText(op, p, n), [0, 2]) && Straight(LocalText(op, p, n), [0, 2])
  {
    var text := LocalText(op, p, n);
    assert Width(text, 0) == 2;
  }

  /** The start of a run. */
  lemma StartCarries(p: Plan, env: Env, a: State, extra: seq<int>)
    requires PlanOk(p) && Layout(p.code, p.s)
    requires env.locals == a.locals && |a.locals| == |p.stable| && |extra| == p.count
    ensures Carries(p, env, 0, 0, a, Plus(a, extra))
  {
    hide PlanOk, BodyOk, AvailOk, SlotsOk, EditsOk, TermsBefore, IsPure, InSlot;
    PlanHas(p);
    NothingAtStart(p);
    if |p.code| > 0 {
      BlockZero(p);
      var k := BlockFirst(p, 0);
      EntryEmpty(p);
      assert Ahead(p, env, 0, k, 0, a, extra);
    }
    CarriesHere(p, env, 0, 0, a, extra);
  }

  lemma EntryHas(p: Plan, g: int)
    requires BodyOk(p) && AvailOk(p) && |p.blocks| > 0 && p.blocks[0].start == 0
    ensures g !in p.avail[0] && !(g in p.gen[0] && p.gen[0][g].end <= 0)
  {
    hide BodyOk, IsPure;
    if g in p.gen[0] {
      var k := GenInside(p, 0, g);
    }
  }

  lemma EntryEmpty(p: Plan)
    requires BodyOk(p) && AvailOk(p) && |p.blocks| > 0 && p.blocks[0].start == 0
    ensures p.avail[0] == {} && forall g :: g in p.gen[0] ==> p.gen[0][g].end > 0
  {
    hide BodyOk;
    forall g | g in p.gen[0]
      ensures p.gen[0][g].end > 0
    {
      EntryHas(p, g);
    }
  }

  lemma BlockZero(p: Plan)
    requires BodyOk(p)
    ensures |p.blocks| > 0 && p.blocks[0].start == 0
  {
    hide Blocks.Leader, Blocks.Flows, Numbered, Layout;
    var starts :| Blocks.CfgBy(p.code, [], p.s, p.blocks, starts);
    BlockIs(p, starts, 0);
  }

  lemma NothingAtStart(p: Plan)
    requires PlanOk(p)
    ensures !Pending(p, 0, 0)
  {
    hide BodyOk, AvailOk, SlotsOk, EditsOk, IsTee, IsLoad, IsPure;
    PlanHas(p);
    if Pending(p, 0, 0) {
      assert EditOk(p, 0);
      if b, g :| IsTee(p, 0, b, g) {
        TeeIs(p, 0, b, g);
        CapturesIs(p, b, g);
        var k := GenInside(p, b, g);
        BlockSpan(p, b);
      } else {
        var b, g :| IsLoad(p, 0, b, g);
        LoadIs(p, 0, b, g);
        ReloadsIs(p, b, g);
        var k := GenInside(p, b, g);
        BlockSpan(p, b);
      }
    }
  }

  /** Both bodies are over in the same way, halted, escaped or at the end of their code, in alike states. */
  ghost predicate EndAlike(code: seq<Byte>, out: seq<Byte>, x: Config, y: Config) {
    && (x.Halted? <==> y.Halted?) && (x.Escaped? <==> y.Escaped?) && (x.At? ==> x.ip == |code| && y.ip == |out|)
    && y.state.stack == x.state.stack && y.state.world == x.state.world && x.state.locals <= y.state.locals
  }

  lemma FollowedAlike(p: Plan, env: Env, out: seq<Byte>, x: Config, y: Config)
    requires Concluded(Following(p, env), Alike, p.code, p.es, out, x, y)
    ensures EndAlike(p.code, out, x, y)
  {
    hide Pending, Ahead, Behind;
  }

  /** A body in which available computations are replaced by loads of captured values, as the plan says, gives the
      results the original gives, whatever the extra locals held, if every reload has the value of the captures that
      can reach it. */
  lemma ReuseKeepsResults(sem: Semantics, land: Land, p: Plan, leaf: seq<Byte> -> int,
                          eval: (Byte, seq<int>) -> Option<int>, out: seq<Byte>, a: State, extra: seq<int>, n: nat)
                          returns (b: nat)
    requires PlanOk(p) && Sensible(sem) && Standard(sem, Env(a.locals, leaf, eval)) && |a.locals| == |p.stable|
    requires |extra| == p.count && Agree(p, Env(a.locals, leaf, eval))
    requires Splicer.Faithful(p.code, [], p.es, p.s, out, [])
    requires Finished(p.code, Run(sem, land, p.code, [], Config.At(0, a), n))
    ensures EndAlike(p.code, out, Run(sem, land, p.code, [], Config.At(0, a), n),
                     Run(sem, land, out, [], Config.At(0, Plus(a, extra)), b))
  {
    hide PlanOk, Sensible, Standard, Layout, Splicer.Faithful, Run, Apart, EditsAligned, ClearTargets, StraightTexts,
         LocallyRight, Carries, BodyOk, AvailOk, SlotsOk, EditsOk, EditOk, Concluded, EndAlike, Agree;
    var env := Env(a.locals, leaf, eval);
    PlanHas(p);
    AllRight(sem, land, p, env, Alike);
    TargetsClear(sem, p, env);
    TextsStraight(p);
    StartCarries(p, env, a, extra);
    b := ResultsPreserved(sem, land, Following(p, env), Alike, p.code, [], p.es, p.s, seq(|p.es|, _ => [0, 2]), out, [],
        a, Plus(a, extra), n);
    FollowedAlike(p, env, out, Run(sem, land, p.code, [], Config.At(0, a), n),
                  Run(sem, land, out, [], Config.At(0, Plus(a, extra)), b));
  }

  /** And it gives no others: what the new body ends with, the original ends with. */
  lemma ReuseAddsNoResults(sem: Semantics, land: Land, p: Plan, leaf: seq<Byte> -> int,
                           eval: (Byte, seq<int>) -> Option<int>, out: seq<Byte>, a: State, extra: seq<int>, m: nat)
                           returns (n: nat)
    requires PlanOk(p) && Sensible(sem) && Standard(sem, Env(a.locals, leaf, eval)) && |a.locals| == |p.stable|
    requires |extra| == p.count && Agree(p, Env(a.locals, leaf, eval))
    requires Splicer.Faithful(p.code, [], p.es, p.s, out, [])
    requires Finished(out, Run(sem, land, out, [], Config.At(0, Plus(a, extra)), m))
    ensures EndAlike(p.code, out, Run(sem, land, p.code, [], Config.At(0, a), n),
                     Run(sem, land, out, [], Config.At(0, Plus(a, extra)), m))
  {
    hide PlanOk, Sensible, Standard, Layout, Splicer.Faithful, Run, Apart, EditsAligned, ClearTargets, StraightTexts,
         LocallyRight, Carries, BodyOk, AvailOk, SlotsOk, EditsOk, EditOk, Concluded, EndAlike, Agree;
    var env := Env(a.locals, leaf, eval);
    PlanHas(p);
    AllRight(sem, land, p, env, Alike);
    TargetsClear(sem, p, env);
    TextsStraight(p);
    StartCarries(p, env, a, extra);
    n := ResultsReflected(sem, land, Following(p, env), Alike, p.code, [], p.es, p.s, seq(|p.es|, _ => [0, 2]), out, [],
        a, Plus(a, extra), m);
    FollowedAlike(p, env, out, Run(sem, land, p.code, [], Config.At(0, a), n),
                  Run(sem, land, out, [], Config.At(0, Plus(a, extra)), m));
  }

  ghost predicate Forth(sem: Semantics, land: Land, code: seq<Byte>, out: seq<Byte>, a: State, extra: seq<int>) {
    forall n: nat :: Finished(code, Run(sem, land, code, [], Config.At(0, a), n)) ==>
      exists m: nat :: Ends(sem, land, code, out, a, extra, n, m)
  }

  ghost predicate Back(sem: Semantics, land: Land, code: seq<Byte>, out: seq<Byte>, a: State, extra: seq<int>) {
    forall m: nat :: Finished(out, Run(sem, land, out, [], Config.At(0, Plus(a, extra)), m)) ==>
      exists n: nat :: Ends(sem, land, code, out, a, extra, n, m)
  }

  /** After n and m steps both have ended alike. */
  ghost predicate Ends(sem: Semantics, land: Land, code: seq<Byte>, out: seq<Byte>, a: State, extra: seq<int>, n: nat,
                       m: nat) {
    EndAlike(code, out, Run(sem, land, code, [], Config.At(0, a), n),
             Run(sem, land, out, [], Config.At(0, Plus(a, extra)), m))
  }
}
