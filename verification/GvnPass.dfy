/** The whole pass on one body: numbering, availability, elimination. */
module GvnPass {
  import opened Bytecode
  import opened Stacks
  import opened Numbering
  import opened Terms
  import opened GroupValues
  import opened Reuse
  import opened Orientation
  import opened OrientedReuse
  import opened Redundancies
  import Edits
  import Splicer
  import EditRuns
  import Compaction
  import Blocks
  import Numberers
  import Avail
  import Gvn

  /** No edge leads to the entry block, and some edge to every other. */
  ghost predicate OneEntry(blocks: seq<Blocks.Block>) {
    forall b :: 0 <= b < |blocks| ==> (blocks[b].preds == {} <==> b == 0)
  }

  ghost predicate PredsInside(blocks: seq<Blocks.Block>) {
    forall b, x :: 0 <= b < |blocks| && x in blocks[b].preds ==> 0 <= x < |blocks|
  }

  lemma CfgPreds(code: seq<Byte>, s: seq<int>, blocks: seq<Blocks.Block>)
    requires Layout(code, s) && Blocks.IsCfg(code, [], s, blocks)
    ensures PredsInside(blocks) && |blocks| > 0
  {
    hide Blocks.Leader, Layout;
    var starts :| Blocks.CfgBy(code, [], s, blocks, starts);
  }

  /** The blocks lie side by side on instructions. */
  lemma CfgTiled(code: seq<Byte>, s: seq<int>, blocks: seq<Blocks.Block>)
    requires Layout(code, s) && Blocks.Targeted(code, [], s) && Blocks.IsCfg(code, [], s, blocks)
    ensures Numberers.Tiled(s, blocks, |code|)
  {
    hide Blocks.Leader, Layout, Blocks.Flows, Blocks.Targeted, Blocks.EndOf;
    var starts :| Blocks.CfgBy(code, [], s, blocks, starts);
    Blocks.EndsBefore(starts, |code|);
    forall j | 0 <= j < |blocks|
      ensures blocks[j].start in s && blocks[j].end in s && 0 <= blocks[j].start <= blocks[j].end <= |code|
    {
      Blocks.BlockAligned(code, [], s, starts, j);
      Blocks.EndsInside(code, [], s, starts, j);
      StartBeforeEnd(code, s, blocks, starts, j);
    }
  }

  lemma StartBeforeEnd(code: seq<Byte>, s: seq<int>, blocks: seq<Blocks.Block>, starts: seq<int>, j: int)
    requires Layout(code, s) && Blocks.CfgBy(code, [], s, blocks, starts) && 0 <= j < |starts|
    ensures starts[j] <= Blocks.EndOf(starts, |code|, j)
  {
    hide Blocks.Flows, Blocks.Leads, Blocks.Bounds;
    assert starts[j] in starts;
    assert Blocks.Leader(code, [], s, starts[j]);
  }

  /** The elements of a set of block numbers, in order. */
  method Listed(xs: set<int>, n: nat) returns (r: seq<int>)
    requires forall x :: x in xs ==> 0 <= x < n
    ensures forall x :: x in r <==> x in xs
  {
    r := [];
    for x := 0 to n
      invariant forall y :: y in r <==> y in xs && y < x
    {
      if x in xs {
        r := r + [x];
      }
    }
  }

  method PredLists(blocks: seq<Blocks.Block>) returns (preds: seq<seq<int>>)
    requires PredsInside(blocks)
    ensures |preds| == |blocks| && forall b :: 0 <= b < |blocks| ==> forall x :: x in preds[b] <==> x in blocks[b].preds
  {
    preds := [];
    for b := 0 to |blocks|
      invariant |preds| == b && forall c :: 0 <= c < b ==> forall x :: x in preds[c] <==> x in blocks[c].preds
    {
      var ps := Listed(blocks[b].preds, |blocks|);
      preds := preds + [ps];
    }
  }

  ghost predicate PredsAre(blocks: seq<Blocks.Block>, preds: seq<seq<int>>) {
    |preds| == |blocks| && forall b :: 0 <= b < |blocks| ==> forall x :: x in preds[b] <==> x in blocks[b].preds
  }

  function GenSets(gen: Gen): seq<set<int>> {
    seq(|gen|, b requires 0 <= b < |gen| => gen[b].Keys)
  }

  lemma FlowOfBlocks(blocks: seq<Blocks.Block>, preds: seq<seq<int>>, gen: Gen)
    requires PredsAre(blocks, preds) && PredsInside(blocks) && OneEntry(blocks) && |gen| == |blocks| > 0
    ensures Avail.Flow(preds, GenSets(gen)) && Avail.OneEntry(preds)
  {
    forall b, i | 0 <= b < |preds| && 0 <= i < |preds[b]|
      ensures 0 <= preds[b][i] < |preds|
    {
      assert preds[b][i] in preds[b];
    }
    forall b | 0 <= b < |preds|
      ensures preds[b] == [] <==> b == 0
    {
      EmptyAlike(preds[b], blocks[b].preds);
    }
  }

  lemma EmptyAlike(xs: seq<int>, s: set<int>)
    requires forall x :: x in xs <==> x in s
    ensures xs == [] <==> s == {}
  {
    if xs == [] {
      assert forall x :: x in s ==> x in xs;
      assert s == {};
    } else {
      var x: int := xs[0];
      assert x in xs;
      assert x in s;
    }
  }

  /** What the solver finds is what the plan needs. */
  lemma Solved(p: Plan, preds: seq<seq<int>>, out: seq<set<int>>)
    requires PredsAre(p.blocks, preds) && |p.gen| == |p.blocks| == |p.avail| == |out| > 0
    requires Avail.Flow(preds, GenSets(p.gen)) && Avail.OneEntry(preds) && Avail.Solution(preds, GenSets(p.gen), out)
    requires forall b :: 0 <= b < |preds| ==> p.avail[b] == Avail.Meet(out, preds[b])
    ensures AvailOk(p)
  {
    hide Avail.Solution, Avail.Meet, Avail.OneEntry, Avail.Flow;
    Avail.EntryMeetsNothing(preds, GenSets(p.gen), out);
    forall j, i, g | 0 <= j < |p.blocks| && 0 <= i < |p.blocks| && j in p.blocks[i].preds && g in p.avail[i]
      ensures g in p.avail[j] || g in p.gen[j]
    {
      Avail.StepBack(preds, GenSets(p.gen), out, i, j, g);
    }
  }

  /** No instruction names a local past the declared ones. */
  ghost predicate LocalsNamed(code: seq<Byte>, s: seq<int>, n: nat)
    requires Layout(code, s)
  {
    forall k :: 0 <= k < |s| - 1 && IsLocalOp(code[s[k]]) ==> Operand(code, s[k]) < n
  }

  /** What is available at a block is exactly what every path to it has computed. */
  ghost predicate AvailExact(p: Plan, preds: seq<seq<int>>) {
    && PredsAre(p.blocks, preds) && |p.avail| == |p.blocks| && Avail.Flow(preds, GenSets(p.gen))
    && forall b, g :: 0 <= b < |preds| && g in Avail.Universe(GenSets(p.gen)) ==>
         (g in p.avail[b] <==> Avail.OnEveryPath(preds, GenSets(p.gen), b, g))
  }

  lemma ExactlyAvailable(p: Plan, preds: seq<seq<int>>, out: seq<set<int>>)
    requires PredsAre(p.blocks, preds) && |p.gen| == |p.blocks| == |p.avail| == |out| > 0
    requires Avail.Flow(preds, GenSets(p.gen)) && Avail.OneEntry(preds) && Avail.Greatest(preds, GenSets(p.gen), out)
    requires forall b :: 0 <= b < |preds| ==> p.avail[b] == Avail.Meet(out, preds[b])
    ensures AvailExact(p, preds)
  {
    hide Avail.Meet, Avail.OneEntry, Avail.Flow, Avail.OnEveryPath, Avail.Universe, Avail.Solution, Avail.Below;
    forall b, g | 0 <= b < |preds| && g in Avail.Universe(GenSets(p.gen))
      ensures g in p.avail[b] <==> Avail.OnEveryPath(preds, GenSets(p.gen), b, g)
    {
      Avail.AvailableIff(preds, GenSets(p.gen), out, b, g);
    }
  }

  /** What the pass works with: the body numbered, with exactly what is available where, the redundant computations and
      the captures, and the ranges it chose to replace. */
  ghost predicate Analysed(p: Plan, preds: seq<seq<int>>, red: map<int, Redundancy>, defs: map<int, seq<int>>,
                           chosen: seq<Redundancy>) {
    BodyOk(p) && AvailOk(p) && AvailExact(p, preds) && RedsOk(p, red) && DefsOk(p, defs) && Gvn.Chosen(red, chosen)
  }

  ghost predicate OrientedIn(p: Plan, b: int, g: int, c: int)
    requires Layout(p.code, p.s)
  {
    Reloads(p, b, g) && Captures(p, c, g) && Supplies(p, g, c, b) ==> SameWay(MadeTerm(p, c, g), MadeTerm(p, b, g))
  }

  /** In the numbered body, no computation that can be reloaded has its operands the other way round from one that is
      captured for it, unless no kind shows it. */
  ghost predicate OrientedBody(p: Plan)
    requires Layout(p.code, p.s)
  {
    forall b, g, c :: OrientedIn(p, b, g, c)
  }

  lemma SameMade(p: Plan, q: Plan, b: int, g: int)
    requires Gvn.Amends(p, q) && Layout(p.code, p.s) && Made(p, b, g)
    ensures MadeTerm(q, b, g) == MadeTerm(p, b, g)
  {
    hide TermsAfter, Layout;
  }

  lemma SameSupplies(p: Plan, q: Plan, g: int, c: int, b: int)
    requires Gvn.Amends(p, q) && Supplies(q, g, c, b)
    ensures Supplies(p, g, c, b)
  {
    var path :| CarriesTo(q, g, c, b, path);
    assert CarriesTo(p, g, c, b, path);
  }

  /** What can be seen of the numbered body decides what the pass may replace. */
  lemma BodyOriented(p: Plan, q: Plan)
    requires Gvn.Amends(p, q) && BodyOk(p) && OrientedBody(p)
    ensures BodyOk(q) && Oriented(q)
  {
    hide BodyOk, MadeTerm, Layout, SameWay, Supplies, IsLoad;
    Shape(p);
    Gvn.SameBody(p, q);
    forall i, b, g, c
      ensures OrientedAt(q, i, b, g, c)
    {
      if Pair(q, i, b, g, c) {
        LoadIs(q, i, b, g);
        SameSupplies(p, q, g, c, b);
        assert OrientedIn(p, b, g, c);
        SameMade(p, q, b, g);
        SameMade(p, q, c, g);
      }
    }
  }

  /** Runs the pass. None leaves the body alone: there is no local to be had, no chosen range can be replaced, or a
      branch would no longer reach. */
  method Run(code: seq<Byte>, locals: seq<Type>, blocks: seq<Blocks.Block>, allocate: bool, ghost s: seq<int>)
    returns (r: Option<(seq<Byte>, seq<Type>)>, ghost p: Plan, ghost q: Plan, ghost preds: seq<seq<int>>,
             ghost red: map<int, Redundancy>, ghost defs: map<int, seq<int>>, ghost chosen: seq<Redundancy>)
    requires Layout(code, s) && Blocks.Targeted(code, [], s) && Blocks.InRange(code, s, |s| - 1)
    requires Blocks.TablesEndBlocks(code, [], s)
    requires Blocks.IsCfg(code, [], s, blocks) && OneEntry(blocks) && LocalsNamed(code, s, |locals|)
    ensures p.code == q.code == code && p.s == q.s == s && p.blocks == blocks && |p.stable| == |q.stable| == |locals|
    ensures Analysed(p, preds, red, defs, chosen) && Gvn.Amends(p, q)
    ensures forall slot :: 0 <= slot < |locals| ==> (p.stable[slot] <==> NeverAssigned(code, s, |s| - 1, slot))
    ensures Numberers.NamedOnce(p.names) && |p.after| == |s| - 1 && forall b :: 0 <= b < |blocks| ==>
      Numberers.Complete(code, s, blocks, p.after, p.gen, b) && Numberers.Thorough(code, s, blocks, p.after, b)
    ensures r.Some? && Oriented(q) ==> SameBehaviour(q, r.value.0)
    ensures r.Some? ==> PlanOk(q) && Splicer.Faithful(code, [], q.es, s, r.value.0, []) && |r.value.1| == q.count > 0
    ensures r.Some? ==> allocate && Gvn.SomeDone(p, q.slots, chosen, q.es)
    ensures allocate ==> Gvn.Treated(p, q.slots, chosen, defs, q.count, q.es, |chosen|)
    ensures Gvn.Tight(q.slots, chosen, q.count, |chosen|)
    ensures allocate && !Gvn.AloneTo(p, chosen, defs, q.count, |chosen|) ==> PlanOk(q)
    ensures r.None? ==>
      !allocate || Gvn.AloneTo(p, chosen, defs, q.count, |chosen|) || !Edits.AllFit(code, q.es, s, |s| - 1)
  {
    hide Layout, Blocks.Targeted, Blocks.InRange, Blocks.TablesEndBlocks, Blocks.IsCfg, OneEntry, LocalsNamed, Numbered,
         Avail.Flow, Avail.OneEntry, Avail.Solution, Avail.Meet, Avail.Universe, PredsInside, Splicer.Faithful, PlanOk,
         BodyOk, AvailOk, RedsOk, DefsOk, NeverAssigned, AvailExact, SameBehaviour, Gvn.Chosen, Gvn.SomeDone,
         Gvn.Treated, Gvn.AloneTo, Edits.AllFit, Numberers.Complete, Avail.Below, Avail.Entered,
         Numberers.Thorough, Numberers.NamedOnce, Oriented, Gvn.Tight;
    CfgTiled(code, s, blocks);
    CfgPreds(code, s, blocks);
    var stable := Stable(code, |locals|, s);
    var gen;
    ghost var names, after;
    gen, names, after := Numberers.Number(code, locals, stable, blocks, s);
    NumberedSizes(code, s, blocks, stable, names, after, gen);
    var edges := PredLists(blocks);
    preds := edges;
    FlowOfBlocks(blocks, edges, gen);
    EntryFirst(edges);
    var avail;
    ghost var out;
    avail, out := Avail.Solve(edges, GenSets(gen));
    p := Plan(code, s, blocks, stable, names, after, gen, avail, map[], 0, []);
    assert BodyOk(p) by { MakeBody(p); }
    Solved(p, edges, out);
    ExactlyAvailable(p, edges, out);
    var found, places := Available(gen, avail, p);
    red, defs := found, places;
    if |found| == 0 {
      NothingChosen(red, p, defs);
      q, chosen := p, [];
      return None, p, q, preds, red, defs, chosen;
    }
    r, q, chosen := Gvn.Eliminate(code, |locals|, found, places, allocate, p);
    if r.Some? && Oriented(q) {
      PlanBehaves(q, r.value.0);
    }
  }

  lemma EntryFirst(preds: seq<seq<int>>)
    requires Avail.OneEntry(preds)
    ensures Avail.Entered(preds)
  {
  }

  lemma NothingChosen(red: map<int, Redundancy>, p: Plan, defs: map<int, seq<int>>)
    requires |red| == 0
    ensures Gvn.Chosen(red, []) && Gvn.Treated(p, p.slots, [], defs, p.count, p.es, 0)
    ensures Gvn.AloneTo(p, [], defs, p.count, 0)
    ensures p.slots == map[] && p.count == 0 ==> Gvn.Tight(p.slots, [], p.count, 0)
  {
    assert red == map[];
  }

  lemma NumberedSizes(code: seq<Byte>, s: seq<int>, blocks: seq<Blocks.Block>, stable: seq<bool>, names: seq<Key>,
                      after: seq<Option<seq<GSlot>>>, gen: Gen)
    requires Layout(code, s) && Numbered(code, s, blocks, stable, names, after, gen)
    ensures |gen| == |blocks| && |after| == |s| - 1
  {
  }

  lemma MakeBody(p: Plan)
    requires Layout(p.code, p.s) && Blocks.Targeted(p.code, [], p.s) && Blocks.InRange(p.code, p.s, |p.s| - 1)
    requires Blocks.TablesEndBlocks(p.code, [], p.s) && Blocks.IsCfg(p.code, [], p.s, p.blocks)
    requires LocalsNamed(p.code, p.s, |p.stable|)
    requires Numbered(p.code, p.s, p.blocks, p.stable, p.names, p.after, p.gen)
    requires forall slot :: 0 <= slot < |p.stable| ==> (p.stable[slot] <==> NeverAssigned(p.code, p.s, |p.s| - 1, slot))
    ensures BodyOk(p)
  {
    hide Layout, Blocks.Targeted, Blocks.InRange, Blocks.TablesEndBlocks, Blocks.IsCfg, Numbered, NeverAssigned,
         Operand;
    Blocks.SlotsOf(p.code, p.s);
  }
}
