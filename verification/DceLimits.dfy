/** Where dead-code elimination goes wrong: two bodies that the verifier accepts. */
module DceLimits {
  import opened Bytecode
  import opened Blocks
  import opened Compaction
  import opened Dce
  import opened DceRuns
  import opened DcePass
  import Checker
  import Dataflow
  import Stacks
  import Verifier
  import Verify
  import VerifyLimits

  const LEAD: seq<Byte> := [NOP, BR, 1, 0, RETURN, BR, 252, 255]

  ghost const LEAD_STARTS: seq<int> := [0, 1, 4, 5, 8]

  ghost const LEAD_NODES: seq<Checker.Node> :=
      [Checker.Node(0, 4, {2}), Checker.Node(4, 5, {}), Checker.Node(5, 8, {1})]

  lemma LeadReads()
    ensures Width(LEAD, 0) == 1 && Width(LEAD, 1) == 3 && Width(LEAD, 4) == 1 && Width(LEAD, 5) == 3
    ensures Arms(LEAD, 0) == 0 && Arms(LEAD, 1) == 1 && Arms(LEAD, 4) == 0 && Arms(LEAD, 5) == 1
    ensures Target(LEAD, 1, 0) == 5 && Target(LEAD, 5, 0) == 4
  {
  }

  lemma LeadLayout()
    ensures Layout(LEAD, LEAD_STARTS)
  {
    hide Width;
    LeadReads();
  }

  lemma LeadLeaders()
    ensures Layout(LEAD, LEAD_STARTS)
    ensures forall x :: Leader(LEAD, [], LEAD_STARTS, x) <==> x == 0 || x == 4 || x == 5
  {
    hide Width, Arms, Target, Layout;
    LeadReads();
    LeadLayout();
    var s := LEAD_STARTS;
    forall x
      ensures Leads(LEAD, s, 4, x) <==> x == 4 || x == 5 || x == 8
    {
      assert EndsBlock(LEAD[s[1]]) && s[1 + 1] == 4;
      assert EndsBlock(LEAD[s[2]]) && s[2 + 1] == 5;
      assert EndsBlock(LEAD[s[3]]) && s[3 + 1] == 8;
      assert !EndsBlock(LEAD[s[0]]);
    }
  }

  lemma LeadLasts()
    ensures Last(LEAD, 0, 4) == 1 && Last(LEAD, 4, 5) == 4 && Last(LEAD, 5, 8) == 5
  {
    hide Width;
    LeadReads();
    assert Last(LEAD, 1, 4) == 1;
  }

  lemma LeadFlows()
    ensures Flows(LEAD, [0, 4, 5], 0, 2) && Flows(LEAD, [0, 4, 5], 2, 1)
  {
    hide Width, Arms, Target, Last;
    LeadReads();
    LeadLasts();
    assert Target(LEAD, 1, 0) == 5 && Target(LEAD, 5, 0) == 4;
  }

  lemma ThreeStarts(starts: seq<int>)
    requires |starts| > 0 && Rising(starts) && forall y :: y in starts <==> y == 0 || y == 4 || y == 5
    ensures starts == [0, 4, 5]
  {
    var want := [0, 4, 5];
    OrderUnique(starts, want);
  }

  /** Nothing in the body is dead. */
  lemma LeadLives(blocks: seq<Block>)
    requires Layout(LEAD, LEAD_STARTS) && IsCfg(LEAD, [], LEAD_STARTS, blocks)
    ensures DeadBytes(LEAD, blocks, []) == {}
  {
    hide Leader, Flows, Layout;
    LeadLeaders();
    LeadFlows();
    var starts :| CfgBy(LEAD, [], LEAD_STARTS, blocks, starts);
    ThreeStarts(starts);
    assert 0 in blocks[2].preds && 2 in blocks[1].preds;
    assert forall j :: !DeadBlock(blocks, [], j);
  }

  /** With a deleted first instruction the relinker can misdirect the first branch: here it accepts the body,
      yet reads the target 5 as 4, where another survivor stands. */
  lemma MisreadLead(blocks: seq<Block>)
    ensures Layout(LEAD, LEAD_STARTS) && Targeted(LEAD, [], LEAD_STARTS) && InRange(LEAD, LEAD_STARTS, 4)
    ensures IsCfg(LEAD, [], LEAD_STARTS, blocks) ==>
              var dead := DeadBytes(LEAD, blocks, []);
              dead == {} && AllValid(LEAD, LEAD_STARTS, dead, false, 4) && !LeadHarmless(LEAD, LEAD_STARTS, dead)
  {
    hide Width, Target, Arms, Layout, Pos, IsCfg, DeadAt;
    var s := LEAD_STARTS;
    LeadReads();
    LeadLayout();
    assert 4 in s && 5 in s;
    assert !Kept(LEAD, s, {}, 0) && Kept(LEAD, s, {}, 1) && Kept(LEAD, s, {}, 2);
    assert NextKept(LEAD, s, {}, 0) == 1;
    assert Seen(LEAD, s, {}, 1, 0) == 4 && Seen(LEAD, s, {}, 3, 0) == 4;
    assert 4 <= s[2] < 5;
    assert !LeadHarmless(LEAD, s, {});
    if IsCfg(LEAD, [], s, blocks) {
      LeadLives(blocks);
    }
  }

  lemma LeadNodes()
    ensures Layout(LEAD, LEAD_STARTS) && Checker.IsCfg(LEAD, [], LEAD_STARTS, LEAD_NODES)
  {
    hide Width, Arms, Target, Layout, Last, Checker.Leader, Checker.Flows;
    LeadReads();
    LeadLayout();
    LeadLasts();
    CheckerLeaders();
    CheckerFlows();
    assert Checker.NodesBy(LEAD, [], LEAD_STARTS, LEAD_NODES, [0, 4, 5]);
  }

  lemma CheckerLeaders()
    ensures Layout(LEAD, LEAD_STARTS)
    ensures forall x :: Checker.Leader(LEAD, [], LEAD_STARTS, x) <==> x == 0 || x == 4 || x == 5
  {
    hide Width, Arms, Target, Layout;
    LeadReads();
    LeadLayout();
    var s := LEAD_STARTS;
    forall x
      ensures Checker.Leads(LEAD, s, 4, x) <==> x == 4 || x == 5 || x == 8
    {
      assert Checker.Splits(LEAD[s[1]]) && s[1 + 1] == 4;
      assert Checker.Splits(LEAD[s[2]]) && s[2 + 1] == 5;
      assert Checker.Splits(LEAD[s[3]]) && s[3 + 1] == 8;
      assert !Checker.Splits(LEAD[s[0]]);
    }
  }

  lemma CheckerFlows()
    ensures forall j, i :: Checker.Flows(LEAD, [0, 4, 5], j, i) <==> (j == 0 && i == 2) || (j == 2 && i == 1)
  {
    hide Width, Arms, Target, Last;
    LeadReads();
    LeadLasts();
    assert Target(LEAD, 1, 0) == 5 && Target(LEAD, 5, 0) == 4;
  }

  lemma LeadSettles(cx: Stacks.Context)
    requires cx.results == 0
    ensures Dataflow.PostFixpoint(cx, LEAD, [], LEAD_NODES, [Some([]), Some([]), Some([])])
  {
    hide Width, Stacks.StepOf, Stacks.InBounds;
    LeadReads();
    LeadSteps(cx);
    assert Stacks.ExecOf(cx, LEAD, 4, 4, []) == Stacks.Continue([]);
    assert Stacks.ExecOf(cx, LEAD, 1, 4, []) == Stacks.Continue([]);
    assert Stacks.ExecOf(cx, LEAD, 0, 4, []) == Stacks.Continue([]);
    assert Stacks.ExecOf(cx, LEAD, 4, 5, []) == Stacks.Continue([]);
    assert Stacks.ExecOf(cx, LEAD, 8, 8, []) == Stacks.Continue([]);
    assert Stacks.ExecOf(cx, LEAD, 5, 8, []) == Stacks.Continue([]);
    assert Stacks.Below([], []);
  }

  lemma LeadSteps(cx: Stacks.Context)
    requires cx.results == 0
    ensures forall ip ::
      ip in {0, 1, 4, 5} ==> Stacks.InBounds(cx, LEAD, ip) && Stacks.StepOf(cx, LEAD, ip, []) == Stacks.Continue([])
  {
    hide Stacks.Operand, Stacks.CallEffect, Stacks.AcceptsType, Stacks.Fixed;
  }

  /** The verifier accepts the body whose first branch is misdirected. */
  method LeadAccepted(cx: Stacks.Context) returns (r: Verify.Outcome)
    requires cx.results == 0
    ensures r == Verify.Accepted
  {
    hide Width, Arms, Target, Layout, Stacks.InBounds, Checker.IsCfg, Dataflow.PostFixpoint, Last, Stacks.StepOf;
    LeadReads();
    LeadLayout();
    LeadLasts();
    LeadNodes();
    LeadSteps(cx);
    LeadSettles(cx);
    assert 4 in LEAD_STARTS && 5 in LEAD_STARTS;
    r := VerifyLimits.Accepts(cx, LEAD, LEAD_STARTS, LEAD_NODES, [Some([]), Some([]), Some([])]);
  }

  /** A body with a jump table inside a block, which alone leads to the last one. */
  ghost const TABLE: seq<Byte> := VerifyLimits.Table(NOP)

  lemma TableLeaders()
    ensures Layout(TABLE, VerifyLimits.TABLE_STARTS)
    ensures forall x :: Leader(TABLE, [], VerifyLimits.TABLE_STARTS, x) <==> x == 0 || x == 11
  {
    hide Width, Arms, Target, Layout, VerifyLimits.Table;
    var s := VerifyLimits.TABLE_STARTS;
    VerifyLimits.TableReads(NOP);
    TableLayout();
    forall x
      ensures Leads(TABLE, s, 6, x) <==> x == 11 || x == 13
    {
      assert EndsBlock(TABLE[s[3]]) && s[3 + 1] == 11;
      assert EndsBlock(TABLE[s[5]]) && s[5 + 1] == 13;
      assert !EndsBlock(TABLE[s[0]]) && !EndsBlock(TABLE[s[1]]) && !EndsBlock(TABLE[s[2]]) && !EndsBlock(TABLE[s[4]]);
    }
  }

  lemma TableLayout()
    ensures Layout(TABLE, VerifyLimits.TABLE_STARTS)
  {
    hide Width, VerifyLimits.Table;
    VerifyLimits.TableReads(NOP);
  }

  /** The table's target is a dead block: what a live instruction jumps to is deleted. */
  lemma TableInsideBlock(blocks: seq<Block>)
    ensures var s := VerifyLimits.TABLE_STARTS;
            && Layout(TABLE, s) && Targeted(TABLE, [], s) && InRange(TABLE, s, 6)
            && (IsCfg(TABLE, [], s, blocks) ==>
                  5 !in DeadBytes(TABLE, blocks, []) && 11 in DeadBytes(TABLE, blocks, []) &&
                      !TargetsKept(TABLE, [], s, blocks)
                  && !TablesSpared(TABLE, [], s, blocks))
  {
    hide Leader, DeadAt, Flows, Layout, Width, Arms, Target, VerifyLimits.Table;
    var s := VerifyLimits.TABLE_STARTS;
    VerifyLimits.TableReads(NOP);
    TableLeaders();
    assert 11 in s;
    assert Targeted(TABLE, [], s) && InRange(TABLE, s, 6);
    if IsCfg(TABLE, [], s, blocks) {
      var starts :| CfgBy(TABLE, [], s, blocks, starts);
      OrderUnique(starts, [0, 11]);
      BlockSpan(TABLE, starts, blocks, 0);
      BlockSpan(TABLE, starts, blocks, 1);
      TableFlows();
      NoPreds(TABLE, starts, blocks, 1);
      DeadHere(blocks, 1, 11);
      FirstLives(TABLE, blocks, s, 5);
      assert s[1] == 5;
      TargetsKeptIff(TABLE, [], s, blocks);
    }
  }

  /** The entry block is never dead. */
  lemma FirstLives(c: seq<Byte>, blocks: seq<Block>, s: seq<int>, x: int)
    requires Layout(c, s) && IsCfg(c, [], s, blocks) && InBlock(blocks, 0, x)
    ensures x !in DeadBytes(c, blocks, [])
  {
    hide IsCfg, DeadAt;
    assert !DeadBlock(blocks, [], 0);
    LiveIsKept(c, [], s, blocks, x);
  }

  lemma NoPreds(c: seq<Byte>, starts: seq<int>, blocks: seq<Block>, i: int)
    requires LinkedTo(c, starts, |starts|, {}, blocks) && 0 <= i < |blocks| && forall j :: !Flows(c, starts, j, i)
    ensures blocks[i].preds == {}
  {
    hide Flows;
    forall j
      ensures j !in blocks[i].preds
    {
      assert !HasEdge(c, starts, |starts|, {}, j, i);
    }
  }

  lemma DeadHere(blocks: seq<Block>, j: int, x: int)
    requires InBlock(blocks, j, x) && 0 < j && blocks[j].preds == {}
    ensures DeadAt(blocks, [], |blocks|, x)
  {
    assert DeadBlock(blocks, [], j);
  }

  lemma TableFlows()
    ensures forall j :: !Flows(TABLE, [0, 11], j, 1)
  {
    hide Width, Arms, Target, VerifyLimits.Table;
    VerifyLimits.TableReads(NOP);
    assert Last(TABLE, 10, 11) == 10;
    assert Last(TABLE, 9, 11) == 10;
    assert Last(TABLE, 5, 11) == 10;
    assert Last(TABLE, 0, 11) == 10;
    assert Last(TABLE, 12, 13) == 12;
    assert Last(TABLE, 11, 13) == 12;
  }
}
