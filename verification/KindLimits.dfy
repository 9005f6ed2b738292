/** Where the verifier's look at kinds stops: two bodies that it accepts and whose runs misread an operand. */
module KindLimits {
  import opened Bytecode
  import opened Stacks
  import opened Verifier
  import opened Checker
  import opened Dataflow
  import opened Heights
  import opened KindRuns
  import opened Opcodes
  import opened VerifyLimits
  import Blocks
  import opened Verify

  /** A 64-bit integer goes into a local declared to hold a 32-bit one, which is then read as one. */
  const STORED: seq<Byte> := [73, 0, 0, 0, 0, 0, 0, 0, 0, 20, 0, 19, 0, 55, 2, 10]

  /** A 64-bit integer decides a choice. */
  const CHOSEN: seq<Byte> := [73, 0, 0, 0, 0, 0, 0, 0, 0, 3, 3, 8, 2, 10]

  ghost const STORED_STARTS: seq<int> := [0, 9, 11, 13, 14, 15, 16]

  ghost const CHOSEN_STARTS: seq<int> := [0, 9, 10, 11, 12, 13, 14]

  /** A body that takes no branch, and ends in a return. */
  ghost predicate Straight(code: seq<Byte>, s: seq<int>) {
    && Layout(code, s) && |s| > 1
    && (forall k :: 0 <= k < |s| - 1 ==> 0 <= s[k] < |code| && code[s[k]] !in {1, 5, 6, 7, 205})
    && forall k :: 0 <= k < |s| - 1 ==> (code[s[k]] == RETURN <==> k == |s| - 2)
  }

  lemma StoredWidths()
    ensures var c := STORED;
            && Width(c, 0) == 9 && Width(c, 9) == 2 && Width(c, 11) == 2 && Width(c, 13) == 1 && Width(c, 14) == 1
            && Width(c, 15) == 1
    ensures Operand(STORED, 9) == 0 && Operand(STORED, 11) == 0
  {
  }

  lemma StoredReads()
    ensures Straight(STORED, STORED_STARTS)
  {
    hide Width, Operand;
    StoredWidths();
    assert Layout(STORED, STORED_STARTS);
  }

  lemma ChosenWidths()
    ensures var c := CHOSEN;
            && Width(c, 0) == 9 && Width(c, 9) == 1 && Width(c, 10) == 1 && Width(c, 11) == 1 && Width(c, 12) == 1
            && Width(c, 13) == 1
  {
  }

  lemma ChosenReads()
    ensures Straight(CHOSEN, CHOSEN_STARTS)
  {
    hide Width;
    ChosenWidths();
    assert Layout(CHOSEN, CHOSEN_STARTS);
  }

  lemma ArmsNone(code: seq<Byte>, s: seq<int>)
    requires Straight(code, s)
    ensures forall k :: 0 <= k < |s| - 1 ==> Arms(code, s[k]) == 0
  {
    hide Layout;
  }

  lemma StraightLeaders(code: seq<Byte>, s: seq<int>)
    requires Straight(code, s)
    ensures forall x :: Leader(code, [], s, x) <==> x == 0
  {
    hide Leads, Layout;
    forall x
      ensures Leader(code, [], s, x) <==> x == 0
    {
      OnlyEnd(code, s, x);
    }
  }

  lemma OnlyEnd(code: seq<Byte>, s: seq<int>, x: int)
    requires Straight(code, s)
    ensures Leads(code, s, |s| - 1, x) ==> x == |code|
  {
    hide Width, Target, Arms;
    ArmsNone(code, s);
  }

  lemma {:induction false} StraightLast(code: seq<Byte>, s: seq<int>, k: nat)
    requires Straight(code, s) && k < |s| - 1
    ensures Blocks.Last(code, s[k], |code|) == s[|s| - 2]
    decreases |s| - k
  {
    hide Width;
    LayoutNext(code, s, k);
    if k + 1 < |s| - 1 {
      assert s[k + 1] < |code|;
      StraightLast(code, s, k + 1);
    }
  }

  lemma StraightCfg(cx: Context, code: seq<Byte>, s: seq<int>)
    requires Straight(code, s)
    ensures IsCfg(code, [], s, [Node(0, |code|, {})]) && Terminates(cx, code, [Node(0, |code|, {})])
    ensures |code| > 0 && AllArmsOk(cx, code, Boundary(s), s, |s| - 1) && TablesEnd(code, [], s)
  {
    hide Width, Target, Arms, Leader;
    ArmsNone(code, s);
    StraightLeaders(code, s);
    StraightLast(code, s, 0);
    LayoutNext(code, s, 0);
    assert NodesBy(code, [], s, [Node(0, |code|, {})], [0]);
  }

  lemma LongEffects()
    ensures Fixed(73) == Some(Effect([], [I64])) && Fixed(20) == Some(Effect([Any], []))
    ensures Fixed(55) == Some(Effect([I32], [I1]))
  {
  }

  lemma LongStep(cx: Context, code: seq<Byte>, ip: int)
    requires 0 <= ip < |code| && InBounds(cx, code, ip) && code[ip] == 73
    ensures StepOf(cx, code, ip, []) == Continue([Slot(I64, None)])
  {
    hide Operand, InBounds, CallEffect, AcceptsType, Fixed;
    LongEffects();
    assert Popped([], []) == Some([]) && Untyped([I64]) == [Slot(I64, None)];
  }

  lemma TakeAny(cx: Context, code: seq<Byte>, ip: int, e: Slot)
    requires 0 <= ip < |code| && InBounds(cx, code, ip) && (code[ip] == 20 || code[ip] == 2)
    ensures StepOf(cx, code, ip, [e]) == Continue([])
  {
    hide Operand, InBounds, CallEffect, AcceptsType, Fixed;
    LongEffects();
    Effects();
    PoppedIs([e], [Any]);
    assert Popped([e], [Any]).Some?;
    assert Untyped([]) == [];
  }

  lemma TestStep(cx: Context, code: seq<Byte>, ip: int, e: Slot)
    requires 0 <= ip < |code| && InBounds(cx, code, ip) && code[ip] == 55 && e.kind == I32
    ensures StepOf(cx, code, ip, [e]) == Continue([Slot(I1, None)])
  {
    hide Operand, InBounds, CallEffect, AcceptsType, Fixed;
    LongEffects();
    PoppedIs([e], [I32]);
    assert Popped([e], [I32]).Some?;
    assert Untyped([I1]) == [Slot(I1, None)];
  }

  lemma StoredBounds(cx: Context)
    requires cx.locals == [Prim(I32)]
    ensures var c := STORED;
            && InBounds(cx, c, 0) && InBounds(cx, c, 9) && InBounds(cx, c, 11) && InBounds(cx, c, 13)
            && InBounds(cx, c, 14) && InBounds(cx, c, 15)
    ensures Layout(STORED, STORED_STARTS) && AllInBounds(cx, STORED, STORED_STARTS)
  {
    hide Operand, Layout;
    StoredWidths();
    StoredReads();
  }

  lemma StoredSteps(cx: Context)
    requires cx.locals == [Prim(I32)] && cx.results == 0
    ensures InBounds(cx, STORED, 0) && InBounds(cx, STORED, 9) && InBounds(cx, STORED, 11) && InBounds(cx, STORED, 13)
    ensures InBounds(cx, STORED, 14) && InBounds(cx, STORED, 15)
    ensures StepOf(cx, STORED, 0, []) == Continue([Slot(I64, None)])
    ensures StepOf(cx, STORED, 9, [Slot(I64, None)]) == Continue([])
    ensures StepOf(cx, STORED, 11, []) == Continue([TypeSlot(Prim(I32))])
    ensures StepOf(cx, STORED, 13, [TypeSlot(Prim(I32))]) == Continue([Slot(I1, None)])
    ensures StepOf(cx, STORED, 14, [Slot(I1, None)]) == Continue([])
    ensures StepOf(cx, STORED, 15, []) == Continue([])
  {
    hide Operand, InBounds, CallEffect, AcceptsType, Fixed, Popped;
    StoredWidths();
    StoredBounds(cx);
    LongStep(cx, STORED, 0);
    TakeAny(cx, STORED, 9, Slot(I64, None));
    TestStep(cx, STORED, 13, TypeSlot(Prim(I32)));
    TakeAny(cx, STORED, 14, Slot(I1, None));
    assert [] + [TypeSlot(Prim(I32))] == [TypeSlot(Prim(I32))];
  }

  lemma StoredSettles(cx: Context)
    requires cx.locals == [Prim(I32)] && cx.results == 0
    ensures PostFixpoint(cx, STORED, [], [Node(0, 16, {})], [Some([])])
  {
    hide Width, StepOf, InBounds;
    var c := STORED;
    StoredWidths();
    StoredSteps(cx);
    assert ExecOf(cx, c, 15, 16, []) == Continue([]);
    assert ExecOf(cx, c, 14, 16, [Slot(I1, None)]) == Continue([]);
    assert ExecOf(cx, c, 13, 16, [TypeSlot(Prim(I32))]) == Continue([]);
    assert ExecOf(cx, c, 11, 16, []) == Continue([]);
    assert ExecOf(cx, c, 9, 16, [Slot(I64, None)]) == Continue([]);
    assert ExecOf(cx, c, 0, 16, []) == Continue([]);
  }

  /** The verifier accepts the body. */
  method StoredAccepted(cx: Context) returns (r: Verify.Outcome)
    requires cx.locals == [Prim(I32)] && cx.results == 0
    ensures r == Verify.Accepted
  {
    hide Width, Arms, Target, Layout, InBounds, IsCfg, PostFixpoint, Leader, AllInBounds, AllArmsOk, Terminates;
    StoredReads();
    StoredBounds(cx);
    StraightCfg(cx, STORED, STORED_STARTS);
    StoredSettles(cx);
    r := VerifyLimits.Accepts(cx, STORED, STORED_STARTS, [Node(0, 16, {})], [Some([])]);
  }

  lemma StoredRuns(cx: Context, calls: int -> Callee)
    requires cx.locals == [Prim(I32)]
    ensures TypedRun(cx, STORED, [], calls,
                     [Holding(0, [], [I32]), Holding(9, [I64], [I32]), Holding(11, [], [I64]),
                      Holding(13, [I64], [I64]), Confused(13, 0)])
  {
    hide Steps;
    StoredFirst(cx, calls);
    StoredSecond(cx, calls);
    StoredThird(cx, calls);
    StoredFourth(cx, calls);
  }

  lemma StoredFirst(cx: Context, calls: int -> Callee)
    requires cx.locals == [Prim(I32)]
    ensures Steps(cx, STORED, [], calls, Holding(0, [], [I32]), Holding(9, [I64], [I32]))
  {
    hide Width, InBounds, Operand, Fixed, HandsOf;
    StoredWidths();
    StoredBounds(cx);
    LongHands();
    assert Gives([], 0, [I64], [I64]);
  }

  lemma StoredSecond(cx: Context, calls: int -> Callee)
    requires cx.locals == [Prim(I32)]
    ensures Steps(cx, STORED, [], calls, Holding(9, [I64], [I32]), Holding(11, [], [I64]))
  {
    hide Width, InBounds, Operand, Fixed, HandsOf;
    StoredWidths();
    StoredBounds(cx);
    LongHands();
    assert Gives([I64], 1, [], []);
  }

  lemma StoredThird(cx: Context, calls: int -> Callee)
    requires cx.locals == [Prim(I32)]
    ensures Steps(cx, STORED, [], calls, Holding(11, [], [I64]), Holding(13, [I64], [I64]))
  {
    hide Width, InBounds, Operand, Fixed, HandsOf;
    StoredWidths();
    StoredBounds(cx);
    LongHands();
    assert [] + [I64] == [I64];
  }

  lemma StoredFourth(cx: Context, calls: int -> Callee)
    requires cx.locals == [Prim(I32)]
    ensures Steps(cx, STORED, [], calls, Holding(13, [I64], [I64]), Confused(13, 0))
  {
    hide Width, InBounds, Operand, Fixed, HandsOf;
    StoredBounds(cx);
    LongHands();
    assert Misread(55, [I64], 0);
  }

  lemma LongHands()
    ensures HandsOf(73) == Some(Hands([], [I64])) && HandsOf(20) == Some(Hands([Any], []))
    ensures HandsOf(19) == Some(Hands([], [Any])) && HandsOf(55) == Some(Hands([I32], [I1]))
  {
  }

  lemma StoredAgrees(cx: Context, calls: int -> Callee)
    requires cx.locals == [Prim(I32)]
    ensures Layout(STORED, STORED_STARTS) && AllInBounds(cx, STORED, STORED_STARTS)
    ensures AllAgreed(cx, STORED, STORED_STARTS, [Node(0, 16, {})], [Some([])], calls)
  {
    hide Layout, AllInBounds, Before;
    StoredBounds(cx);
    var c, s := STORED, STORED_STARTS;
    forall m | 0 <= m < |s| - 1
      ensures 0 <= s[m] < |c| && c[s[m]] != CALL && c[s[m]] != RETURN_CALL && c[s[m]] != 180
    {
      assert s[m] in {0, 9, 11, 13, 14, 15};
    }
  }

  /** The accepted body meets every assumption but that its local holds what it is declared to: nothing is unknown where
      its run misreads the operand. */
  lemma StoredConfuses(cx: Context, calls: int -> Callee)
    requires cx.locals == [Prim(I32)] && cx.results == 0
    ensures Layout(STORED, STORED_STARTS) && AllInBounds(cx, STORED, STORED_STARTS)
    ensures Verified(cx, STORED, [], STORED_STARTS, [Node(0, 16, {})], [Some([])])
    ensures AllAgreed(cx, STORED, STORED_STARTS, [Node(0, 16, {})], [Some([])], calls)
    ensures !Overlooked(cx, STORED, STORED_STARTS, [Node(0, 16, {})], [Some([])], 13, 0)
    ensures TypedRun(cx, STORED, [], calls,
                     [Holding(0, [], [I32]), Holding(9, [I64], [I32]), Holding(11, [], [I64]),
                      Holding(13, [I64], [I64]), Confused(13, 0)])
  {
    hide Width, Arms, Target, Layout, InBounds, IsCfg, PostFixpoint, AllInBounds, Leader, TypedRun, AllAgreed,
         Overlooked, TablesEnd;
    StoredReads();
    StoredBounds(cx);
    StraightCfg(cx, STORED, STORED_STARTS);
    StoredSettles(cx);
    StoredRuns(cx, calls);
    StoredAgrees(cx, calls);
    StoredKnown(cx);
  }

  lemma StoredKnown(cx: Context)
    requires cx.locals == [Prim(I32)] && cx.results == 0
    ensures Layout(STORED, STORED_STARTS) && AllInBounds(cx, STORED, STORED_STARTS)
    ensures !Overlooked(cx, STORED, STORED_STARTS, [Node(0, 16, {})], [Some([])], 13, 0)
  {
    hide Layout, AllInBounds, StepOf, InBounds;
    StoredBounds(cx);
    StoredSteps(cx);
    var c, s := STORED, STORED_STARTS;
    assert Before(cx, c, s, 0, [], 0) == Some([]);
    assert Before(cx, c, s, 0, [], 1) == Some([Slot(I64, None)]);
    assert Before(cx, c, s, 0, [], 2) == Some([]);
    assert Before(cx, c, s, 0, [], 3) == Some([TypeSlot(Prim(I32))]);
  }

  lemma ChosenBounds(cx: Context)
    ensures var c := CHOSEN;
            && InBounds(cx, c, 0) && InBounds(cx, c, 9) && InBounds(cx, c, 10) && InBounds(cx, c, 11)
            && InBounds(cx, c, 12) && InBounds(cx, c, 13)
    ensures Layout(CHOSEN, CHOSEN_STARTS) && AllInBounds(cx, CHOSEN, CHOSEN_STARTS)
  {
    hide Operand, Layout;
    ChosenReads();
  }

  lemma CopyStep(cx: Context, code: seq<Byte>, ip: int, st: seq<Slot>)
    requires 0 <= ip < |code| && InBounds(cx, code, ip) && code[ip] == DUP && st != []
    ensures StepOf(cx, code, ip, st) == Continue(st + [Top(st)])
  {
    hide Operand, InBounds, CallEffect, AcceptsType, Fixed, Popped;
  }

  lemma ChoiceStep(cx: Context, code: seq<Byte>, ip: int, e: Slot)
    requires 0 <= ip < |code| && InBounds(cx, code, ip) && code[ip] == SELECT
    ensures StepOf(cx, code, ip, [e, e, e]) == Continue([Slot(e.kind, None)])
  {
    hide Operand, InBounds, CallEffect, AcceptsType, Fixed, Popped;
    assert Dropped([e, e, e], 3) == [];
  }

  lemma ChosenSteps(cx: Context)
    requires cx.results == 0
    ensures InBounds(cx, CHOSEN, 0) && InBounds(cx, CHOSEN, 9) && InBounds(cx, CHOSEN, 10) && InBounds(cx, CHOSEN, 11)
    ensures InBounds(cx, CHOSEN, 12) && InBounds(cx, CHOSEN, 13)
    ensures var n := Slot(I64, None);
            && StepOf(cx, CHOSEN, 0, []) == Continue([n]) && StepOf(cx, CHOSEN, 9, [n]) == Continue([n, n])
            && StepOf(cx, CHOSEN, 10, [n, n]) == Continue([n, n, n])
            && StepOf(cx, CHOSEN, 11, [n, n, n]) == Continue([n])
            && StepOf(cx, CHOSEN, 12, [n]) == Continue([]) && StepOf(cx, CHOSEN, 13, []) == Continue([])
  {
    hide StepOf, InBounds;
    var n := Slot(I64, None);
    ChosenBounds(cx);
    LongStep(cx, CHOSEN, 0);
    CopyStep(cx, CHOSEN, 9, [n]);
    CopyStep(cx, CHOSEN, 10, [n, n]);
    ChoiceStep(cx, CHOSEN, 11, n);
    TakeAny(cx, CHOSEN, 12, n);
    PlainStep(cx, CHOSEN, 13);
    assert [n] + [n] == [n, n] && [n, n] + [n] == [n, n, n];
  }

  lemma ChosenSettles(cx: Context)
    requires cx.results == 0
    ensures PostFixpoint(cx, CHOSEN, [], [Node(0, 14, {})], [Some([])])
  {
    hide Width, StepOf, InBounds;
    var c, n := CHOSEN, Slot(I64, None);
    ChosenWidths();
    ChosenSteps(cx);
    assert ExecOf(cx, c, 13, 14, []) == Continue([]);
    assert ExecOf(cx, c, 12, 14, [n]) == Continue([]);
    assert ExecOf(cx, c, 11, 14, [n, n, n]) == Continue([]);
    assert ExecOf(cx, c, 10, 14, [n, n]) == Continue([]);
    assert ExecOf(cx, c, 9, 14, [n]) == Continue([]);
    assert ExecOf(cx, c, 0, 14, []) == Continue([]);
  }

  /** The verifier accepts a choice that a 64-bit integer decides. */
  method ChosenAccepted(cx: Context) returns (r: Verify.Outcome)
    requires cx.results == 0
    ensures r == Verify.Accepted
  {
    hide Width, Arms, Target, Layout, InBounds, IsCfg, PostFixpoint, Leader, AllInBounds, AllArmsOk, Terminates;
    ChosenReads();
    ChosenBounds(cx);
    StraightCfg(cx, CHOSEN, CHOSEN_STARTS);
    ChosenSettles(cx);
    r := VerifyLimits.Accepts(cx, CHOSEN, CHOSEN_STARTS, [Node(0, 14, {})], [Some([])]);
  }

  /** Its run misreads the condition, whatever the locals hold. */
  lemma ChosenConfuses(cx: Context, calls: int -> Callee, ls: seq<Kind>)
    requires cx.results == 0
    ensures Layout(CHOSEN, CHOSEN_STARTS) && AllInBounds(cx, CHOSEN, CHOSEN_STARTS)
    ensures Verified(cx, CHOSEN, [], CHOSEN_STARTS, [Node(0, 14, {})], [Some([])])
    ensures TypedRun(cx, CHOSEN, [], calls,
                     [Holding(0, [], ls), Holding(9, [I64], ls), Holding(10, [I64, I64], ls),
                      Holding(11, [I64, I64, I64], ls), Confused(11, 2)])
  {
    hide Width, Arms, Target, Layout, InBounds, IsCfg, PostFixpoint, AllInBounds, Leader, Steps, TablesEnd;
    ChosenReads();
    ChosenBounds(cx);
    StraightCfg(cx, CHOSEN, CHOSEN_STARTS);
    ChosenSettles(cx);
    ChosenFirst(cx, calls, ls);
    ChosenCopies(cx, calls, ls);
    ChosenLast(cx, calls, ls);
  }

  lemma ChosenFirst(cx: Context, calls: int -> Callee, ls: seq<Kind>)
    ensures Steps(cx, CHOSEN, [], calls, Holding(0, [], ls), Holding(9, [I64], ls))
  {
    hide Width, InBounds, Operand, Fixed, HandsOf;
    ChosenWidths();
    ChosenBounds(cx);
    LongHands();
    assert Gives([], 0, [I64], [I64]);
  }

  lemma ChosenCopies(cx: Context, calls: int -> Callee, ls: seq<Kind>)
    ensures Steps(cx, CHOSEN, [], calls, Holding(9, [I64], ls), Holding(10, [I64, I64], ls))
    ensures Steps(cx, CHOSEN, [], calls, Holding(10, [I64, I64], ls), Holding(11, [I64, I64, I64], ls))
  {
    hide Width, InBounds, Operand, Fixed, HandsOf;
    ChosenWidths();
    ChosenBounds(cx);
    MovingHands(3);
    assert [I64] + [I64] == [I64, I64] && [I64, I64] + [I64] == [I64, I64, I64];
  }

  lemma ChosenLast(cx: Context, calls: int -> Callee, ls: seq<Kind>)
    ensures Steps(cx, CHOSEN, [], calls, Holding(11, [I64, I64, I64], ls), Confused(11, 2))
  {
    hide Width, InBounds, Operand, Fixed, HandsOf;
    ChosenBounds(cx);
    assert Misread(8, [I64, I64, I64], 2);
  }
}
