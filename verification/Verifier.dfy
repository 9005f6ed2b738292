/** The bytecode verifier: structure, control-flow graph, termination, and the stack dataflow. */
module Verifier {
  import opened Bytecode
  import opened Stacks
  import Blocks

  /** The abstract operand stack threaded through a block. */
  class Stack {
    var slots: seq<Slot>

    constructor (slots: seq<Slot>)
      ensures this.slots == slots
    {
      this.slots := slots;
    }

    method Push(v: Slot)
      modifies this
      ensures slots == old(slots) + [v]
    {
      slots := slots + [v];
    }

    method Pop() returns (v: Slot)
      requires slots != []
      modifies this
      ensures v == Top(old(slots)) && slots == Dropped(old(slots), 1)
    {
      v := slots[|slots| - 1];
      slots := slots[..|slots| - 1];
    }

    method Drop(n: nat)
      requires n <= |slots|
      modifies this
      ensures slots == Dropped(old(slots), n)
    {
      slots := slots[..|slots| - n];
    }

    method Swap()
      requires |slots| >= 2
      modifies this
      ensures var n := |old(slots)|; slots == old(slots)[n - 1 := old(slots)[n - 2]][n - 2 := old(slots)[n - 1]]
    {
      var n := |slots|;
      var top := slots[n - 1];
      slots := slots[n - 1 := slots[n - 2]];
      slots := slots[n - 2 := top];
    }

    /** Folds other into this stack: whether anything widened, and whether the heights agree. */
    method Merge(other: seq<Slot>) returns (changed: bool, balanced: bool)
      modifies this
      ensures balanced <==> |old(slots)| == |other|
      ensures balanced ==> slots == Merged(old(slots), other) && (changed <==> slots != old(slots))
      ensures !balanced ==> slots == old(slots) && !changed
    {
      if |slots| != |other| {
        return false, false;
      }
      changed := false;
      ghost var before := slots;
      for i := 0 to |slots|
        invariant |slots| == |before|
        invariant forall j :: 0 <= j < i ==> slots[j] == MergedSlot(before[j], other[j])
        invariant forall j :: i <= j < |slots| ==> slots[j] == before[j]
        invariant changed <==> exists j :: 0 <= j < i && slots[j] != before[j]
      {
        var k := Unify(slots[i].kind, other[i].kind);
        if k != slots[i].kind {
          slots := slots[i := slots[i].(kind := k)];
          changed := true;
        }
        if slots[i].typ.Some? && slots[i].typ != other[i].typ {
          slots := slots[i := slots[i].(typ := None)];
          changed := true;
        }
      }
      assert slots == Merged(before, other);
      balanced := true;
    }
  }

  datatype Signal = Proceed | Done | Fail(error: Error)

  /** The outcome of running code on a stack is the verdict the specification gives. */
  ghost predicate Signals(v: Verdict, r: Signal, slots: seq<Slot>) {
    match v
    case Continue(st) => r == Proceed && slots == st
    case Indeterminate => r == Done
    case Reject(e) => r == Fail(e)
  }

  method Call(st: Stack, tail: bool) returns (r: Signal)
    modifies st
    ensures Signals(CallEffect(old(st.slots), tail), r, st.slots)
  {
    if |st.slots| == 0 {
      return Fail(StackUnderflow);
    }
    var callee := st.Pop();
    if callee.typ.None? || !callee.typ.value.Fn? {
      return Done;
    }
    var fn := callee.typ.value;
    if |st.slots| < |fn.params| {
      return Fail(StackUnderflow);
    }
    st.Drop(|fn.params|);
    if tail {
      return Proceed;
    }
    for i := 0 to |fn.results|
      invariant st.slots == Dropped(Dropped(old(st.slots), 1), |fn.params|) + Slots(fn.results)[..i]
    {
      st.Push(TypeSlot(fn.results[i]));
    }
    assert Slots(fn.results)[..|fn.results|] == Slots(fn.results);
    r := Proceed;
  }

  /** The effect of an opcode whose pops and pushes are fixed. */
  method Apply(st: Stack, effect: Effect) returns (r: Signal)
    modifies st
    ensures |old(st.slots)| < |effect.pop| ==> r == Fail(StackUnderflow)
    ensures |old(st.slots)| >= |effect.pop| ==>
              match Popped(old(st.slots), effect.pop)
              case None => r == Fail(TypeMismatch)
              case Some(rest) => r == Proceed && st.slots == rest + Untyped(effect.push)
  {
    if |st.slots| < |effect.pop| {
      return Fail(StackUnderflow);
    }
    for i := 0 to |effect.pop|
      invariant |st.slots| >= |effect.pop| - i
      invariant Popped(st.slots, effect.pop[i..]) == Popped(old(st.slots), effect.pop)
    {
      var got := st.Pop();
      if !Accepts(got.kind, effect.pop[i]) {
        return Fail(TypeMismatch);
      }
      assert effect.pop[i..][1..] == effect.pop[i + 1..];
    }
    ghost var rest := st.slots;
    for i := 0 to |effect.push|
      invariant st.slots == rest + Untyped(effect.push)[..i]
    {
      st.Push(Slot(effect.push[i], None));
    }
    assert Untyped(effect.push)[..|effect.push|] == Untyped(effect.push);
    r := Proceed;
  }

  method Step(cx: Context, code: seq<Byte>, ip: int, st: Stack) returns (r: Signal)
    requires 0 <= ip < |code| && InBounds(cx, code, ip)
    modifies st
    ensures Signals(StepOf(cx, code, ip, old(st.slots)), r, st.slots)
  {
    hide Fixed, Popped, CallEffect, Operand, AcceptsType;
    var op, n := code[ip], Operand(code, ip);
    if op == NOP || op == UNREACHABLE || op == BR {
      return Proceed;
    } else if op == LOCAL_TEE {
      return if |st.slots| == 0 then Fail(StackUnderflow) else Proceed;
    } else if op == GLOBAL_TEE {
      if |st.slots| == 0 {
        return Fail(StackUnderflow);
      }
      return if AcceptsType(cx, Top(st.slots), cx.globals[n]) then Proceed else Fail(TypeMismatch);
    } else if op == LOCAL_GET {
      st.Push(TypeSlot(cx.locals[n]));
      return Proceed;
    } else if op == UPVAL_GET {
      st.Push(TypeSlot(cx.captures[n]));
      return Proceed;
    } else if op == CONST_GET {
      st.Push(cx.constants[n]);
      return Proceed;
    } else if op == GLOBAL_GET {
      st.Push(TypeSlot(cx.globals[n]));
      return Proceed;
    } else if op == GLOBAL_SET {
      if |st.slots| == 0 {
        return Fail(StackUnderflow);
      }
      var v := st.Pop();
      return if AcceptsType(cx, v, cx.globals[n]) then Proceed else Fail(TypeMismatch);
    } else if op == DUP {
      if |st.slots| == 0 {
        return Fail(StackUnderflow);
      }
      st.Push(Top(st.slots));
      return Proceed;
    } else if op == SWAP {
      if |st.slots| < 2 {
        return Fail(StackUnderflow);
      }
      st.Swap();
      return Proceed;
    } else if op == SELECT || Bitwise(op) {
      r := Combine(op, st);
    } else if op == CALL || op == RETURN_CALL {
      r := Call(st, op == RETURN_CALL);
    } else if op == RETURN {
      return if |st.slots| < cx.results then Fail(StackUnderflow) else Proceed;
    } else if op == STRUCT_NEW {
      if !cx.types[n].Struct? {
        return Done;
      }
      if |st.slots| < |cx.types[n].fields| {
        return Fail(StackUnderflow);
      }
      st.Drop(|cx.types[n].fields|);
      st.Push(TypeSlot(cx.types[n]));
      return Proceed;
    } else if op == MAP_NEW || op == CLOSURE_NEW {
      return Done;
    } else {
      var effect := Fixed(op);
      if effect.None? {
        return Done;
      }
      r := Apply(st, effect.value);
    }
  }

  /** select and the bitwise operations, whose result kind depends on their operands'. */
  method Combine(op: Byte, st: Stack) returns (r: Signal)
    requires op == SELECT || Bitwise(op)
    modifies st
    ensures var s, n := old(st.slots), |old(st.slots)|;
            if op == SELECT then
              (if n < 3 then r == Fail(StackUnderflow)
               else r == Proceed && st.slots == Dropped(s, 3) + [Slot(Unify(s[n - 3].kind, s[n - 2].kind), None)])
            else if n < 2 then r == Fail(StackUnderflow)
            else if !Accepts(s[n - 2].kind, I32) || !Accepts(s[n - 1].kind, I32) then r == Fail(TypeMismatch)
            else r == Proceed && st.slots == Dropped(s, 2) + [Slot(BitwiseKind(s[n - 2].kind, s[n - 1].kind), None)]
  {
    if |st.slots| < (if op == SELECT then 3 else 2) {
      return Fail(StackUnderflow);
    }
    if op == SELECT {
      var _ := st.Pop();
    }
    var b := st.Pop();
    var a := st.Pop();
    if op == SELECT {
      st.Push(Slot(Unify(a.kind, b.kind), None));
    } else {
      if !Accepts(a.kind, I32) || !Accepts(b.kind, I32) {
        return Fail(TypeMismatch);
      }
      st.Push(Slot(BitwiseKind(a.kind, b.kind), None));
    }
    r := Proceed;
  }

  /** Every instruction's index operand is in range. */
  ghost predicate AllInBounds(cx: Context, code: seq<Byte>, s: seq<int>)
    requires Layout(code, s)
  {
    forall k :: 0 <= k < |s| - 1 ==> InBounds(cx, code, s[k])
  }

  /** Simulates the block [start, end). */
  method Exec(cx: Context, code: seq<Byte>, start: int, end: int, st: Stack, ghost s: seq<int>) returns (r: Signal)
    requires Layout(code, s) && AllInBounds(cx, code, s) && start in s && 0 <= start && end <= |code|
    modifies st
    ensures Signals(ExecOf(cx, code, start, end, old(st.slots)), r, st.slots)
  {
    hide StepOf, Width, Layout, AllInBounds, InBounds;
    var ip := start;
    ghost var k :| 0 <= k < |s| && s[k] == start;
    while ip < end
      invariant 0 <= k < |s| && ip == s[k] && 0 <= ip
      invariant ExecOf(cx, code, start, end, old(st.slots)) == ExecOf(cx, code, ip, end, st.slots)
      decreases end - ip
    {
      InstrHere(cx, code, s, k);
      var op := code[ip];
      r := Step(cx, code, ip, st);
      if r.Fail? || r.Done? || Stops(op) {
        return;
      }
      ip := ip + Width(code, ip);
      k := k + 1;
    }
    r := Proceed;
  }

  lemma InstrHere(cx: Context, code: seq<Byte>, s: seq<int>, k: int)
    requires Layout(code, s) && AllInBounds(cx, code, s) && 0 <= k < |s| && s[k] < |code|
    ensures k < |s| - 1 && 0 <= s[k] && s[k] + Width(code, s[k]) == s[k + 1] && s[k] < s[k + 1]
    ensures InBounds(cx, code, s[k])
  {
    hide InBounds;
    if k < |s| - 1 {
      LayoutNext(code, s, k);
    }
  }

  /** Popping kinds leaves the rest of the stack. */
  lemma {:induction false} PoppedIs(st: seq<Slot>, want: seq<Kind>)
    requires |want| <= |st|
    ensures Popped(st, want).Some? ==> Popped(st, want).value == Dropped(st, |want|)
    decreases |want|
  {
    if want != [] && Accepts(Top(st).kind, want[0]) {
      PoppedIs(Dropped(st, 1), want[1..]);
      assert Dropped(Dropped(st, 1), |want| - 1) == Dropped(st, |want|);
    }
  }

  lemma CallBelow(a: seq<Slot>, b: seq<Slot>, tail: bool)
    requires Below(a, b) && CallEffect(b, tail).Continue?
    ensures CallEffect(a, tail).Continue? && Below(CallEffect(a, tail).st, CallEffect(b, tail).st)
  {
    assert SlotBelow(Top(a), Top(b));
  }

  /** a and b leave an instruction in the order they came to it, unless a kind known of a does not fit. */
  ghost predicate Ordered(a: Verdict, b: Verdict) {
    a == Reject(TypeMismatch) || (a.Continue? && b.Continue? && Below(a.st, b.st))
  }

  lemma FixedBelow(cx: Context, code: seq<Byte>, ip: int, a: seq<Slot>, b: seq<Slot>)
    requires 0 <= ip < |code| && InBounds(cx, code, ip) && Below(a, b) && StepOf(cx, code, ip, b).Continue?
    requires !Special(code[ip])
    ensures Ordered(StepOf(cx, code, ip, a), StepOf(cx, code, ip, b))
  {
    hide Fixed, Popped, CallEffect, Operand, AcceptsType, InBounds;
    var e := Fixed(code[ip]).value;
    PoppedIs(a, e.pop);
    PoppedIs(b, e.pop);
  }

  /** Instructions the analysis treats on their own. */
  predicate Special(op: Byte) {
    op in {NOP, UNREACHABLE, BR, LOCAL_TEE, GLOBAL_TEE, LOCAL_GET, UPVAL_GET, CONST_GET, GLOBAL_GET, GLOBAL_SET, DUP,
        SWAP, SELECT,
           CALL, RETURN_CALL, RETURN, STRUCT_NEW, MAP_NEW, CLOSURE_NEW} || Bitwise(op)
  }

  lemma MixBelow(cx: Context, code: seq<Byte>, ip: int, a: seq<Slot>, b: seq<Slot>)
    requires 0 <= ip < |code| && InBounds(cx, code, ip) && Below(a, b) && StepOf(cx, code, ip, b).Continue?
    requires code[ip] in {DUP, SWAP, SELECT} || Bitwise(code[ip])
    ensures Ordered(StepOf(cx, code, ip, a), StepOf(cx, code, ip, b))
  {
    hide Fixed, Popped, CallEffect, Operand, AcceptsType, InBounds;
    var n := |a|;
    assert SlotBelow(a[n - 1], b[n - 1]);
    if n > 1 {
      assert SlotBelow(a[n - 2], b[n - 2]);
    }
    if n > 2 {
      assert SlotBelow(a[n - 3], b[n - 3]);
    }
  }

  /** A stack that admits less gets through an instruction with less, unless a kind it knows does not fit. */
  lemma StepBelow(cx: Context, code: seq<Byte>, ip: int, a: seq<Slot>, b: seq<Slot>)
    requires 0 <= ip < |code| && InBounds(cx, code, ip) && Below(a, b) && StepOf(cx, code, ip, b).Continue?
    ensures Ordered(StepOf(cx, code, ip, a), StepOf(cx, code, ip, b))
  {
    hide Fixed, Popped, CallEffect, Operand, AcceptsType, InBounds, Unify;
    var op := code[ip];
    if op == CALL || op == RETURN_CALL {
      CallBelow(a, b, op == RETURN_CALL);
    } else if op in {DUP, SWAP, SELECT} || Bitwise(op) {
      MixBelow(cx, code, ip, a, b);
    } else if !Special(op) {
      FixedBelow(cx, code, ip, a, b);
    } else {
      PlainBelow(cx, code, ip, a, b);
    }
  }

  lemma PlainBelow(cx: Context, code: seq<Byte>, ip: int, a: seq<Slot>, b: seq<Slot>)
    requires 0 <= ip < |code| && InBounds(cx, code, ip) && Below(a, b) && StepOf(cx, code, ip, b).Continue?
    requires code[ip] in {NOP, UNREACHABLE, BR, LOCAL_TEE, GLOBAL_TEE, LOCAL_GET, UPVAL_GET, CONST_GET, GLOBAL_GET,
      GLOBAL_SET, RETURN, STRUCT_NEW,
                          MAP_NEW, CLOSURE_NEW}
    ensures Ordered(StepOf(cx, code, ip, a), StepOf(cx, code, ip, b))
  {
    hide Fixed, Popped, CallEffect, Operand, AcceptsType, InBounds, Unify;
  }

  /** The same for a whole block. */
  lemma {:induction false} ExecBelow(cx: Context, code: seq<Byte>, ip: int, end: int, a: seq<Slot>, b: seq<Slot>)
    requires Below(a, b) && ExecOf(cx, code, ip, end, b).Continue?
    ensures Ordered(ExecOf(cx, code, ip, end, a), ExecOf(cx, code, ip, end, b))
    decreases end - ip
  {
    hide StepOf, InBounds, Below, Width;
    if 0 <= ip < end <= |code| && InBounds(cx, code, ip) {
      StepBelow(cx, code, ip, a, b);
      var v := StepOf(cx, code, ip, a);
      if v.Continue? && !Stops(code[ip]) {
        ExecBelow(cx, code, ip + Width(code, ip), end, v.st, StepOf(cx, code, ip, b).st);
      }
    }
  }
}
