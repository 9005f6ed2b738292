/** What a passed verification promises of the kinds on the operand stack: an instruction meets an operand of another
    kind than its handler reads only where the analysis knows no kind, or for the condition of a select. */
module KindRuns {
  import opened Bytecode
  import opened Stacks
  import opened Verifier
  import opened Checker
  import opened Dataflow
  import opened Opcodes
  import opened Heights
  import Blocks
  import Compaction

  /** Kinds that stand on the stack alike: integers of 32 bits and less are one word. */
  predicate Alike(a: Kind, b: Kind) {
    a == b || (a in {I32, I8, I1} && b in {I32, I8, I1})
  }

  /** A word of kind k is one that `want` takes. */
  predicate Fits(k: Kind, want: Kind) {
    want == Any || Alike(k, want)
  }

  /** The verifier's test: a word fits wherever a word of a kind it fits is accepted, unless nothing is known of it. */
  lemma AcceptsIff(got: Kind, want: Kind)
    ensures Accepts(got, want) <==> got == Any || Fits(got, want)
    ensures Accepts(got, want) && got != Any ==> forall k :: Fits(k, got) ==> Fits(k, want)
  {
  }

  /** Anything may be stored in a variable of any type; in another one of a kind, when casts keep kinds, only what
      fits it or what nothing is known of. */
  lemma StoreFits(cx: Context, e: Slot, want: Type)
    ensures want == Dynamic ==> AcceptsType(cx, e, want)
    ensures AcceptsType(cx, e, want) && want != Dynamic && (e.typ.Some? ==> e.kind == KindOf(e.typ.value))
            && (forall t :: cx.casts(want, t) ==> Alike(KindOf(t), KindOf(want))) ==>
              e.kind == Any || Fits(e.kind, KindOf(want))
    ensures want != Dynamic && e.typ.None? && Fits(e.kind, KindOf(want)) ==> AcceptsType(cx, e, want)
  {
    AcceptsIff(e.kind, KindOf(want));
  }

  /** What is settled at an offset only at run time: parameters and result kinds of the function called, or the
      number of elements of a new array. */
  datatype Callee = Callee(params: nat, results: seq<Kind>)

  function Sig(c: Callee): Signature {
    Signature(c.params, |c.results|)
  }

  /** The kinds of the operands and of what the locals hold; a frame that was left; an operand that is not there; or
      one, the stack's entry `at`, of another kind than the handler reads. */
  datatype Typed = Holding(ip: int, ks: seq<Kind>, ls: seq<Kind>) | Gone | Short(ip: int) | Confused(ip: int, at: int)

  /** The kinds a handler reads its operands by, in the order they were pushed. */
  function Reads(op: Byte): seq<Kind> {
    if op == 8 then [Any, Any, I32]
    else if op == 9 || op == 11 then [Ref]
    else if op != 180 && HandsOf(op).Some? then HandsOf(op).value.takes
    else if op == 180 then [I32]
    else []
  }

  ghost predicate Misread(op: Byte, ks: seq<Kind>, at: int) {
    var n := |ks| - |Reads(op)|;
    n >= 0 && n <= at < |ks| && !Fits(ks[at], Reads(op)[at - n])
  }

  /** ks without its top n entries, then kinds that fit `gives`. */
  ghost predicate Gives(ks: seq<Kind>, n: nat, gives: seq<Kind>, ks': seq<Kind>) {
    && n <= |ks| && |ks'| == |ks| - n + |gives| && ks'[..|ks| - n] == ks[..|ks| - n]
    && forall i :: 0 <= i < |gives| ==> Fits(ks'[|ks| - n + i], gives[i])
  }

  /** What the handler of the instruction at ip leaves. Globals, captured variables, constants and calls are taken to
      give what they are declared to; locals give what was stored there. */
  ghost predicate Leaves(cx: Context, code: seq<Byte>, ip: int, c: Callee, ks: seq<Kind>, ls: seq<Kind>, ks': seq<Kind>)
    requires 0 <= ip < |code| && InBounds(cx, code, ip)
  {
    var op, n, x := code[ip], |ks|, Operand(code, ip);
    match op
    case 0 => ks' == ks
    case 1 => ks' == ks
    case 3 => n > 0 && ks' == ks + [ks[n - 1]]
    case 4 => n > 1 && ks' == ks[..n - 2] + [ks[n - 1], ks[n - 2]]
    case 5 => ks' == ks
    case 8 => n > 2 && (ks' == ks[..n - 3] + [ks[n - 3]] || ks' == ks[..n - 3] + [ks[n - 2]])
    case 9 => Gives(ks, 1 + c.params, c.results, ks')
    case 10 => ks' == ks
    case 11 => Gives(ks, 1 + c.params, [], ks')
    case 16 => Gives(ks, 0, [KindOf(cx.globals[x])], ks')
    case 18 => ks' == ks
    case 19 => x < |ls| && ks' == ks + [ls[x]]
    case 21 => ks' == ks
    case 22 => Gives(ks, 0, [cx.constants[x].kind], ks')
    case 23 => Gives(ks, 0, [KindOf(cx.captures[x])], ks')
    case 180 => Gives(ks, 1 + c.params, [Ref], ks')
    case 190 => cx.types[x].Struct? && Gives(ks, |cx.types[x].fields|, [Ref], ks')
    case _ => HandsOf(op).Some? && Gives(ks, |HandsOf(op).value.takes|, HandsOf(op).value.gives, ks')
  }

  /** What the locals hold afterwards: a store keeps the kind of what it stores. */
  ghost function Stored(code: seq<Byte>, ip: int, ks: seq<Kind>, ls: seq<Kind>): seq<Kind>
    requires 0 <= ip < |code|
  {
    var x := Operand(code, ip);
    if (code[ip] == 20 || code[ip] == 21) && ks != [] && x < |ls| then ls[x := ks[|ks| - 1]] else ls
  }

  /** One step of the machine: any instruction may also raise. */
  ghost predicate Steps(cx: Context, code: seq<Byte>, hs: seq<Handler>, calls: int -> Callee, x: Typed, y: Typed) {
    && x.Holding? && 0 <= x.ip < |code| && InBounds(cx, code, x.ip)
    && var u := UseOf(cx, code, x.ip, Sig(calls(x.ip)));
    if u.Some? && |x.ks| < u.value.need then y == Short(x.ip)
    else if exists at :: Misread(code[x.ip], x.ks, at)
        then y.Confused? && y.ip == x.ip && Misread(code[x.ip], x.ks, y.at)
    else
      || (y.Holding? && Goes(code, x.ip, y.ip) && Leaves(cx, code, x.ip, calls(x.ip), x.ks, x.ls, y.ks)
          && y.ls == Stored(code, x.ip, x.ks, x.ls))
      || (y == Gone && Stops(code[x.ip]))
      || (match HandlerFor(hs, x.ip)
          case None => y == Gone
          case Some(h) => y.Holding? && y.ip == h.catch && |y.ks| == Landed(cx, h) && y.ls == x.ls)
  }

  ghost predicate TypedRun(cx: Context, code: seq<Byte>, hs: seq<Handler>, calls: int -> Callee, run: seq<Typed>) {
    && |run| > 0 && run[0].Holding? && run[0].ip == 0 && run[0].ks == []
    && forall n :: 0 <= n < |run| - 1 ==> Steps(cx, code, hs, calls, run[n], run[n + 1])
  }

  /** The locals hold what they are declared to hold. */
  ghost predicate Kept(cx: Context, x: Typed) {
    x.Holding? ==> |x.ls| == |cx.locals| && forall i :: 0 <= i < |x.ls| ==> Fits(x.ls[i], KindOf(cx.locals[i]))
  }

  /** A word of kind k is one that the abstract entry stands for: of its kind, and a reference when it is a function. */
  predicate Word(k: Kind, e: Slot) {
    Fits(k, e.kind) && (e.typ.Some? && e.typ.value.Fn? ==> k == Ref)
  }

  /** The words on the stack are ones that the abstract entries stand for. */
  ghost predicate Covers(ks: seq<Kind>, st: seq<Slot>) {
    |ks| == |st| && forall i :: 0 <= i < |ks| ==> Word(ks[i], st[i])
  }

  /** Functions in the constant pool are references. */
  ghost predicate Pooled(cx: Context) {
    forall i :: 0 <= i < |cx.constants| ==>
      (cx.constants[i].typ.Some? && cx.constants[i].typ.value.Fn? ==> cx.constants[i].kind == Ref)
  }

  /** What is called has the parameters and leaves the results the analysis found on the stack, and an array is made of
      one element. */
  ghost predicate Agreed(code: seq<Byte>, ip: int, b: Option<seq<Slot>>, c: Callee) {
    && Matches(code, ip, b, Sig(c))
    && (0 <= ip < |code| && code[ip] == 9 ==>
          match Known(b)
          case Some(Fn(params, results)) =>
            |c.results| == |results| && forall i :: 0 <= i < |results| ==> Alike(c.results[i], KindOf(results[i]))
          case _ => true)
  }

  ghost predicate AllAgreed(cx: Context, code: seq<Byte>, s: seq<int>, nodes: seq<Node>, entries: seq<Entry>,
                            calls: int -> Callee)
    requires Layout(code, s) && AllInBounds(cx, code, s) && |entries| == |nodes|
  {
    forall j, k, m :: StartsAt(s, nodes, j, k) && k <= m < |s| - 1 && entries[j].Some? ==>
      Agreed(code, s[m], Before(cx, code, s, k, entries[j].value, m), calls(s[m]))
  }

  lemma TypeWord(t: Type, k: Kind)
    requires Fits(k, KindOf(t))
    ensures Word(k, TypeSlot(t))
  {
  }

  lemma ConstantWord(e: Slot, k: Kind)
    requires Fits(k, e.kind) && (e.typ.Some? && e.typ.value.Fn? ==> e.kind == Ref)
    ensures Word(k, e)
  {
  }

  lemma GivesCovers(ks: seq<Kind>, n: nat, gives: seq<Kind>, ks': seq<Kind>, st: seq<Slot>, pushed: seq<Slot>)
    requires Gives(ks, n, gives, ks') && Covers(ks, st) && |pushed| == |gives|
    requires forall i, k :: 0 <= i < |gives| && Fits(k, gives[i]) ==> Word(k, pushed[i])
    ensures Covers(ks', Dropped(st, n) + pushed)
  {
    hide Fits, Word;
    var st' := Dropped(st, n) + pushed;
    forall i | 0 <= i < |ks'|
      ensures Word(ks'[i], st'[i])
    {
      if i < |ks| - n {
        assert ks'[i] == ks'[..|ks| - n][i] && ks[i] == ks[..|ks| - n][i];
      } else {
        assert Fits(ks'[|ks| - n + (i - (|ks| - n))], gives[i - (|ks| - n)]);
      }
    }
  }

  /** Popping kinds finds each acceptable, from the top down. */
  lemma {:induction false} PoppedFit(st: seq<Slot>, want: seq<Kind>)
    requires |want| <= |st| && Popped(st, want).Some?
    ensures forall i :: 0 <= i < |want| ==> Accepts(st[|st| - 1 - i].kind, want[i])
    decreases |want|
  {
    hide Accepts;
    if want != [] {
      PoppedFit(Dropped(st, 1), want[1..]);
      forall i | 0 <= i < |want|
        ensures Accepts(st[|st| - 1 - i].kind, want[i])
      {
        if i > 0 {
          assert Dropped(st, 1)[|st| - 2 - (i - 1)] == st[|st| - 1 - i] && want[1..][i - 1] == want[i];
        }
      }
    }
  }

  lemma FixedCovers(cx: Context, code: seq<Byte>, ip: int, st: seq<Slot>, ks: seq<Kind>, ls: seq<Kind>, c: Callee,
                    ks': seq<Kind>)
    requires 0 <= ip < |code| && InBounds(cx, code, ip) && StepOf(cx, code, ip, st).Continue? && Covers(ks, st)
    requires !Special(code[ip]) && code[ip] != 180 && Leaves(cx, code, ip, c, ks, ls, ks')
    ensures Covers(ks', StepOf(cx, code, ip, st).st)
  {
    hide Fixed, HandsOf, Popped, CallEffect, Operand, AcceptsType, InBounds, Fits, Covers, Gives;
    var op := code[ip];
    HandsMatch(op);
    var e, h := Fixed(op).value, HandsOf(op).value;
    PoppedIs(st, e.pop);
    GivesCovers(ks, |h.takes|, h.gives, ks', st, Untyped(e.push));
  }

  lemma ArrayCovers(cx: Context, code: seq<Byte>, ip: int, st: seq<Slot>, ks: seq<Kind>, ls: seq<Kind>, c: Callee,
                    ks': seq<Kind>)
    requires 0 <= ip < |code| && InBounds(cx, code, ip) && StepOf(cx, code, ip, st).Continue? && Covers(ks, st)
    requires code[ip] == 180 && c.params == 1 && Leaves(cx, code, ip, c, ks, ls, ks')
    ensures Covers(ks', StepOf(cx, code, ip, st).st)
  {
    hide Fixed, Popped, CallEffect, Operand, AcceptsType, InBounds, Fits, Covers, Gives;
    ArrayEffect();
    PoppedIs(st, [I32, Any]);
    GivesCovers(ks, 2, [Ref], ks', st, Untyped([Ref]));
  }

  lemma CallCovers(st: seq<Slot>, ks: seq<Kind>, c: Callee, ks': seq<Kind>, tail: bool)
    requires Covers(ks, st) && CallEffect(st, tail).Continue?
    requires c.params == |Top(st).typ.value.params|
    requires Gives(ks, 1 + c.params, if tail then [] else c.results, ks')
    requires !tail ==> var rs := Top(st).typ.value.results;
               |c.results| == |rs| && forall i :: 0 <= i < |rs| ==> Alike(c.results[i], KindOf(rs[i]))
    ensures Covers(ks', CallEffect(st, tail).st)
  {
    hide Covers, Gives;
    var fn := Top(st).typ.value;
    assert Dropped(Dropped(st, 1), |fn.params|) == Dropped(st, 1 + c.params);
    if tail {
      GivesCovers(ks, 1 + c.params, [], ks', st, []);
      assert Dropped(st, 1 + c.params) + [] == Dropped(st, 1 + c.params);
    } else {
      GivesCovers(ks, 1 + c.params, c.results, ks', st, Slots(fn.results));
    }
  }

  /** What a bitwise operation leaves is an integer of at most 32 bits, which is what is known of it if anything is. */
  lemma BitwiseFits(a: Kind, b: Kind, k: Kind)
    requires Accepts(a, I32) && Accepts(b, I32) && Fits(k, I32)
    ensures Fits(k, BitwiseKind(a, b))
  {
  }

  lemma BitwiseCovers(cx: Context, code: seq<Byte>, ip: int, st: seq<Slot>, ks: seq<Kind>, ls: seq<Kind>, c: Callee,
                      ks': seq<Kind>)
    requires 0 <= ip < |code| && InBounds(cx, code, ip) && StepOf(cx, code, ip, st).Continue? && Covers(ks, st)
    requires Bitwise(code[ip]) && Leaves(cx, code, ip, c, ks, ls, ks')
    ensures Covers(ks', StepOf(cx, code, ip, st).st)
  {
    hide Fixed, HandsOf, Popped, CallEffect, Operand, AcceptsType, InBounds, Fits, Covers, Gives, Accepts, BitwiseKind;
    VariableHands(code[ip]);
    var n := |st|;
    var a, b := st[n - 2].kind, st[n - 1].kind;
    forall k | Fits(k, I32)
      ensures Fits(k, BitwiseKind(a, b))
    {
      BitwiseFits(a, b, k);
    }
    GivesCovers(ks, 2, [I32], ks', st, [Slot(BitwiseKind(a, b), None)]);
  }

  /** Loads of anything but locals, stores, and new records. */
  lemma LoadCovers(cx: Context, code: seq<Byte>, ip: int, st: seq<Slot>, ks: seq<Kind>, ls: seq<Kind>, c: Callee,
                   ks': seq<Kind>)
    requires 0 <= ip < |code| && InBounds(cx, code, ip) && StepOf(cx, code, ip, st).Continue? && Covers(ks, st)
    requires code[ip] in {GLOBAL_GET, CONST_GET, UPVAL_GET, GLOBAL_SET, STRUCT_NEW} && Pooled(cx)
    requires Leaves(cx, code, ip, c, ks, ls, ks')
    ensures Covers(ks', StepOf(cx, code, ip, st).st)
  {
    hide Fixed, HandsOf, Popped, CallEffect, Operand, AcceptsType, Fits, Covers, Gives;
    var op, x := code[ip], Operand(code, ip);
    VariableHands(op);
    assert Dropped(st, 0) == st;
    if op == GLOBAL_GET {
      forall k | Fits(k, KindOf(cx.globals[x])) ensures Word(k, TypeSlot(cx.globals[x])) {
        TypeWord(cx.globals[x], k);
      }
      GivesCovers(ks, 0, [KindOf(cx.globals[x])], ks', st, [TypeSlot(cx.globals[x])]);
    } else if op == CONST_GET {
      forall k | Fits(k, cx.constants[x].kind) ensures Word(k, cx.constants[x]) {
        ConstantWord(cx.constants[x], k);
      }
      GivesCovers(ks, 0, [cx.constants[x].kind], ks', st, [cx.constants[x]]);
    } else if op == UPVAL_GET {
      forall k | Fits(k, KindOf(cx.captures[x])) ensures Word(k, TypeSlot(cx.captures[x])) {
        TypeWord(cx.captures[x], k);
      }
      GivesCovers(ks, 0, [KindOf(cx.captures[x])], ks', st, [TypeSlot(cx.captures[x])]);
    } else if op == GLOBAL_SET {
      GivesCovers(ks, 1, [], ks', st, []);
      assert Dropped(st, 1) + [] == Dropped(st, 1);
    } else {
      GivesCovers(ks, |cx.types[x].fields|, [Ref], ks', st, [TypeSlot(cx.types[x])]);
    }
  }

  /** Copies, exchanges and loads of locals. */
  lemma MoveCovers(cx: Context, code: seq<Byte>, ip: int, st: seq<Slot>, ks: seq<Kind>, ls: seq<Kind>, c: Callee,
                   ks': seq<Kind>)
    requires 0 <= ip < |code| && InBounds(cx, code, ip) && StepOf(cx, code, ip, st).Continue? && Covers(ks, st)
    requires code[ip] in {NOP, UNREACHABLE, BR, LOCAL_TEE, GLOBAL_TEE, RETURN, DUP, SWAP, SELECT, LOCAL_GET}
    requires |ls| == |cx.locals| && forall i :: 0 <= i < |ls| ==> Fits(ls[i], KindOf(cx.locals[i]))
    requires Leaves(cx, code, ip, c, ks, ls, ks')
    ensures Covers(ks', StepOf(cx, code, ip, st).st)
  {
    hide Fixed, HandsOf, Popped, CallEffect, Operand, AcceptsType, Alike, Gives;
    var n := |st|;
    assert n > 0 ==> Word(ks[n - 1], st[n - 1]);
    assert n > 1 ==> Word(ks[n - 2], st[n - 2]);
    assert n > 2 ==> Word(ks[n - 3], st[n - 3]);
    if code[ip] == LOCAL_GET {
      TypeWord(cx.locals[Operand(code, ip)], ls[Operand(code, ip)]);
    }
  }

  /** The machine's words stay ones that fit the abstract entries. */
  lemma StepCovers(cx: Context, code: seq<Byte>, ip: int, st: seq<Slot>, ks: seq<Kind>, ls: seq<Kind>, c: Callee,
                   ks': seq<Kind>)
    requires 0 <= ip < |code| && InBounds(cx, code, ip) && StepOf(cx, code, ip, st).Continue? && Covers(ks, st)
    requires Pooled(cx) && Agreed(code, ip, Some(st), c) && Leaves(cx, code, ip, c, ks, ls, ks')
    requires |ls| == |cx.locals| && forall i :: 0 <= i < |ls| ==> Fits(ls[i], KindOf(cx.locals[i]))
    ensures Covers(ks', StepOf(cx, code, ip, st).st)
  {
    hide Fixed, HandsOf, Popped, CallEffect, Operand, AcceptsType, Fits, Covers, Gives, Alike;
    var op := code[ip];
    if op == CALL || op == RETURN_CALL {
      CalleeKnown(st, op == RETURN_CALL);
      CallCovers(st, ks, c, ks', op == RETURN_CALL);
    } else if Bitwise(op) {
      BitwiseCovers(cx, code, ip, st, ks, ls, c, ks');
    } else if op in {GLOBAL_GET, CONST_GET, UPVAL_GET, GLOBAL_SET, STRUCT_NEW} {
      LoadCovers(cx, code, ip, st, ks, ls, c, ks');
    } else if op == 180 {
      ArrayCovers(cx, code, ip, st, ks, ls, c, ks');
    } else if Special(op) {
      MoveCovers(cx, code, ip, st, ks, ls, c, ks');
    } else {
      FixedCovers(cx, code, ip, st, ks, ls, c, ks');
    }
  }

  lemma CalleeKnown(st: seq<Slot>, tail: bool)
    requires CallEffect(st, tail).Continue?
    ensures st != [] && Top(st).typ.Some? && Top(st).typ.value.Fn? && Known(Some(st)) == Top(st).typ
  {
  }

  /** An operand that a handler reads by another kind is one the analysis knows nothing of, or a select's condition,
      which it does not look at. */
  lemma MisreadUnknown(cx: Context, code: seq<Byte>, ip: int, st: seq<Slot>, ks: seq<Kind>, at: int)
    requires 0 <= ip < |code| && InBounds(cx, code, ip) && StepOf(cx, code, ip, st).Continue? && Covers(ks, st)
    requires Misread(code[ip], ks, at)
    ensures 0 <= at < |st| && (st[at].kind == Any || (code[ip] == SELECT && at == |st| - 1))
  {
    hide Fixed, HandsOf, Popped, CallEffect, Operand, AcceptsType, InBounds, Fits, Accepts;
    var op, n := code[ip], |ks| - |Reads(code[ip])|;
    assert Word(ks[at], st[at]);
    FitsAny(ks[at]);
    VariableHands(op);
    if op == CALL || op == RETURN_CALL {
      CalleeKnown(st, op == RETURN_CALL);
    } else if op == 180 {
      ArrayEffect();
      PoppedFit(st, [I32, Any]);
      assert Accepts(st[|st| - 1 - 0].kind, [I32, Any][0]);
      AcceptsIff(st[at].kind, I32);
    } else if Bitwise(op) {
      AcceptsIff(st[at].kind, I32);
    } else if !Special(op) {
      HandsMatch(op);
      var e := Fixed(op).value;
      PoppedFit(st, e.pop);
      var i := at - n;
      assert Accepts(st[|st| - 1 - (|e.pop| - 1 - i)].kind, e.pop[|e.pop| - 1 - i]);
      AcceptsIff(st[at].kind, Reads(op)[i]);
    } else if op != SELECT {
      PlainReads(op);
    }
  }

  lemma FitsAny(k: Kind)
    ensures Fits(k, Any) && Fits(k, k)
  {
  }

  /** The analysis treats these instructions on their own: they take anything. */
  lemma PlainReads(op: Byte)
    requires Special(op) && op != CALL && op != RETURN_CALL && op != SELECT && !Bitwise(op)
    ensures forall i :: 0 <= i < |Reads(op)| ==> Reads(op)[i] == Any
  {
    hide HandsOf;
    VariableHands(op);
    MovingHands(op);
  }

  /** At instruction m of block j the machine's words are ones that the abstract entries stand for. */
  ghost predicate KindsAt(cx: Context, code: seq<Byte>, s: seq<int>, nodes: seq<Node>, entries: seq<Entry>, ip: int,
                          ks: seq<Kind>, j: int, k: int, m: int)
    requires Layout(code, s) && AllInBounds(cx, code, s) && |entries| == |nodes|
  {
    && Tracked(cx, code, s, nodes, entries, ip, |ks|, j, k, m)
    && Covers(ks, Before(cx, code, s, k, entries[j].value, m).value)
  }

  /** Entry `at` of the abstract stack at the instruction at ip is of no known kind, or it is a select's condition. */
  ghost predicate Overlooked(cx: Context, code: seq<Byte>, s: seq<int>, nodes: seq<Node>, entries: seq<Entry>, ip: int,
                          at: int)
    requires Layout(code, s) && AllInBounds(cx, code, s) && |entries| == |nodes|
  {
    exists j, k, m, h :: Tracked(cx, code, s, nodes, entries, ip, h, j, k, m) && 0 <= at < h && 0 <= ip < |code|
      && (Before(cx, code, s, k, entries[j].value, m).value[at].kind == Any || (code[ip] == SELECT && at == h - 1))
  }

  ghost predicate Typing(cx: Context, code: seq<Byte>, s: seq<int>, nodes: seq<Node>, entries: seq<Entry>, x: Typed)
    requires Layout(code, s) && AllInBounds(cx, code, s) && |entries| == |nodes|
  {
    match x
    case Holding(ip, ks, _) => ip == |code| || exists j, k, m :: KindsAt(cx, code, s, nodes, entries, ip, ks, j, k, m)
    case Gone => true
    case Short(_) => false
    case Confused(ip, at) => Overlooked(cx, code, s, nodes, entries, ip, at)
  }

  lemma BelowCovers(ks: seq<Kind>, a: seq<Slot>, b: seq<Slot>)
    requires Covers(ks, a) && Below(a, b)
    ensures Covers(ks, b)
  {
    forall i | 0 <= i < |ks|
      ensures Word(ks[i], b[i])
    {
      assert SlotBelow(a[i], b[i]) && Word(ks[i], a[i]);
    }
  }

  /** Whatever a handler is handed, a catch block expects. */
  lemma SeedCovers(cx: Context, h: Handler, ks: seq<Kind>, e: Entry)
    requires Admits(e, Seed(cx, h)) && |ks| == |Seed(cx, h)|
    ensures e.Some? && Covers(ks, e.value)
  {
    forall i | 0 <= i < |ks|
      ensures Word(ks[i], e.value[i])
    {
      assert SlotBelow(Seed(cx, h)[i], e.value[i]);
    }
  }

  /** Control that enters a block with words its entry stands for. */
  lemma EnterCovers(cx: Context, code: seq<Byte>, hs: seq<Handler>, s: seq<int>, nodes: seq<Node>, starts: seq<int>,
                    entries: seq<Entry>, i: int, ks: seq<Kind>, ls: seq<Kind>)
    requires Layout(code, s) && |code| > 0 && AllInBounds(cx, code, s) && Aligned(cx, code, hs, s)
    requires NodesBy(code, hs, s, nodes, starts)
    requires |entries| == |nodes| && 0 <= i < |nodes| && entries[i].Some? && Covers(ks, entries[i].value)
    ensures Typing(cx, code, s, nodes, entries, Holding(nodes[i].start, ks, ls))
  {
    hide Leader, Aligned, Flows, Layout, NodesBy, StepOf, AllInBounds, Word;
    BlockSpan(cx, code, hs, s, nodes, starts, i);
    LayoutEnds(code, s);
    var k :| 0 <= k < |s| && s[k] == nodes[i].start;
    assert KindsAt(cx, code, s, nodes, entries, nodes[i].start, ks, i, k, k);
  }

  /** The step after instruction m of block j. */
  lemma GoesTyped(cx: Context, code: seq<Byte>, hs: seq<Handler>, s: seq<int>, nodes: seq<Node>, starts: seq<int>,
                  entries: seq<Entry>, ip: int, j: int, k: int, m: int, ip': int, h: int, ks': seq<Kind>,
                  ls': seq<Kind>)
    requires Layout(code, s) && |code| > 0 && AllInBounds(cx, code, s) && Aligned(cx, code, hs, s)
    requires NodesBy(code, hs, s, nodes, starts) && TablesEnd(code, hs, s)
    requires PostFixpoint(cx, code, hs, nodes, entries) && Tracked(cx, code, s, nodes, entries, ip, h, j, k, m)
    requires 0 <= ip < |code| && Goes(code, ip, ip') && InBounds(cx, code, ip)
    requires var v := StepOf(cx, code, ip, Before(cx, code, s, k, entries[j].value, m).value);
             v.Continue? ==> Covers(ks', v.st)
    ensures Typing(cx, code, s, nodes, entries, Holding(ip', ks', ls'))
  {
    hide Leader, Aligned, Layout, NodesBy, StepOf, AllInBounds, InBounds, Goes, Admits, SeedsIn, ExecOf, Covers, Word,
         TablesEnd;
    BlockSpan(cx, code, hs, s, nodes, starts, j);
    TrackedSteps(cx, code, s, nodes, entries, ip, h, j, k, m);
    var v := StepOf(cx, code, ip, Before(cx, code, s, k, entries[j].value, m).value);
    if ip' != |code| {
      NotInterior(code, hs, s, m);
      var i := Edge(cx, code, hs, s, nodes, starts, j, m, ip');
      if i == -1 {
        LayoutNext(code, s, m);
        CoversSize(ks', v.st);
        assert KindsAt(cx, code, s, nodes, entries, ip', ks', j, k, m + 1) by { InLast(code, s, m); }
      } else {
        AdmitsCovers(ks', entries[i], v.st);
        EnterCovers(cx, code, hs, s, nodes, starts, entries, i, ks', ls');
      }
    }
  }

  lemma CoversSize(ks: seq<Kind>, st: seq<Slot>)
    requires Covers(ks, st)
    ensures |ks| == |st|
  {
  }

  lemma NotInterior(code: seq<Byte>, hs: seq<Handler>, s: seq<int>, m: int)
    requires Layout(code, s) && TablesEnd(code, hs, s)
    ensures !Interior(code, hs, s, m)
  {
    hide Leader, Layout;
  }

  lemma AdmitsCovers(ks: seq<Kind>, e: Entry, st: seq<Slot>)
    requires Admits(e, st) && Covers(ks, st)
    ensures e.Some? && Covers(ks, e.value)
  {
    hide Covers, Below;
    BelowCovers(ks, st, e.value);
  }

  /** A caught exception. */
  lemma CaughtTyped(cx: Context, code: seq<Byte>, hs: seq<Handler>, s: seq<int>, nodes: seq<Node>, starts: seq<int>,
                    entries: seq<Entry>, h: Handler, ks: seq<Kind>, ls: seq<Kind>)
    requires Layout(code, s) && |code| > 0 && AllInBounds(cx, code, s) && Aligned(cx, code, hs, s)
    requires NodesBy(code, hs, s, nodes, starts)
    requires PostFixpoint(cx, code, hs, nodes, entries) && DepthsOk(cx, hs) && h in hs && |ks| == Landed(cx, h)
    ensures Typing(cx, code, s, nodes, entries, Holding(h.catch, ks, ls))
  {
    hide Layout, AllInBounds, Settled, Admits, Typing, Flows, Leads, Covers;
    CatchLeads(cx, code, hs, s, h);
    assert h.catch in starts;
    var i :| 0 <= i < |starts| && starts[i] == h.catch;
    assert NodeIs(code, starts, nodes[i], i);
    var n :| 0 <= n < |hs| && hs[n] == h;
    assert Admits(entries[i], Seed(cx, hs[n]));
    SeedCovers(cx, h, ks, entries[i]);
    EnterCovers(cx, code, hs, s, nodes, starts, entries, i, ks, ls);
  }

  /** One machine step from a typed state. */
  lemma StepTyped(cx: Context, code: seq<Byte>, hs: seq<Handler>, s: seq<int>, nodes: seq<Node>, entries: seq<Entry>,
                  calls: int -> Callee, x: Typed, y: Typed)
    requires Verified(cx, code, hs, s, nodes, entries) && AllAgreed(cx, code, s, nodes, entries, calls) && Pooled(cx)
    requires Typing(cx, code, s, nodes, entries, x) && Steps(cx, code, hs, calls, x, y) && Kept(cx, x)
    ensures Typing(cx, code, s, nodes, entries, y)
  {
    hide Layout, AllInBounds, Aligned, NodesBy, DepthsOk, PostFixpoint, Goes, UseOf, StepOf, InBounds, Tracked, Misread,
         HandlerFor, Landed, Before, AllAgreed, TablesEnd, Leaves, Stored, Covers, Fits, Pooled, Agreed;
    var starts :| NodesBy(code, hs, s, nodes, starts);
    EntriesFit(cx, code, hs, nodes, entries);
    var j, k, m :| KindsAt(cx, code, s, nodes, entries, x.ip, x.ks, j, k, m);
    TrackedAt(cx, code, s, nodes, entries, x.ip, |x.ks|, j, k, m);
    OperandsThere(cx, code, hs, s, nodes, starts, entries, calls, x.ip, x.ks, j, k, m);
    var b := Before(cx, code, s, k, entries[j].value, m).value;
    if y.Confused? {
      MisreadUnknown(cx, code, x.ip, b, x.ks, y.at);
      CoversSize(x.ks, b);
      assert Overlooked(cx, code, s, nodes, entries, x.ip, y.at);
    } else if y.Holding? && Goes(code, x.ip, y.ip) && Leaves(cx, code, x.ip, calls(x.ip), x.ks, x.ls, y.ks) {
      StepCovers(cx, code, x.ip, b, x.ks, x.ls, calls(x.ip), y.ks);
      GoesTyped(cx, code, hs, s, nodes, starts, entries, x.ip, j, k, m, y.ip, |x.ks|, y.ks, y.ls);
    } else if y.Holding? {
      Blocks.HandlerIn(hs, x.ip);
      CaughtTyped(cx, code, hs, s, nodes, starts, entries, HandlerFor(hs, x.ip).value, y.ks, y.ls);
    }
  }

  /** At a typed state the machine has its operands. */
  lemma OperandsThere(cx: Context, code: seq<Byte>, hs: seq<Handler>, s: seq<int>, nodes: seq<Node>, starts: seq<int>,
                      entries: seq<Entry>, calls: int -> Callee, ip: int, ks: seq<Kind>, j: int, k: int, m: int)
    requires Layout(code, s) && |code| > 0 && AllInBounds(cx, code, s) && Aligned(cx, code, hs, s)
    requires NodesBy(code, hs, s, nodes, starts)
    requires PostFixpoint(cx, code, hs, nodes, entries) && AllAgreed(cx, code, s, nodes, entries, calls)
    requires KindsAt(cx, code, s, nodes, entries, ip, ks, j, k, m)
    ensures 0 <= ip < |code| && InBounds(cx, code, ip) && Before(cx, code, s, k, entries[j].value, m).Some?
    ensures var b := Before(cx, code, s, k, entries[j].value, m).value;
            && StepOf(cx, code, ip, b).Continue? && Covers(ks, b) && Agreed(code, ip, Some(b), calls(ip))
            && Tracked(cx, code, s, nodes, entries, ip, |ks|, j, k, m)
    ensures var u := UseOf(cx, code, ip, Sig(calls(ip))); u.Some? && |ks| >= u.value.need
  {
    hide Layout, AllInBounds, Aligned, NodesBy, UseOf, StepOf, InBounds, Exit, Admits, SeedsIn, Covers, Before;
    BlockSpan(cx, code, hs, s, nodes, starts, j);
    TrackedSteps(cx, code, s, nodes, entries, ip, |ks|, j, k, m);
    assert Agreed(code, s[m], Before(cx, code, s, k, entries[j].value, m), calls(s[m]));
    StepHeight(cx, code, ip, Before(cx, code, s, k, entries[j].value, m).value, Sig(calls(ip)));
  }

  /** As long as the locals hold what they are declared to, every state of every run of a verified body is typed: the
      words on the stack fit what is known of them, no operand is missing, and an instruction misreads one only where
      the analysis knows no kind, or as a select's condition. */
  lemma {:induction false} RunsTyped(cx: Context, code: seq<Byte>, hs: seq<Handler>, s: seq<int>, nodes: seq<Node>,
                                     entries: seq<Entry>, calls: int -> Callee, run: seq<Typed>, n: nat)
    requires Verified(cx, code, hs, s, nodes, entries) && AllAgreed(cx, code, s, nodes, entries, calls) && Pooled(cx)
    requires TypedRun(cx, code, hs, calls, run) && n < |run| && forall i :: 0 <= i < n ==> Kept(cx, run[i])
    ensures Typing(cx, code, s, nodes, entries, run[n])
  {
    hide Layout, Verified, AllInBounds, Steps, AllAgreed, KindsAt, Overlooked, Kept, Pooled;
    VerifiedFits(cx, code, hs, s, nodes, entries);
    if n == 0 {
      StartTyped(cx, code, hs, s, nodes, entries, run[0].ls);
    } else {
      RunsTyped(cx, code, hs, s, nodes, entries, calls, run, n - 1);
      assert Steps(cx, code, hs, calls, run[n - 1], run[n]);
      StepTyped(cx, code, hs, s, nodes, entries, calls, run[n - 1], run[n]);
    }
  }

  lemma VerifiedFits(cx: Context, code: seq<Byte>, hs: seq<Handler>, s: seq<int>, nodes: seq<Node>, entries: seq<Entry>)
    requires Verified(cx, code, hs, s, nodes, entries)
    ensures Layout(code, s) && |code| > 0 && AllInBounds(cx, code, s) && |entries| == |nodes|
  {
    hide Layout, AllInBounds, Aligned, IsCfg, DepthsOk, TablesEnd;
  }

  lemma StartTyped(cx: Context, code: seq<Byte>, hs: seq<Handler>, s: seq<int>, nodes: seq<Node>, entries: seq<Entry>,
                   ls: seq<Kind>)
    requires Verified(cx, code, hs, s, nodes, entries)
    ensures Layout(code, s) && AllInBounds(cx, code, s) && |entries| == |nodes|
    ensures Typing(cx, code, s, nodes, entries, Holding(0, [], ls))
  {
    hide Layout, AllInBounds, Aligned, DepthsOk, Settled, SeedsIn, Leader, Flows, TablesEnd, Typing;
    var starts :| NodesBy(code, hs, s, nodes, starts);
    assert NodeIs(code, starts, nodes[0], 0);
    EnterCovers(cx, code, hs, s, nodes, starts, entries, 0, [], ls);
  }

  /** The analysis knows every kind. */
  ghost predicate AllKnown(cx: Context, code: seq<Byte>, s: seq<int>, nodes: seq<Node>, entries: seq<Entry>)
    requires Layout(code, s) && AllInBounds(cx, code, s) && |entries| == |nodes|
  {
    forall ip, h, j, k, m :: Tracked(cx, code, s, nodes, entries, ip, h, j, k, m) ==>
      forall e :: e in Before(cx, code, s, k, entries[j].value, m).value ==> e.kind != Any
  }

  /** A body whose analysis knows every kind, and that has no select, has no run that misreads an operand or misses one,
      as long as its locals hold what they are declared to. */
  lemma NeverConfused(cx: Context, code: seq<Byte>, hs: seq<Handler>, s: seq<int>, nodes: seq<Node>,
                      entries: seq<Entry>, calls: int -> Callee, run: seq<Typed>, n: nat)
    requires Verified(cx, code, hs, s, nodes, entries) && AllAgreed(cx, code, s, nodes, entries, calls) && Pooled(cx)
    requires TypedRun(cx, code, hs, calls, run) && n < |run| && forall i :: 0 <= i < n ==> Kept(cx, run[i])
    requires AllKnown(cx, code, s, nodes, entries) && forall m :: 0 <= m < |s| - 1 ==> code[s[m]] != SELECT
    ensures !run[n].Confused? && !run[n].Short?
  {
    hide Layout, Verified, AllInBounds, TypedRun, AllAgreed, KindsAt, Kept, Pooled, Before;
    VerifiedFits(cx, code, hs, s, nodes, entries);
    RunsTyped(cx, code, hs, s, nodes, entries, calls, run, n);
  }
}
