/** What an expression means: code that computes it pushes one value, whatever path leads to it. */
module GroupValues {
  import opened Bytecode
  import opened Stacks
  import opened Numbering
  import opened Terms
  import opened EditRuns
  import opened Opcodes
  import Blocks
  import Compaction

  /** What the meaning of groups rests on: the locals at entry, the values of leaves, the pure operations. */
  datatype Env = Env(locals: seq<int>, leaf: seq<Byte> -> int, eval: (Byte, seq<int>) -> Option<int>)

  /** The value of an expression. None when computing it traps. */
  ghost function TermValue(env: Env, t: Term): Option<int>
    decreases t
  {
    match t
    case Unknown => None
    case LocalTerm(slot) => if 0 <= slot < |env.locals| then Some(env.locals[slot]) else None
    case LeafTerm(core) => Some(env.leaf(core))
    case OpTerm(op, args) =>
      var vs := TermValues(env, args);
      if vs.None? then None else env.eval(op, vs.value)
  }

  ghost function TermValues(env: Env, args: seq<Term>): (r: Option<seq<int>>)
    ensures r.Some? ==> |r.value| == |args| && forall i ::
      0 <= i < |args| ==> TermValue(env, args[i]) == Some(r.value[i])
    ensures r.None? ==> exists i :: 0 <= i < |args| && TermValue(env, args[i]).None?
    decreases args
  {
    if args == [] then Some([])
    else
      var v, vs := TermValue(env, args[0]), TermValues(env, args[1..]);
      if v.None? || vs.None? then None else Some([v.value] + vs.value)
  }

  function Plus(st: State, extra: seq<int>): State {
    State(st.stack, st.locals + extra, st.world)
  }

  function PlusOutcome(o: Outcome, extra: seq<int>): Outcome {
    match o
    case Next(st) => Next(Plus(st, extra))
    case Jump(arm, st) => Jump(arm, Plus(st, extra))
    case Stop(st) => Stop(Plus(st, extra))
    case Raise(st) => Raise(Plus(st, extra))
  }

  predicate IsLocalOp(op: Byte) {
    op == LOCAL_GET || op == LOCAL_SET || op == LOCAL_TEE
  }

  /** The local a core names. */
  function Index(core: seq<Byte>): int {
    if |core| > 1 then core[1] else 0
  }

  /** How an instruction that does not end the run changes operand stack and locals. */
  ghost predicate Effects(env: Env, core: seq<Byte>, st: State, st': State)
    requires core != []
  {
    var op, n := core[0], |st.stack|;
    && (if op == LOCAL_SET || op == LOCAL_TEE then
          n > 0 && 0 <= Index(core) < |st.locals| && st'.locals == st.locals[Index(core) := st.stack[n - 1]]
        else st'.locals == st.locals)
    && (if Opaque(op) then true
        else if op == NOP || op == UNREACHABLE || op == BR || op == LOCAL_TEE || op == GLOBAL_TEE
            then st'.stack == st.stack
        else if Takes(op) then n > 0 && st'.stack == st.stack[..n - 1]
        else if op == LOCAL_GET then 0 <= Index(core) < |st.locals| && st'.stack == st.stack + [st.locals[Index(core)]]
        else if IsLeaf(op) then st'.stack == st.stack + [env.leaf(core)]
        else if op == GLOBAL_GET || op == UPVAL_GET then |st'.stack| == n + 1 && st'.stack[..n] == st.stack
        else if op == DUP then n > 0 && st'.stack == st.stack + [st.stack[n - 1]]
        else if op == SWAP then n >= 2 && st'.stack == st.stack[..n - 2] + [st.stack[n - 1], st.stack[n - 2]]
        else if op == SELECT then n >= 3 && |st'.stack| == n - 2 && st'.stack[..n - 3] == st.stack[..n - 3]
        else if IsPure(op) then
          && 0 < Pops(op) <= n && env.eval(op, st.stack[n - Pops(op)..]).Some?
          && st'.stack == st.stack[..n - Pops(op)] + [env.eval(op, st.stack[n - Pops(op)..]).value]
        else
          && Pops(op) <= n && |st'.stack| == n - Pops(op) + Pushes(op)
          && st'.stack[..n - Pops(op)] == st.stack[..n - Pops(op)])
  }

  /** What loads, leaves, pure operations and a tee do, exactly. */
  ghost predicate Does(sem: Semantics, env: Env, core: seq<Byte>, st: State)
    requires core != []
  {
    var op, n := core[0], |st.stack|;
    && (op == LOCAL_GET && 0 <= Index(core) < |st.locals| ==>
          sem(core, st) == Next(State(st.stack + [st.locals[Index(core)]], st.locals, st.world)))
    && (op == LOCAL_TEE && 0 <= Index(core) < |st.locals| && n > 0 ==>
          sem(core, st) == Next(State(st.stack, st.locals[Index(core) := st.stack[n - 1]], st.world)))
    && (IsLeaf(op) ==> sem(core, st) == Next(State(st.stack + [env.leaf(core)], st.locals, st.world)))
    && (IsPure(op) && 0 < Pops(op) <= n ==>
          match env.eval(op, st.stack[n - Pops(op)..])
          case Some(v) => sem(core, st) == Next(State(st.stack[..n - Pops(op)] + [v], st.locals, st.world))
          case None => sem(core, st).Raise?)
  }

  /** Instructions that name no local past the end do not see locals added there. */
  ghost predicate Blind(sem: Semantics, core: seq<Byte>, st: State, extra: seq<int>)
    requires core != []
  {
    (IsLocalOp(core[0]) ==> 0 <= Index(core) < |st.locals|) ==>
        sem(core, Plus(st, extra)) == PlusOutcome(sem(core, st), extra)
  }

  /** The machine reads the opcodes as the passes do. */
  ghost predicate Standard(sem: Semantics, env: Env) {
    && (forall core, st ::
       core != [] && (sem(core, st).Next? || sem(core, st).Jump?) ==> Effects(env, core, st, sem(core, st).state))
    && (forall core, st :: core != [] ==> Does(sem, env, core, st))
    && (forall core, st, extra :: core != [] ==> Blind(sem, core, st, extra))
  }

  /** Locals that are never assigned still hold what they held at entry. */
  ghost predicate StableHeld(stable: seq<bool>, env: Env, locals: seq<int>) {
    |locals| == |env.locals| == |stable| && forall i :: 0 <= i < |stable| && stable[i] ==> locals[i] == env.locals[i]
  }

  ghost predicate MatchAt(env: Env, t: Term, v: int) {
    t == Unknown || TermValue(env, t) == Some(v)
  }

  /** The entries are the top of the operand stack, and those whose expression is known hold its value. */
  ghost predicate Matches(env: Env, ts: seq<Term>, stack: seq<int>) {
    && |ts| <= |stack|
    && forall i :: 0 <= i < |ts| ==> MatchAt(env, ts[i], stack[|stack| - |ts| + i])
  }

  lemma MatchesBelow(env: Env, ts: seq<Term>, stack: seq<int>, n: nat)
    requires Matches(env, ts, stack) && n <= |stack|
    ensures Matches(env, Under(ts, n), stack[..|stack| - n])
  {
    hide MatchAt;
    var ts', stack' := Under(ts, n), stack[..|stack| - n];
    forall i | 0 <= i < |ts'|
      ensures MatchAt(env, ts'[i], stack'[|stack'| - |ts'| + i])
    {
      assert MatchAt(env, ts[i], stack[|stack| - |ts| + i]);
    }
  }

  lemma MatchesSnoc(env: Env, ts: seq<Term>, stack: seq<int>, t: Term, v: int)
    requires Matches(env, ts, stack) && MatchAt(env, t, v)
    ensures Matches(env, ts + [t], stack + [v])
  {
    hide MatchAt;
    var ts', stack' := ts + [t], stack + [v];
    forall i | 0 <= i < |ts'|
      ensures MatchAt(env, ts'[i], stack'[|stack'| - |ts'| + i])
    {
      if i < |ts| {
        assert MatchAt(env, ts[i], stack[|stack| - |ts| + i]);
      }
    }
  }

  /** The operands an instruction takes hold their expressions' values. */
  lemma ArgsMatch(env: Env, ts: seq<Term>, stack: seq<int>, base: int)
    requires Matches(env, ts, stack) && 0 <= base <= |ts|
    ensures |ts| - base <= |stack|
    ensures forall i :: 0 <= i < |ts| - base ==> MatchAt(env, ts[base..][i], stack[|stack| - (|ts| - base)..][i])
  {
    hide MatchAt;
    forall i | 0 <= i < |ts| - base
      ensures MatchAt(env, ts[base..][i], stack[|stack| - (|ts| - base)..][i])
    {
      assert MatchAt(env, ts[base + i], stack[|stack| - |ts| + (base + i)]);
    }
  }

  /** An operation on operands with values has the value the operation gives. */
  lemma OperationValue(env: Env, op: Byte, args: seq<Term>, vs: seq<int>)
    requires |args| == |vs| && forall i :: 0 <= i < |args| ==> TermValue(env, args[i]) == Some(vs[i])
    ensures TermValue(env, OpTerm(op, args)) == env.eval(op, vs)
  {
    var r := TermValues(env, args);
    assert r.Some?;
    assert r.value == vs;
  }

  /** A pure step leaves its expression's value on top. */
  lemma PureMatches(env: Env, op: Byte, ts: seq<Term>, stack: seq<int>, n: nat, v: int)
    requires Matches(env, ts, stack) && n <= |ts| && n <= |stack| && env.eval(op, stack[|stack| - n..]) == Some(v)
    ensures Matches(env, ts[..|ts| - n] + [Compose(op, ts[|ts| - n..])], stack[..|stack| - n] + [v])
  {
    hide TermValue, Matches;
    MatchesBelow(env, ts, stack, n);
    ArgsMatch(env, ts, stack, |ts| - n);
    var args, vs := ts[|ts| - n..], stack[|stack| - n..];
    if Unknown !in args {
      forall i | 0 <= i < |args|
        ensures TermValue(env, args[i]) == Some(vs[i])
      {
        assert args[i] in args && MatchAt(env, args[i], vs[i]);
      }
      OperationValue(env, op, args, vs);
    }
    MatchesSnoc(env, ts[..|ts| - n], stack[..|stack| - n], Compose(op, args), v);
  }

  /** Entries above the untouched ones are unknown: any values do. */
  lemma UnknownMatches(env: Env, ts: seq<Term>, stack: seq<int>, pops: nat, pushes: nat, stack': seq<int>)
    requires Matches(env, ts, stack) && pops <= |stack| && |stack'| == |stack| - pops + pushes
    requires stack'[..|stack| - pops] == stack[..|stack| - pops]
    ensures Matches(env, Under(ts, pops) + Unknowns(pushes), stack')
  {
    hide TermValue;
    MatchesBelow(env, ts, stack, pops);
    var us := Under(ts, pops) + Unknowns(pushes);
    forall i | 0 <= i < |us|
      ensures MatchAt(env, us[i], stack'[|stack'| - |us| + i])
    {
      if i < |us| - pushes {
        assert stack'[|stack'| - |us| + i] == stack[..|stack| - pops][|stack'| - |us| + i];
      }
    }
  }

  /** The local an instruction names is the one its core names. */
  lemma IndexIs(code: seq<Byte>, s: seq<int>, k: int)
    requires Layout(code, s) && 0 <= k < |s| - 1 && IsLocalOp(code[s[k]])
    ensures Index(Core(code, s[k])) == Operand(code, s[k]) && Core(code, s[k])[0] == code[s[k]]
  {
    LayoutNext(code, s, k);
  }

  lemma SwapMatches(env: Env, ts: seq<Term>, stack: seq<int>)
    requires Matches(env, ts, stack) && |ts| >= 2
    ensures |stack| >= 2
    ensures Matches(env, ts[..|ts| - 2] + [ts[|ts| - 1], ts[|ts| - 2]],
                    stack[..|stack| - 2] + [stack[|stack| - 1], stack[|stack| - 2]])
  {
    hide TermValue, Matches, MatchAt;
    var n, m := |ts|, |stack|;
    ArgsMatch(env, ts, stack, n - 2);
    assert MatchAt(env, ts[n - 2..][0], stack[m - 2..][0]) && MatchAt(env, ts[n - 2..][1], stack[m - 2..][1]);
    MatchesBelow(env, ts, stack, 2);
    MatchesSnoc(env, ts[..n - 2], stack[..m - 2], ts[n - 1], stack[m - 1]);
    MatchesSnoc(env, ts[..n - 2] + [ts[n - 1]], stack[..m - 2] + [stack[m - 1]], ts[n - 2], stack[m - 2]);
    assert ts[..n - 2] + [ts[n - 1], ts[n - 2]] == ts[..n - 2] + [ts[n - 1]] + [ts[n - 2]];
    assert stack[..m - 2] + [stack[m - 1], stack[m - 2]] == stack[..m - 2] + [stack[m - 1]] + [stack[m - 2]];
  }

  /** A machine step takes a matching stack to a matching stack. */
  lemma StepMatches(stable: seq<bool>, env: Env, code: seq<Byte>, s: seq<int>, k: int, ts: seq<Term>, st: State,
                    st': State)
    requires Layout(code, s) && 0 <= k < |s| - 1 && 0 <= s[k] < |code| && Matches(env, ts, st.stack)
    requires StableHeld(stable, env, st.locals)
    requires Core(code, s[k]) != [] && Core(code, s[k])[0] == code[s[k]] && Effects(env, Core(code, s[k]), st, st')
    ensures Matches(env, TermStep(stable, code, s[k], ts), st'.stack)
  {
    hide Layout, TermValue, Matches, Core, Width, Operand, IsPure, IsLeaf, Takes, Opaque, Pops, Pushes, MatchAt, Index,
         Compose, StableHeld;
    var op, n := code[s[k]], |ts|;
    MatchesSize(env, ts, st.stack);
    if Opaque(op) {
      NothingMatches(env, st'.stack);
    } else if op == NOP || op == UNREACHABLE || op == BR || op == LOCAL_TEE || op == GLOBAL_TEE {
      NotTakes(op);
    } else if Takes(op) {
      MatchesBelow(env, ts, st.stack, 1);
    } else if op == LOCAL_GET || IsLeaf(op) || op == GLOBAL_GET || op == UPVAL_GET {
      LoadMatches(stable, env, code, s, k, ts, st, st');
    } else if op == DUP {
      DupMatches(env, ts, st.stack);
    } else if op == SWAP {
      if n < 2 {
        NothingMatches(env, st'.stack);
      } else {
        SwapMatches(env, ts, st.stack);
      }
    } else if op == SELECT {
      UnknownMatches(env, ts, st.stack, 3, 1, st'.stack);
      assert Unknowns(1) == [Unknown];
    } else if IsPure(op) && Pops(op) <= n {
      PureMatches(env, op, ts, st.stack, Pops(op), env.eval(op, st.stack[|st.stack| - Pops(op)..]).value);
    } else {
      PurePushes(op);
      UnknownMatches(env, ts, st.stack, Pops(op), Pushes(op), st'.stack);
    }
  }

  lemma PurePushes(op: Byte)
    ensures IsPure(op) ==> Pushes(op) == 1
  {
  }

  lemma NothingMatches(env: Env, stack: seq<int>)
    ensures Matches(env, [], stack)
  {
  }

  lemma DupMatches(env: Env, ts: seq<Term>, stack: seq<int>)
    requires Matches(env, ts, stack) && stack != []
    ensures Matches(env, if |ts| == 0 then [] else ts + [ts[|ts| - 1]], stack + [stack[|stack| - 1]])
  {
    hide MatchAt;
    if |ts| > 0 {
      assert MatchAt(env, ts[|ts| - 1], stack[|stack| - |ts| + (|ts| - 1)]);
      MatchesSnoc(env, ts, stack, ts[|ts| - 1], stack[|stack| - 1]);
    }
  }

  lemma MatchesSize(env: Env, ts: seq<Term>, stack: seq<int>)
    requires Matches(env, ts, stack)
    ensures |ts| <= |stack|
  {
  }

  lemma LoadMatches(stable: seq<bool>, env: Env, code: seq<Byte>, s: seq<int>, k: int, ts: seq<Term>, st: State,
                    st': State)
    requires Layout(code, s) && 0 <= k < |s| - 1 && 0 <= s[k] < |code| && Matches(env, ts, st.stack)
    requires StableHeld(stable, env, st.locals) && !Opaque(code[s[k]])
    requires var op := code[s[k]]; op == LOCAL_GET || IsLeaf(op) || op == GLOBAL_GET || op == UPVAL_GET
    requires Core(code, s[k]) != [] && Core(code, s[k])[0] == code[s[k]] && Effects(env, Core(code, s[k]), st, st')
    ensures Matches(env, ts + [LoadTerm(stable, code, s[k])], st'.stack)
  {
    hide Matches, Core, Width, Operand, IsPure, Opaque, Pops, Pushes, Layout;
    var n := |st.stack|;
    if IsLocalOp(code[s[k]]) {
      IndexIs(code, s, k);
    }
    var v := st'.stack[n];
    assert st'.stack == st.stack + [v];
    MatchesSnoc(env, ts, st.stack, LoadTerm(stable, code, s[k]), v);
  }

  /** The opcodes that work on references and the heap, the order of references aside. */
  predicate OnHeap(op: Byte) {
    op in {14, 15} || 26 <= op <= 30 || (170 <= op <= 209 && op !in {187, 190, 194, 203, 205})
  }

  /** What becomes of the stack, the locals and the rest of the state, which is one number here: calls and everything on
      the heap change it, variables other than locals keep their value in it, and whatever is read from any of them
      depends on it. */
  function Acts(core: seq<Byte>, st: State): Outcome
    requires core != []
  {
    var n, i, w := |st.stack|, Index(core), st.world;
    match core[0]
    case 2 => if n > 0 then Next(State(st.stack[..n - 1], st.locals, w)) else Raise(st)
    case 3 => if n > 0 then Next(State(st.stack + [st.stack[n - 1]], st.locals, w)) else Raise(st)
    case 4 =>
      if n > 1 then Next(State(st.stack[..n - 2] + [st.stack[n - 1], st.stack[n - 2]], st.locals, w)) else Raise(st)
    case 5 => Jump(0, st)
    case 6 =>
      if n == 0 then Raise(st)
      else if st.stack[n - 1] == 0 then Next(State(st.stack[..n - 1], st.locals, w))
      else Jump(0, State(st.stack[..n - 1], st.locals, w))
    case 7 =>
      if n == 0 || |core| != 2 then Raise(st)
      else Jump(if 0 <= st.stack[n - 1] < i then st.stack[n - 1] else i, State(st.stack[..n - 1], st.locals, w))
    case 8 =>
      if n < 3 then Raise(st)
      else Next(State(st.stack[..n - 3] + [if st.stack[n - 1] == 0 then st.stack[n - 2] else st.stack[n - 3]],
          st.locals,
        w))
    case 10 => Stop(st)
    case 11 => Stop(st)
    case 16 => Next(State(st.stack + [w], st.locals, w))
    case 17 => if n > 0 then Next(State(st.stack[..n - 1], st.locals, st.stack[n - 1])) else Raise(st)
    case 18 => if n > 0 then Next(State(st.stack, st.locals, st.stack[n - 1])) else Raise(st)
    case 19 => if 0 <= i < |st.locals| then Next(State(st.stack + [st.locals[i]], st.locals, w)) else Raise(st)
    case 20 =>
      if 0 <= i < |st.locals| && n > 0 then Next(State(st.stack[..n - 1], st.locals[i := st.stack[n - 1]], w))
      else Raise(st)
    case 21 =>
      if 0 <= i < |st.locals| && n > 0 then Next(State(st.stack, st.locals[i := st.stack[n - 1]], w)) else Raise(st)
    case 23 => Next(State(st.stack + [w], st.locals, w))
    case 24 => if n > 0 then Next(State(st.stack[..n - 1], st.locals, st.stack[n - 1])) else Raise(st)
    case op =>
      if op in {9, 12, 13, 187, 190, 194, 203} then Next(State([w], st.locals, w + 1))
      else if OnHeap(op) then HeapActs(op, st)
      else Raise(st)
  }

  /** An array is made of one element. */
  function HeapActs(op: Byte, st: State): Outcome {
    var (takes, gives) := if op == 180 then (2, 1) else if HandsOf(op).Some?
        then (|HandsOf(op).value.takes|, |HandsOf(op).value.gives|) else (0, 0);
    if |st.stack| < takes then Raise(st)
    else Next(State(st.stack[..|st.stack| - takes] + seq(gives, _ => st.world), st.locals, st.world + 1))
  }

  /** A machine over the values of leaves and the meaning of pure operations. */
  function Reader(env: Env): Semantics {
    (core: seq<Byte>, st: State) => Reads(env, core, st)
  }

  function Reads(env: Env, core: seq<Byte>, st: State): Outcome {
    if core == [] then Raise(st)
    else if core == [0] then Next(st)
    else
      var op, n := core[0], |st.stack|;
      if IsLeaf(op) then Next(State(st.stack + [env.leaf(core)], st.locals, st.world))
      else if IsPure(op) then
        if 0 < Pops(op) <= n && env.eval(op, st.stack[n - Pops(op)..]).Some? then
          Next(State(st.stack[..n - Pops(op)] + [env.eval(op, st.stack[n - Pops(op)..]).value], st.locals, st.world))
        else Raise(st)
      else Acts(core, st)
  }

  /** The opcodes that are neither constants nor computations. */
  predicate Acting(op: Byte) {
    op in {9, 12, 13, 187, 190, 194, 203} || 2 <= op <= 8 || 10 <= op <= 11 || 16 <= op <= 21 || 23 <= op <= 24 ||
        OnHeap(op)
  }

  /** Everything but constants and computations does what its handler does: variables hold what was stored there last,
      and calls and the heap change what is read afterwards. */
  ghost predicate Lively(sem: Semantics) {
    forall core, st :: core != [] && Acting(core[0]) ==> sem(core, st) == Acts(core, st)
  }

  /** For every choice of values for the leaves and of pure operations there is a machine that reads the opcodes so. */
  lemma SomeReading(env: Env) returns (sem: Semantics)
    ensures Sensible(sem) && Standard(sem, env) && sem == Reader(env) && Lively(sem)
  {
    hide IsPure, Opaque, Takes, Pops, Pushes, Effects, Does, Blind, Reads, Acts, Acting;
    sem := Reader(env);
    ReaderSensible(env);
    forall core: seq<Byte>, st: State | core != []
      ensures (sem(core, st).Next? || sem(core, st).Jump?) ==> Effects(env, core, st, sem(core, st).state)
      ensures Does(sem, env, core, st)
    {
      ReaderReads(env, core, st, []);
    }
    forall core: seq<Byte>, st: State, extra: seq<int> | core != []
      ensures Blind(sem, core, st, extra)
    {
      ReaderReads(env, core, st, extra);
    }
    forall core: seq<Byte>, st: State | core != [] && Acting(core[0])
      ensures sem(core, st) == Acts(core, st)
    {
      ActingIs(core[0]);
      ReaderActs(env, core, st);
    }
  }

  lemma ReaderActs(env: Env, core: seq<Byte>, st: State)
    requires core != [] && core != [0] && !IsPure(core[0]) && !IsLeaf(core[0])
    ensures Reader(env)(core, st) == Acts(core, st)
  {
    hide IsPure, IsLeaf, Acts;
  }

  lemma PureIs(op: Byte)
    requires IsPure(op)
    ensures !Terminator(op) && !IsBranch(op) && !Opaque(op) && !Takes(op) && !IsLeaf(op) && !IsLocalOp(op)
    ensures op != NOP && op != UNREACHABLE && op != GLOBAL_TEE && op != GLOBAL_GET && op != UPVAL_GET && op != DUP
    ensures op != SWAP && op != SELECT
  {
  }

  lemma ReaderSensible(env: Env)
    ensures Sensible(Reader(env))
  {
    hide IsPure, Pops;
    forall core, st | core != [] && Reads(env, core, st).Next?
      ensures !Terminator(core[0]) && core[0] != BR && core[0] != BR_TABLE
    {
      if IsPure(core[0]) {
        PureIs(core[0]);
      }
    }
  }

  lemma ActingIs(op: Byte)
    requires Acting(op)
    ensures !IsLeaf(op) && !IsPure(op) && op != 0
  {
    hide HandsOf, IsPure;
    if OnHeap(op) {
      HeapImpure(op);
    } else {
      PlainImpure(op);
    }
  }

  lemma PlainImpure(op: Byte)
    requires Acting(op) && !OnHeap(op)
    ensures !IsPure(op)
  {
    hide HandsOf;
    assert Fixed(op).Some? && Fixed(op).value.pop != [] && Fixed(op).value.push != [] ==>
        !Numeric(Fixed(op).value.pop[0]);
  }

  /** Something on the heap has a reference for its lowest operand or its result, or operands of any kind. */
  lemma HeapImpure(op: Byte)
    requires OnHeap(op)
    ensures !IsPure(op)
  {
    hide HandsOf;
    var e := Fixed(op).value;
    assert e.pop == [] || !Numeric(e.pop[|e.pop| - 1]) || e.push == [] || !Numeric(e.push[0]);
  }

  /** The numbering's table has the heap's effects. */
  lemma HeapIs(op: Byte)
    requires OnHeap(op)
    ensures !Opaque(op) && !Takes(op) && !IsLocalOp(op) && !IsLeaf(op) && !IsPure(op)
    ensures op != NOP && op != UNREACHABLE && op != BR && op != GLOBAL_TEE && op != GLOBAL_GET && op != UPVAL_GET
    ensures op != DUP && op != SWAP && op != SELECT
    ensures op == 180 ==> Pops(op) == 2 && Pushes(op) == 1
    ensures op != 180 ==>
              HandsOf(op).Some? && Pops(op) == |HandsOf(op).value.takes| && Pushes(op) == |HandsOf(op).value.gives|
  {
    hide HandsOf, IsPure;
    HeapImpure(op);
    if op != 180 {
      HandsMatch(op);
    } else {
      ArrayEffect();
    }
  }

  lemma HeapReads(env: Env, core: seq<Byte>, st: State, extra: seq<int>)
    requires core != [] && OnHeap(core[0])
    ensures Acts(core, st).Next? || Acts(core, st).Jump? ==> Effects(env, core, st, Acts(core, st).state)
    ensures Does(Reader(env), env, core, st) && Blind(Reader(env), core, st, extra)
  {
    hide HandsOf, Opaque, Takes, IsLeaf, IsPure, Pops, Pushes;
    HeapIs(core[0]);
    assert Acts(core, st) == HeapActs(core[0], st);
    assert Acts(core, Plus(st, extra)) == HeapActs(core[0], Plus(st, extra));
  }

  lemma ActsReads(env: Env, core: seq<Byte>, st: State, extra: seq<int>)
    requires core != [] && !IsPure(core[0]) && !IsLeaf(core[0]) && core != [0]
    ensures Acts(core, st).Next? || Acts(core, st).Jump? ==> Effects(env, core, st, Acts(core, st).state)
    ensures Does(Reader(env), env, core, st) && Blind(Reader(env), core, st, extra)
  {
    hide Acts, Effects, Does, Blind, IsPure, IsLeaf, OnHeap;
    if OnHeap(core[0]) {
      HeapReads(env, core, st, extra);
    } else {
      PlainReads(env, core, st, extra);
    }
  }

  lemma PlainReads(env: Env, core: seq<Byte>, st: State, extra: seq<int>)
    requires core != [] && !IsPure(core[0]) && !IsLeaf(core[0]) && core != [0] && !OnHeap(core[0])
    ensures Acts(core, st).Next? || Acts(core, st).Jump? ==> Effects(env, core, st, Acts(core, st).state)
    ensures Does(Reader(env), env, core, st) && Blind(Reader(env), core, st, extra)
  {
    hide Pops, Pushes, IsPure, HeapActs, OnHeap, Fixed, IsLeaf, Opaque, Takes;
    Classes(core[0]);
    assert forall v :: (st.stack + [v])[..|st.stack|] == st.stack;
  }

  lemma NothingReads(env: Env, st: State, extra: seq<int>)
    ensures Effects(env, [0], st, st) && Does(Reader(env), env, [0], st) && Blind(Reader(env), [0], st, extra)
    ensures Reads(env, [0], st) == Next(st)
  {
    hide Pops, Pushes, IsPure, Acts, Fixed, Opaque, Takes, IsLeaf;
    Classes(0);
    PureByOpcode(0);
  }

  lemma LeafReads(env: Env, core: seq<Byte>, st: State, extra: seq<int>)
    requires core != [] && IsLeaf(core[0])
    ensures Reads(env, core, st).Next? && Effects(env, core, st, Reads(env, core, st).state)
    ensures Does(Reader(env), env, core, st) && Blind(Reader(env), core, st, extra)
  {
    hide Pops, Pushes, IsPure, Acts, Fixed, Opaque, Takes;
    Classes(core[0]);
    PureByOpcode(core[0]);
  }

  lemma PureReads(env: Env, core: seq<Byte>, st: State, extra: seq<int>)
    requires core != [] && IsPure(core[0])
    ensures Reads(env, core, st).Next? ==> Effects(env, core, st, Reads(env, core, st).state)
    ensures !Reads(env, core, st).Jump?
    ensures Does(Reader(env), env, core, st) && Blind(Reader(env), core, st, extra)
  {
    hide Pops, Pushes, IsPure, Acts, Fixed, Opaque, Takes, IsLeaf;
    PureIs(core[0]);
  }

  lemma ReaderReads(env: Env, core: seq<Byte>, st: State, extra: seq<int>)
    requires core != []
    ensures Reads(env, core, st).Next? || Reads(env, core, st).Jump? ==>
      Effects(env, core, st, Reads(env, core, st).state)
    ensures Does(Reader(env), env, core, st) && Blind(Reader(env), core, st, extra)
  {
    hide IsPure, Acts, IsLeaf, Effects, Does, Blind;
    if IsPure(core[0]) {
      PureReads(env, core, st, extra);
    } else if IsLeaf(core[0]) {
      LeafReads(env, core, st, extra);
    } else if core == [0] {
      NothingReads(env, st, extra);
    } else {
      ActsReads(env, core, st, extra);
    }
  }
}
