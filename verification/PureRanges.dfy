/** The code of a self-contained entry pushes its expression's value, wherever it runs. */
module PureRanges {
  import opened Bytecode
  import opened Stacks
  import opened Numbering
  import opened Terms
  import opened GroupValues
  import opened EditRuns
  import Blocks
  import Compaction

  function Pushed(st: State, vs: seq<int>): State {
    State(st.stack + vs, st.locals, st.world)
  }

  /** Running a stretch is running its two parts. */
  lemma {:induction false} FlowSplit(sem: Semantics, code: seq<Byte>, s: seq<int>, i: int, j: int, m: int, st: State)
    requires Layout(code, s) && 0 <= i <= j <= m < |s|
    ensures Flow(sem, code, s[i], s[m], st) ==
              (match Flow(sem, code, s[i], s[j], st) case Next(st') => Flow(sem, code, s[j], s[m], st') case o => o)
    decreases j - i
  {
    hide Core, Width, Layout;
    Compaction.SortedStarts(code, s);
    if i < j {
      LayoutNext(code, s, i);
      if sem(Core(code, s[i]), st).Next? {
        FlowSplit(sem, code, s, i + 1, j, m, sem(Core(code, s[i]), st).state);
      }
    }
  }

  lemma FlowOne(sem: Semantics, code: seq<Byte>, s: seq<int>, k: int, st: State)
    requires Layout(code, s) && 0 <= k < |s| - 1
    ensures 0 <= s[k] < |code| && Flow(sem, code, s[k], s[k + 1], st) == sem(Core(code, s[k]), st)
  {
    hide Core, Width;
    LayoutNext(code, s, k);
  }

  /** From any state with the stable locals, [start, end) pushes the value of t. */
  ghost predicate Computes(sem: Semantics, stable: seq<bool>, env: Env, code: seq<Byte>, start: int, end: int,
                           t: Term) {
    forall st: State ::
        StableHeld(stable, env, st.locals) && TermValue(env, t).Some? ==> ComputesAt(sem, env, code, start, end, t, st)
  }

  ghost predicate ComputesAt(sem: Semantics, env: Env, code: seq<Byte>, start: int, end: int, t: Term, st: State)
    requires TermValue(env, t).Some?
  {
    Flow(sem, code, start, end, st) == Next(Pushed(st, [TermValue(env, t).value]))
  }

  /** The first instruction of k's block. */
  ghost function First(s: seq<int>, blocks: seq<Blocks.Block>, k: nat): nat
    requires k < |s|
    ensures First(s, blocks, k) <= k
  {
    if k == 0 || StartsBlock(blocks, s[k]) then k else First(s, blocks, k - 1)
  }

  /** A self-contained entry's code is whole instructions of the block, up to hi, and computes its expression. */
  ghost predicate EntryOk(sem: Semantics, stable: seq<bool>, env: Env, code: seq<Byte>, s: seq<int>, lo: int, hi: int,
                          x: GSlot, t: Term) {
    x.pure && t != Unknown ==> exists m, n ::
      SpansAt(s, lo, hi, x, m, n) && Computes(sem, stable, env, code, x.start, x.end, t)
  }

  ghost predicate SpansAt(s: seq<int>, lo: int, hi: int, x: GSlot, m: int, n: int) {
    0 <= lo <= m < n <= hi && hi < |s| && s[m] == x.start && s[n] == x.end
  }

  ghost predicate AllOk(sem: Semantics, stable: seq<bool>, env: Env, code: seq<Byte>, s: seq<int>, lo: int, hi: int,
                        abs: seq<GSlot>, ts: seq<Term>) {
    |abs| == |ts| && forall i :: 0 <= i < |abs| ==> EntryOk(sem, stable, env, code, s, lo, hi, abs[i], ts[i])
  }

  lemma EntryLater(sem: Semantics, stable: seq<bool>, env: Env, code: seq<Byte>, s: seq<int>, lo: int, hi: int,
                   x: GSlot, t: Term)
    requires EntryOk(sem, stable, env, code, s, lo, hi, x, t) && hi + 1 < |s|
    ensures EntryOk(sem, stable, env, code, s, lo, hi + 1, x, t)
  {
    hide Computes;
    if x.pure && t != Unknown {
      var m, n :| SpansAt(s, lo, hi, x, m, n) && Computes(sem, stable, env, code, x.start, x.end, t);
      assert SpansAt(s, lo, hi + 1, x, m, n);
    }
  }

  /** A load or a constant computes its expression. */
  lemma LoadComputes(sem: Semantics, stable: seq<bool>, env: Env, code: seq<Byte>, s: seq<int>, k: int)
    requires Standard(sem, env) && Layout(code, s) && 0 <= k < |s| - 1 && 0 <= s[k] < |code|
    requires LoadTerm(stable, code, s[k]) != Unknown
    ensures Computes(sem, stable, env, code, s[k], s[k + 1], LoadTerm(stable, code, s[k]))
  {
    hide Core, Operand, Layout, Effects, Blind, IsPure, Pops;
    CoreHead(code, s[k]);
    var t := LoadTerm(stable, code, s[k]);
    forall st: State | StableHeld(stable, env, st.locals) && TermValue(env, t).Some?
      ensures ComputesAt(sem, env, code, s[k], s[k + 1], t, st)
    {
      FlowOne(sem, code, s, k, st);
      assert Does(sem, env, Core(code, s[k]), st);
      if code[s[k]] == LOCAL_GET {
        IndexIs(code, s, k);
      }
    }
  }

  /** Adjacent operand code, run from operand i on, pushes the operands' values from i on. */
  lemma {:induction false} ArgsFlow(sem: Semantics, stable: seq<bool>, env: Env, code: seq<Byte>, s: seq<int>, lo: int,
                                    k: int, args: seq<GSlot>, ts: seq<Term>, vs: seq<int>, i: nat, st: State)
                                    returns (m: int)
    requires Layout(code, s) && 0 <= k < |s| && i < |args| == |vs| && Contiguous(args, s[k])
    requires AllOk(sem, stable, env, code, s, lo, k, args, ts) && StableHeld(stable, env, st.locals)
    requires forall j :: 0 <= j < |args| ==> ts[j] != Unknown && TermValue(env, ts[j]) == Some(vs[j])
    ensures lo <= m < k && 0 <= m && s[m] == args[i].start
    ensures Flow(sem, code, s[m], s[k], st) == Next(Pushed(st, vs[i..]))
    decreases |args| - i
  {
    hide TermValue, Layout, Flow, StableHeld;
    Compaction.SortedStarts(code, s);
    var x := args[i];
    assert AdjacentAt(args, s[k], i);
    assert EntryOk(sem, stable, env, code, s, lo, k, x, ts[i]);
    var n;
    m, n :| SpansAt(s, lo, k, x, m, n) && Computes(sem, stable, env, code, x.start, x.end, ts[i]);
    assert ComputesAt(sem, env, code, x.start, x.end, ts[i], st);
    var st1 := Pushed(st, [vs[i]]);
    FlowSplit(sem, code, s, m, n, k, st);
    if i + 1 < |args| {
      var m' := ArgsFlow(sem, stable, env, code, s, lo, k, args, ts, vs, i + 1, st1);
      assert s[m'] == s[n];
      assert vs[i..] == [vs[i]] + vs[i + 1..];
      assert Pushed(st1, vs[i + 1..]) == Pushed(st, vs[i..]);
    } else {
      SameSpot(code, s, n, k);
      NoFlow(sem, code, s[k], st1);
      assert vs[i..] == [vs[i]];
    }
  }

  lemma SameSpot(code: seq<Byte>, s: seq<int>, n: int, k: int)
    requires Layout(code, s) && 0 <= n < |s| && 0 <= k < |s| && s[n] == s[k]
    ensures n == k
  {
  }

  lemma NoFlow(sem: Semantics, code: seq<Byte>, x: int, st: State)
    ensures Flow(sem, code, x, x, st) == Next(st)
  {
  }

  /** A pure operation on self-contained, adjacent operands computes its expression. */
  lemma PureComputes(sem: Semantics, stable: seq<bool>, env: Env, code: seq<Byte>, s: seq<int>, lo: int, k: int,
                     args: seq<GSlot>, ts: seq<Term>) returns (m: int)
    requires Standard(sem, env) && Layout(code, s) && 0 <= k < |s| - 1 && 0 <= s[k] < |code|
    requires IsPure(code[s[k]]) && |args| == Pops(code[s[k]]) > 0 && Contiguous(args, s[k])
    requires AllOk(sem, stable, env, code, s, lo, k, args, ts) && Unknown !in ts
    ensures 0 <= lo <= m < k && s[m] == args[0].start
    ensures Computes(sem, stable, env, code, s[m], s[k + 1], OpTerm(code[s[k]], ts))
  {
    hide Standard, Layout, TermValue, Core, IsPure, Pops, Flow, StableHeld, AllOk;
    m := FirstSpan(sem, stable, env, code, s, lo, k, args, ts);
    var op := code[s[k]];
    var t := OpTerm(op, ts);
    forall st: State | StableHeld(stable, env, st.locals) && TermValue(env, t).Some?
      ensures ComputesAt(sem, env, code, s[m], s[k + 1], t, st)
    {
      var vs := ArgValues(env, op, ts);
      AllSize(sem, stable, env, code, s, lo, k, args, ts);
      assert forall j :: 0 <= j < |ts| ==> ts[j] in ts;
      var m' := ArgsFlow(sem, stable, env, code, s, lo, k, args, ts, vs, 0, st);
      SameSpot(code, s, m, m');
      assert vs[0..] == vs;
      FlowSplit(sem, code, s, m, k, k + 1, st);
      FlowOne(sem, code, s, k, Pushed(st, vs));
      PureDoes(sem, env, code, s[k], st, vs, TermValue(env, t).value);
    }
  }

  lemma AllSize(sem: Semantics, stable: seq<bool>, env: Env, code: seq<Byte>, s: seq<int>, lo: int, hi: int,
                abs: seq<GSlot>, ts: seq<Term>)
    requires AllOk(sem, stable, env, code, s, lo, hi, abs, ts)
    ensures |abs| == |ts|
  {
  }

  /** An operation with a value has operands with values, and is the operation on them. */
  lemma ArgValues(env: Env, op: Byte, args: seq<Term>) returns (vs: seq<int>)
    requires TermValue(env, OpTerm(op, args)).Some?
    ensures |vs| == |args| && env.eval(op, vs) == TermValue(env, OpTerm(op, args))
    ensures forall i :: 0 <= i < |args| ==> TermValue(env, args[i]) == Some(vs[i])
  {
    vs := TermValues(env, args).value;
  }

  lemma FirstSpan(sem: Semantics, stable: seq<bool>, env: Env, code: seq<Byte>, s: seq<int>, lo: int, k: int,
                  args: seq<GSlot>, ts: seq<Term>)
    returns (m: int)
    requires AllOk(sem, stable, env, code, s, lo, k, args, ts) && |args| > 0 && Unknown !in ts
    requires 0 <= k < |s| && Contiguous(args, s[k])
    ensures 0 <= lo <= m < k && s[m] == args[0].start
  {
    hide Computes;
    assert ts[0] in ts;
    assert EntryOk(sem, stable, env, code, s, lo, k, args[0], ts[0]);
    assert AdjacentAt(args, s[k], 0);
    var n;
    m, n :| SpansAt(s, lo, k, args[0], m, n) &&
        Computes(sem, stable, env, code, args[0].start, args[0].end, ts[0]);
  }

  lemma PureDoes(sem: Semantics, env: Env, code: seq<Byte>, ip: int, st: State, vs: seq<int>, v: int)
    requires Standard(sem, env) && 0 <= ip < |code| && IsPure(code[ip]) && |vs| == Pops(code[ip]) > 0
    requires env.eval(code[ip], vs) == Some(v)
    ensures sem(Core(code, ip), Pushed(st, vs)) == Next(Pushed(st, [v]))
  {
    hide Effects, Blind, IsPure, Pops, Core;
    CoreHead(code, ip);
    var full := Pushed(st, vs);
    assert Does(sem, env, Core(code, ip), full);
    assert full.stack[|full.stack| - |vs|..] == vs;
    assert full.stack[..|full.stack| - |vs|] == st.stack;
  }

  /** The code of every self-contained entry whose expression is known computes that expression. */
  lemma {:induction false} EntriesCompute(sem: Semantics, names: seq<Key>, stable: seq<bool>, env: Env, code: seq<Byte>,
                                          s: seq<int>, blocks: seq<Blocks.Block>, after: seq<Option<seq<GSlot>>>,
                                          gen: Gen, k: nat)
    requires Layout(code, s) && Numbered(code, s, blocks, stable, names, after, gen) && Standard(sem, env)
    requires k < |s| - 1 && after[k].Some?
    ensures AllOk(sem, stable, env, code, s, First(s, blocks, k), k + 1, after[k].value,
                  TermsAfter(code, s, blocks, stable, k))
  {
    hide Layout, Standard, Steps, EntryOk, StartsBlock, GenOk, WellNamed, Spelled, TermStep;
    assert StepAt(code, s, blocks, stable, names, after, k);
    var b := BeforeOf(s, blocks, after, k).value;
    if StartsBlock(blocks, s[k]) {
      NothingSpelled(names);
    } else {
      EntriesCompute(sem, names, stable, env, code, s, blocks, after, gen, k - 1);
      AfterSpelled(code, s, blocks, stable, names, after, gen, k - 1);
      assert First(s, blocks, k) == First(s, blocks, k - 1);
    }
    EntriesStep(sem, names, stable, env, code, s, First(s, blocks, k), k, b, after[k].value,
                TermsBefore(code, s, blocks, stable, k));
  }

  lemma EntriesStep(sem: Semantics, names: seq<Key>, stable: seq<bool>, env: Env, code: seq<Byte>, s: seq<int>, lo: nat,
                    k: nat, b: seq<GSlot>, a: seq<GSlot>, ts: seq<Term>)
    requires Standard(sem, env) && Layout(code, s) && lo <= k < |s| - 1 && 0 <= s[k] < |code|
    requires Steps(names, stable, code, s[k], b, a) && Spelled(names, b, ts)
    requires AllOk(sem, stable, env, code, s, lo, k, b, ts)
    ensures AllOk(sem, stable, env, code, s, lo, k + 1, a, TermStep(stable, code, s[k], ts))
  {
    hide Layout, Standard, Steps, EntryOk, Computes, TermStep, Spelled;
    var us := TermStep(stable, code, s[k], ts);
    StepSpelled(names, stable, code, s[k], b, a, ts);
    SpelledSize(names, a, us);
    forall i | 0 <= i < |a|
      ensures EntryOk(sem, stable, env, code, s, lo, k + 1, a[i], us[i])
    {
      if a[i].pure && us[i] != Unknown {
        if i < |b| && a[i] == b[i] && us[i] == ts[i] {
          EntryLater(sem, stable, env, code, s, lo, k, b[i], ts[i]);
        } else {
          EntryNew(sem, names, stable, env, code, s, lo, k, b, a, ts, i);
        }
      } else {
        NothingClaimed(sem, stable, env, code, s, lo, k + 1, a[i], us[i]);
      }
    }
  }

  lemma NothingClaimed(sem: Semantics, stable: seq<bool>, env: Env, code: seq<Byte>, s: seq<int>, lo: int, hi: int,
                       x: GSlot, t: Term)
    requires !(x.pure && t != Unknown)
    ensures EntryOk(sem, stable, env, code, s, lo, hi, x, t)
  {
  }

  /** An entry the instruction made. */
  lemma EntryNew(sem: Semantics, names: seq<Key>, stable: seq<bool>, env: Env, code: seq<Byte>, s: seq<int>, lo: nat,
                 k: nat, b: seq<GSlot>, a: seq<GSlot>, ts: seq<Term>, i: nat)
    requires Standard(sem, env) && Layout(code, s) && lo <= k < |s| - 1 && 0 <= s[k] < |code|
    requires Steps(names, stable, code, s[k], b, a) && AllOk(sem, stable, env, code, s, lo, k, b, ts)
    requires i < |a| == |TermStep(stable, code, s[k], ts)|
    requires var us := TermStep(stable, code, s[k], ts);
      a[i].pure && us[i] != Unknown && !(i < |b| && a[i] == b[i] && us[i] == ts[i])
    ensures EntryOk(sem, stable, env, code, s, lo, k + 1, a[i], TermStep(stable, code, s[k], ts)[i])
  {
    hide Layout, Standard, AllOk, Computes, Core, Operand, Width, IsPure, IsLeaf, Opaque, Pops, Pushes, Steps,
         PureStep, TermStep, LoadTerm;
    LayoutNext(code, s, k);
    AllSize(sem, stable, env, code, s, lo, k, b, ts);
    var op, x := code[s[k]], a[i];
    NewIs(names, stable, code, s[k], b, a, ts, i);
    if op == LOCAL_GET || IsLeaf(op) {
      LoadComputes(sem, stable, env, code, s, k);
      assert SpansAt(s, lo, k + 1, x, k, k + 1);
    } else {
      var base := |b| - Pops(op);
      ArgsOk(sem, stable, env, code, s, lo, k, b, ts, base);
      var m := PureComputes(sem, stable, env, code, s, lo, k, b[base..], ts[base..]);
      assert SpansAt(s, lo, k + 1, x, m, k + 1);
    }
  }

  lemma ArgsOk(sem: Semantics, stable: seq<bool>, env: Env, code: seq<Byte>, s: seq<int>, lo: nat, k: nat,
               b: seq<GSlot>, ts: seq<Term>, base: int)
    requires AllOk(sem, stable, env, code, s, lo, k, b, ts) && 0 <= base <= |b|
    ensures AllOk(sem, stable, env, code, s, lo, k, b[base..], ts[base..])
  {
    hide EntryOk;
    forall i | 0 <= i < |b| - base
      ensures EntryOk(sem, stable, env, code, s, lo, k, b[base..][i], ts[base..][i])
    {
      assert EntryOk(sem, stable, env, code, s, lo, k, b[base + i], ts[base + i]);
    }
  }

  /** A new self-contained entry whose expression is known comes from a load, a leaf or a pure operation. */
  lemma NewIs(names: seq<Key>, stable: seq<bool>, code: seq<Byte>, ip: int, b: seq<GSlot>, a: seq<GSlot>,
              ts: seq<Term>, i: nat)
    requires 0 <= ip < |code| && Steps(names, stable, code, ip, b, a) && |ts| == |b|
    requires i < |a| == |TermStep(stable, code, ip, ts)|
    requires var us := TermStep(stable, code, ip, ts);
      a[i].pure && us[i] != Unknown && !(i < |b| && a[i] == b[i] && us[i] == ts[i])
    ensures var op, x, t := code[ip], a[i], TermStep(stable, code, ip, ts)[i];
            if op == LOCAL_GET || IsLeaf(op) then
              x.start == ip && x.end == ip + Width(code, ip) && t == LoadTerm(stable, code, ip)
            else
              && IsPure(op) && 0 < Pops(op) <= |b| && x.start == b[|b| - Pops(op)].start
              && x.end == ip + Width(code, ip)
              && Contiguous(b[|b| - Pops(op)..], ip)
              && Unknown !in ts[|ts| - Pops(op)..] && t == OpTerm(op, ts[|ts| - Pops(op)..])
  {
    hide Core, Operand, Width, IsPure, IsLeaf, Opaque, Pops, Pushes, Contiguous, Canonical;
    Families(code[ip]);
    SharedPrefix(a, b, i);
  }

  lemma SharedPrefix(a: seq<GSlot>, b: seq<GSlot>, t: nat)
    requires t < |a|
    ensures forall n :: t < n <= |a| && n <= |b| && a[..n] == b[..n] ==> a[t] == b[t]
  {
    forall n | t < n <= |a| && n <= |b| && a[..n] == b[..n]
      ensures a[t] == b[t]
    {
      assert a[..n][t] == b[..n][t];
    }
  }

  lemma Families(op: Byte)
    ensures IsPure(op) ==> op != LOCAL_GET && !IsLeaf(op)
    ensures IsLeaf(op) ==>
      !Takes(op) && op != NOP && op != UNREACHABLE && op != BR && op != LOCAL_TEE && op != GLOBAL_TEE
  {
  }
}
