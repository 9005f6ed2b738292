/** Exactly when reloading a captured value is right on every machine that reads the opcodes as the handlers do. */
module OrientedReuse {
  import opened Bytecode
  import opened Stacks
  import opened Numbering
  import opened Terms
  import opened GroupValues
  import opened PureRanges
  import opened EditRuns
  import opened Reuse
  import opened Orientation
  import Splicer
  import IntCode
  import Readings

  /** Edit i reloads block b's computation of g, and what block c captured as g can be what it reloads. */
  ghost predicate Pair(p: Plan, i: int, b: int, g: int, c: int) {
    IsLoad(p, i, b, g) && Captures(p, c, g) && Supplies(p, g, c, b)
  }

  ghost predicate OrientedAt(p: Plan, i: int, b: int, g: int, c: int)
    requires Layout(p.code, p.s)
  {
    Pair(p, i, b, g, c) ==> SameWay(MadeTerm(p, c, g), MadeTerm(p, b, g))
  }

  /** No reload takes the place of a computation whose operands stand the other way, unless no kind shows it. */
  ghost predicate Oriented(p: Plan)
    requires Layout(p.code, p.s)
  {
    forall i, b, g, c :: OrientedAt(p, i, b, g, c)
  }

  ghost predicate FedAt(p: Plan, env: Env, vals: IntCode.Values, i: int, b: int, g: int, c: int)
    requires Layout(p.code, p.s)
  {
    Pair(p, i, b, g, c) ==>
      SameOrder(MadeTerm(p, c, g), MadeTerm(p, b, g)) || Fed(env, vals, MadeTerm(p, c, g))
  }

  /** Computations whose operands are exchanged find 32-bit integers where they read them. */
  ghost predicate FedPlan(p: Plan, env: Env, vals: IntCode.Values)
    requires Layout(p.code, p.s)
  {
    forall i, b, g, c :: FedAt(p, env, vals, i, b, g, c)
  }

  /** A reload's and a capture's computations are of one group. */
  lemma PairAkin(p: Plan, i: int, b: int, g: int, c: int)
    requires BodyOk(p) && Pair(p, i, b, g, c)
    ensures Reloads(p, b, g) && Akin(MadeTerm(p, c, g), MadeTerm(p, b, g))
  {
    hide BodyOk, MadeTerm, IsLoad, Supplies, Spells, Akin, Layout;
    Shape(p);
    LoadIs(p, i, b, g);
    MadeSpells(p, b, g);
    MadeSpells(p, c, g);
    OneGroup(p.names, g, MadeTerm(p, c, g), MadeTerm(p, b, g));
  }

  /** Oriented reloads have the values of the captures that reach them. */
  lemma OrientedAgrees(sem: Semantics, pool: seq<int>, vals: IntCode.Values, env: Env, p: Plan)
    requires BodyOk(p) && Machine(sem, pool, vals, env) && FedPlan(p, env, vals) && Oriented(p)
    ensures Agree(p, env)
  {
    hide BodyOk, MadeTerm, IsLoad, Supplies, Akin, Layout, SameWay, Fed, SameOrder, Standard, IntCode.Reads, Uniform,
         Reckons, TermValue;
    Shape(p);
    Reckoned(sem, pool, vals, env);
    forall i, b, g, c | IsLoad(p, i, b, g)
      ensures AgreesAt(p, env, b, g, c)
    {
      if Captures(p, c, g) && Supplies(p, g, c, b) {
        PairAkin(p, i, b, g, c);
        assert OrientedAt(p, i, b, g, c) && FedAt(p, env, vals, i, b, g, c);
        SameWayValue(vals, env, MadeTerm(p, c, g), MadeTerm(p, b, g));
      }
    }
  }

  /** On every machine that reads the opcodes as the handlers do, whatever the extra locals held: out ends with what
      the plan's code ends with, and with nothing else. */
  ghost predicate SameBehaviour(p: Plan, out: seq<Byte>)
    requires Layout(p.code, p.s)
  {
    forall sem: Semantics, land: Land, pool: seq<int>, vals: IntCode.Values, leaf: seq<Byte> -> int,
        eval: (Byte, seq<int>) -> Option<int>, a: State, extra: seq<int> ::
      BehavesAt(sem, land, pool, vals, Env(a.locals, leaf, eval), p, out, a, extra)
  }

  ghost predicate BehavesAt(sem: Semantics, land: Land, pool: seq<int>, vals: IntCode.Values, env: Env, p: Plan,
                            out: seq<Byte>, a: State, extra: seq<int>)
    requires Layout(p.code, p.s)
  {
    Machine(sem, pool, vals, env) && FedPlan(p, env, vals) && |a.locals| == |p.stable| && |extra| == p.count ==>
      Forth(sem, land, p.code, out, a, extra) && Back(sem, land, p.code, out, a, extra)
  }

  lemma PlanBehaves(p: Plan, out: seq<Byte>)
    requires PlanOk(p) && Splicer.Faithful(p.code, [], p.es, p.s, out, []) && Oriented(p)
    ensures SameBehaviour(p, out)
  {
    hide PlanOk, Layout, Splicer.Faithful, BehavesAt, Oriented;
    PlanHas(p);
    forall sem: Semantics, land: Land, pool: seq<int>, vals: IntCode.Values, leaf: seq<Byte> -> int,
        eval: (Byte, seq<int>) -> Option<int>, a: State, extra: seq<int>
      ensures BehavesAt(sem, land, pool, vals, Env(a.locals, leaf, eval), p, out, a, extra)
    {
      PlanBehavesAt(sem, land, pool, vals, leaf, eval, p, out, a, extra);
    }
  }

  lemma PlanBehavesAt(sem: Semantics, land: Land, pool: seq<int>, vals: IntCode.Values, leaf: seq<Byte> -> int,
                      eval: (Byte, seq<int>) -> Option<int>, p: Plan, out: seq<Byte>, a: State, extra: seq<int>)
    requires PlanOk(p) && Splicer.Faithful(p.code, [], p.es, p.s, out, []) && Oriented(p)
    ensures BehavesAt(sem, land, pool, vals, Env(a.locals, leaf, eval), p, out, a, extra)
  {
    hide PlanOk, Sensible, Standard, Layout, Splicer.Faithful, Run, Oriented, FedPlan, IntCode.Reads, Uniform, Agree,
         BodyOk, EditsOk, AvailOk, SlotsOk;
    PlanHas(p);
    var env := Env(a.locals, leaf, eval);
    if Machine(sem, pool, vals, env) && FedPlan(p, env, vals) && |a.locals| == |p.stable| && |extra| == p.count {
      OrientedAgrees(sem, pool, vals, env, p);
      forall n: nat | Finished(p.code, Run(sem, land, p.code, [], Config.At(0, a), n))
        ensures exists m: nat :: Reuse.Ends(sem, land, p.code, out, a, extra, n, m)
      {
        var m := ReuseKeepsResults(sem, land, p, leaf, eval, out, a, extra, n);
        assert Reuse.Ends(sem, land, p.code, out, a, extra, n, m);
      }
      forall m: nat | Finished(out, Run(sem, land, out, [], Config.At(0, Plus(a, extra)), m))
        ensures exists n: nat :: Reuse.Ends(sem, land, p.code, out, a, extra, n, m)
      {
        var n := ReuseAddsNoResults(sem, land, p, leaf, eval, out, a, extra, m);
        assert Reuse.Ends(sem, land, p.code, out, a, extra, n, m);
      }
    }
  }

  /** A machine that reads the opcodes as the handlers do, tells kinds apart, finds its operands fit and computes t. */
  ghost predicate ComputesOn(sem: Semantics, pool: seq<int>, vals: IntCode.Values, env: Env, p: Plan, t: Term)
    requires Layout(p.code, p.s)
  {
    && Machine(sem, pool, vals, env) && IntCode.Distinct(vals) && FedPlan(p, env, vals)
    && |env.locals| == |p.stable| && TermValue(env, t).Some?
  }

  ghost predicate LiveAt(p: Plan, i: int, b: int, g: int, c: int)
    requires Layout(p.code, p.s)
  {
    Pair(p, i, b, g, c) && !SameOrder(MadeTerm(p, c, g), MadeTerm(p, b, g)) ==>
      && Typed(MadeTerm(p, c, g)) && Typed(MadeTerm(p, b, g))
      && exists sem, pool, vals, env :: ComputesOn(sem, pool, vals, env, p, MadeTerm(p, c, g))
  }

  /** Where operands are exchanged they are of the kinds their operations read, and some machine gets to capture the
      result. */
  ghost predicate Live(p: Plan)
    requires Layout(p.code, p.s)
  {
    forall i, b, g, c :: LiveAt(p, i, b, g, c)
  }

  ghost predicate PushesBoth(sem: Semantics, p: Plan, i: nat, a: State, extra: seq<int>, v: int)
    requires i < |p.es|
  {
    && Flow(sem, p.code, p.es[i].start, p.es[i].end, a) == Next(Pushed(a, [v]))
    && Flow(sem, p.es[i].bytes, 0, |p.es[i].bytes|, Plus(a, extra)) == Next(Plus(Pushed(a, [v]), extra))
  }

  /** With what a capture that reaches it computed in its slot, load i pushes what the range it replaces pushes. */
  ghost predicate ReloadsAt(sem: Semantics, pool: seq<int>, vals: IntCode.Values, env: Env, p: Plan, i: nat, b: int,
                            g: int, a: State, extra: seq<int>)
    requires Layout(p.code, p.s)
  {
    Machine(sem, pool, vals, env) && FedPlan(p, env, vals) && IsLoad(p, i, b, g) &&
    StableHeld(p.stable, env, a.locals) && |extra| == p.count && InSlot(p, env, b, g, extra) ==>
      exists v :: PushesBoth(sem, p, i, a, extra, v)
  }

  /** On every machine that reads the opcodes as the handlers do every load pushes what the range it replaces pushes. */
  ghost predicate AlwaysReloads(p: Plan)
    requires Layout(p.code, p.s)
  {
    forall sem: Semantics, pool: seq<int>, vals: IntCode.Values, env: Env, i: nat, b: int, g: int, a: State,
        extra: seq<int> ::
      ReloadsAt(sem, pool, vals, env, p, i, b, g, a, extra)
  }

  lemma RetagFeeds(vals: IntCode.Values, env: Env, tg: Tags, p: Plan)
    requires BodyOk(p) && Live(p) && FedPlan(p, env, vals) && Reckons(env, vals) && AllTags(tg)
    ensures FedPlan(p, RetagEnv(env, vals, tg), vals)
  {
    hide BodyOk, MadeTerm, IsLoad, Supplies, Layout, Fed, SameOrder, Reckons, ComputesOn, Retagged, RetagEnv, Typed;
    Shape(p);
    var env' := RetagEnv(env, vals, tg);
    OtherTags(env, vals, tg);
    forall i, b, g, c
      ensures FedAt(p, env', vals, i, b, g, c)
    {
      assert FedAt(p, env, vals, i, b, g, c) && LiveAt(p, i, b, g, c);
      if Pair(p, i, b, g, c) {
        LoadIs(p, i, b, g);
        if !SameOrder(MadeTerm(p, c, g), MadeTerm(p, b, g)) {
          RetagFed(vals, env, TagsIn(env, vals), env', tg, MadeTerm(p, c, g));
        }
      }
    }
  }

  /** Without the condition some machine that reads the opcodes as the handlers do captures one value and computes
      another where it is reloaded. */
  lemma Misled(p: Plan, i: int, b: int, g: int, c: int)
    returns (sem: Semantics, pool: seq<int>, vals: IntCode.Values, env: Env, v: int, w: int)
    requires BodyOk(p) && Live(p) && Pair(p, i, b, g, c) && !SameWay(MadeTerm(p, c, g), MadeTerm(p, b, g))
    ensures Machine(sem, pool, vals, env) && IntCode.Distinct(vals) && FedPlan(p, env, vals) && v != w
    ensures |env.locals| == |p.stable| && HoldsFrom(p, env, c, b, g, v)
    ensures forall st: State :: StableHeld(p.stable, env, st.locals) ==>
      Flow(sem, p.code, p.es[i].start, p.es[i].end, st) == Next(Pushed(st, [w]))
  {
    hide BodyOk, MadeTerm, Layout, Fed, SameOrder, Reckons, Typed, Akin, TermValue, Standard, IntCode.Reads, Uniform,
         IntCode.Distinct, RetagEnv, Sensible, IsLoad, Supplies, FedPlan, TagTerm, StableHeld, Flow, IsPure;
    Shape(p);
    PairAkin(p, i, b, g, c);
    var t, u := MadeTerm(p, c, g), MadeTerm(p, b, g);
    assert LiveAt(p, i, b, g, c);
    var sem0, env0;
    sem0, pool, vals, env0 :| ComputesOn(sem0, pool, vals, env0, p, t);
    var tg: Tags :| AllTags(tg) && TagTerm(tg, t) != TagTerm(tg, u);
    Reckoned(sem0, pool, vals, env0);
    assert Fed(env0, vals, t) by { FedHas(p, env0, vals, i, b, g, c); }
    RetagReckons(env0, vals, tg);
    Differing(vals, env0, tg, t, u);
    env := RetagEnv(env0, vals, tg);
    v, w := TermValue(env, t).value, TermValue(env, u).value;
    RetagFeeds(vals, env0, tg, p);
    RetagKeeps(env0, vals, tg);
    Readings.Realized(sem0, pool, vals, env0, env);
    sem, pool := Reader(env), Readings.PoolOf(env);
    LoadIs(p, i, b, g);
    var m, k := LoadSpan(sem, p, env, b, g);
    forall st: State | StableHeld(p.stable, env, st.locals)
      ensures Flow(sem, p.code, p.es[i].start, p.es[i].end, st) == Next(Pushed(st, [w]))
    {
      assert ComputesAt(sem, env, p.code, p.es[i].start, p.es[i].end, u, st);
    }
  }

  lemma FedHas(p: Plan, env: Env, vals: IntCode.Values, i: int, b: int, g: int, c: int)
    requires Layout(p.code, p.s) && FedPlan(p, env, vals) && Pair(p, i, b, g, c)
    requires !SameOrder(MadeTerm(p, c, g), MadeTerm(p, b, g))
    ensures Fed(env, vals, MadeTerm(p, c, g))
  {
    hide MadeTerm, Layout, Fed, SameOrder, Pair;
    assert FedAt(p, env, vals, i, b, g, c);
  }

  lemma RetagKeeps(env: Env, vals: IntCode.Values, tg: Tags)
    ensures var env' := RetagEnv(env, vals, tg);
            && env'.eval == env.eval && |env'.locals| == |env.locals|
            && forall core :: core == [] || core[0] != CONST_GET ==> env'.leaf(core) == env.leaf(core)
  {
    hide Retag;
    var env' := RetagEnv(env, vals, tg);
    forall core | core == [] || core[0] != CONST_GET
      ensures env'.leaf(core) == env.leaf(core)
    {
      assert env'.leaf(core) == RetagLeaf(env, vals, tg, core);
    }
  }

  /** An oriented plan's loads push what the ranges they replace push. */
  lemma OrientedReloads(sem: Semantics, pool: seq<int>, vals: IntCode.Values, env: Env, p: Plan, i: nat, b: int, g: int,
                        a: State, extra: seq<int>)
    requires BodyOk(p) && Oriented(p)
    ensures ReloadsAt(sem, pool, vals, env, p, i, b, g, a, extra)
  {
    hide BodyOk, MadeTerm, Layout, FedPlan, IsLoad, Supplies, Captures, Reloads, TermValue, StableHeld, Standard,
         IntCode.Reads, Uniform, Sensible, Oriented, HoldsFrom, Flow;
    Shape(p);
    if Machine(sem, pool, vals, env) && FedPlan(p, env, vals) && IsLoad(p, i, b, g) &&
        StableHeld(p.stable, env, a.locals) && |extra| == p.count && InSlot(p, env, b, g, extra) {
      OrientedAgrees(sem, pool, vals, env, p);
      var v := extra[p.slots[g]];
      var c :| HoldsFrom(p, env, c, b, g, v);
      assert AgreesAt(p, env, b, g, c);
      LoadIs(p, i, b, g);
      LoadPushes(sem, p, env, i, b, g, c, v, a, extra);
      assert PushesBoth(sem, p, i, a, extra, v);
    }
  }

  /** A plan that is not has a load that does not. */
  lemma TurnedReloads(p: Plan, i: int, b: int, g: int, c: int)
    requires PlanOk(p) && Live(p) && Pair(p, i, b, g, c) && !SameWay(MadeTerm(p, c, g), MadeTerm(p, b, g))
    ensures !AlwaysReloads(p)
  {
    hide BodyOk, EditsOk, AvailOk, MadeTerm, Layout, FedPlan, IsLoad, Supplies, Captures, Reloads, TermValue,
         IntCode.Reads, Uniform, Sensible, Live, SameWay, HoldsFrom, Flow, Standard;
    PlanHas(p);
    var sem, pool, vals, env, v, w := Misled(p, i, b, g, c);
    LoadIs(p, i, b, g);
    var a, extra := State([], env.locals, 0), seq(p.count, _ => v);
    assert StableHeld(p.stable, env, a.locals) && extra[p.slots[g]] == v;
    assert InSlot(p, env, b, g, extra);
    LoadPushes(sem, p, env, i, b, g, c, v, a, extra);
    Unlike(a, extra, v, w);
    assert !ReloadsAt(sem, pool, vals, env, p, i, b, g, a, extra);
  }

  lemma Unlike(a: State, extra: seq<int>, v: int, w: int)
    requires a.stack == [] && v != w
    ensures forall x :: Next(Pushed(a, [w])) == Next(Pushed(a, [x])) ==>
      Next(Plus(Pushed(a, [v]), extra)) != Next(Plus(Pushed(a, [x]), extra))
  {
    forall x
      ensures Pushed(a, [x]).stack == [x]
    {
    }
  }

  /** On every machine that reads the opcodes as the handlers do the loads push what the ranges they replace push,
      exactly when the plan is oriented. */
  lemma OrientedIff(p: Plan)
    requires PlanOk(p) && Live(p)
    ensures Layout(p.code, p.s) && (Oriented(p) <==> AlwaysReloads(p))
  {
    hide PlanOk, BodyOk, MadeTerm, Layout, Live, SameWay, ReloadsAt, IsLoad, Supplies, Captures;
    PlanHas(p);
    if Oriented(p) {
      forall sem: Semantics, pool: seq<int>, vals: IntCode.Values, env: Env, i: nat, b: int, g: int, a: State,
          extra: seq<int>
        ensures ReloadsAt(sem, pool, vals, env, p, i, b, g, a, extra)
      {
        OrientedReloads(sem, pool, vals, env, p, i, b, g, a, extra);
      }
    } else {
      var i, b, g, c :| !OrientedAt(p, i, b, g, c);
      TurnedReloads(p, i, b, g, c);
    }
  }
}
