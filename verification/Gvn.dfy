/** Global value numbering: captures values where they are computed and reloads them where they are recomputed. */
module Gvn {
  import opened Bytecode
  import opened Stacks
  import opened Numbering
  import opened GroupValues
  import opened Edits
  import opened Splicer
  import opened Reuse
  import opened Redundancies
  import EditRuns
  import Blocks
  import Numberers
  import Avail

  function TeeEdit(base: nat, n: nat, x: int): Edit
    requires base + n < 256
  {
    Edit(x, x, [LOCAL_TEE, base + n])
  }

  function LoadEdit(base: nat, n: nat, c: Redundancy): Edit
    requires base + n < 256
  {
    Edit(c.start, c.end, [LOCAL_GET, base + n])
  }

  /** Each group with a slot has its own, and every slot is a local an instruction can name. */
  ghost predicate Slotted(slots: map<int, nat>, base: nat, count: nat) {
    && (slots != map[] ==> base + count <= 256)
    && (forall g :: g in slots ==> slots[g] < count)
    && (forall g, h :: g in slots && h in slots && slots[g] == slots[h] ==> g == h)
  }

  /** Only groups of the first k chosen have slots, and no slot is spare. */
  ghost predicate Tight(slots: map<int, nat>, chosen: seq<Redundancy>, count: nat, k: int) {
    && (forall g :: g in slots ==> exists m :: 0 <= m < k && m < |chosen| && chosen[m].def == g)
    && forall n :: 0 <= n < count ==> Given(slots, n)
  }

  ghost predicate Given(slots: map<int, nat>, n: int) {
    exists g :: g in slots && slots[g] == n
  }

  lemma TightNext(slots: map<int, nat>, chosen: seq<Redundancy>, count: nat, k: nat)
    requires Tight(slots, chosen, count, k) && k < |chosen|
    ensures Tight(slots, chosen, count, k + 1)
    ensures chosen[k].def !in slots ==> Tight(slots[chosen[k].def := count], chosen, count + 1, k + 1)
  {
    forall g | g in slots
      ensures exists m :: 0 <= m < k + 1 && m < |chosen| && chosen[m].def == g
    {
      var m :| 0 <= m < k && m < |chosen| && chosen[m].def == g;
    }
    if chosen[k].def !in slots {
      var slots' := slots[chosen[k].def := count];
      forall n | 0 <= n < count + 1
        ensures Given(slots', n)
      {
        if n < count {
          assert Given(slots, n);
          var g :| g in slots && slots[g] == n;
          assert g in slots' && slots'[g] == n;
        } else {
          assert slots'[chosen[k].def] == n;
        }
      }
      assert chosen[k].def in slots';
    }
  }

  ghost predicate CapturesBy(p: Plan, slots: map<int, nat>, e: Edit, b: int, g: int) {
    g in slots && |p.stable| + slots[g] < 256 && Captures(p, b, g) &&
        e == TeeEdit(|p.stable|, slots[g], p.gen[b][g].end)
  }

  ghost predicate IsCapture(p: Plan, slots: map<int, nat>, e: Edit) {
    exists b, g :: CapturesBy(p, slots, e, b, g)
  }

  ghost predicate ReloadsBy(p: Plan, slots: map<int, nat>, chosen: seq<Redundancy>, e: Edit, m: int)
    requires 0 <= m < |chosen|
  {
    chosen[m].def in slots && |p.stable| + slots[chosen[m].def] < 256 &&
        e == LoadEdit(|p.stable|, slots[chosen[m].def], chosen[m])
  }

  /** e reloads one of the first k chosen. */
  ghost predicate IsReload(p: Plan, slots: map<int, nat>, chosen: seq<Redundancy>, k: int, e: Edit) {
    exists m :: 0 <= m < k && m < |chosen| && ReloadsBy(p, slots, chosen, e, m)
  }

  ghost predicate OneInsert(es: seq<Edit>) {
    forall i, j :: 0 <= i < j < |es| && es[i].start == es[i].end && es[j].start == es[j].end ==>
        es[i].start != es[j].start
  }

  /** Edits scheduled for the first k chosen: captures and reloads, clear of each other. */
  ghost predicate Scheduled(p: Plan, slots: map<int, nat>, chosen: seq<Redundancy>, k: int, es: seq<Edit>) {
    && (forall e :: e in es ==> IsCapture(p, slots, e) || IsReload(p, slots, chosen, k, e))
    && AllClear(es) && OneInsert(es)
  }

  /** No capture of a group with a slot lies inside a chosen range. */
  ghost predicate Uncovered(slots: map<int, nat>, chosen: seq<Redundancy>, defs: map<int, seq<int>>) {
    forall g, i :: g in slots && 0 <= i < |DefList(defs, g)| ==> !Covers(chosen, DefList(defs, g)[i])
  }

  ghost predicate CapturedAt(p: Plan, slots: map<int, nat>, es: seq<Edit>, g: int, x: int) {
    g in slots && |p.stable| + slots[g] < 256 && TeeEdit(|p.stable|, slots[g], x) in es
  }

  /** Every definition of a group with a slot captures. */
  ghost predicate AllCaptured(p: Plan, slots: map<int, nat>, defs: map<int, seq<int>>, es: seq<Edit>) {
    forall g, i :: g in slots && 0 <= i < |DefList(defs, g)| ==> CapturedAt(p, slots, es, g, DefList(defs, g)[i])
  }

  /** Why a chosen range is left alone: no local can hold its value, or a capture would be lost. */
  ghost predicate LeftAlone(p: Plan, chosen: seq<Redundancy>, defs: map<int, seq<int>>, count: nat, c: Redundancy) {
    || KindType(c.kind).None? || |p.stable| + count > 255 || DefList(defs, c.def) == []
    || exists i :: 0 <= i < |DefList(defs, c.def)| && Covers(chosen, DefList(defs, c.def)[i])
  }

  /** Range m is replaced. */
  ghost predicate Reloaded(p: Plan, slots: map<int, nat>, chosen: seq<Redundancy>, es: seq<Edit>, m: int) {
    0 <= m < |chosen| && exists e :: e in es && ReloadsBy(p, slots, chosen, e, m)
  }

  /** Every one of the first k chosen is replaced unless there is a reason to leave it alone. */
  ghost predicate Treated(p: Plan, slots: map<int, nat>, chosen: seq<Redundancy>, defs: map<int, seq<int>>, count: nat,
                          es: seq<Edit>, k: int) {
    forall m :: 0 <= m < k && m < |chosen| ==>
        Reloaded(p, slots, chosen, es, m) || LeftAlone(p, chosen, defs, count, chosen[m])
  }

  /** The chosen ranges are redundant computations, apart from each other. */
  ghost predicate ChosenOk(p: Plan, chosen: seq<Redundancy>) {
    Separate(chosen) && forall m :: 0 <= m < |chosen| ==> ChosenAt(p, chosen[m])
  }

  ghost predicate ChosenAt(p: Plan, c: Redundancy) {
    exists b :: Stands(p, c, b, c.def)
  }

  lemma RangeOf(p: Plan, b: int, g: int)
    requires BodyOk(p) && Reloads(p, b, g)
    ensures var c := p.gen[b][g];
            && 0 <= c.start < c.end <= |p.code| && c.start in p.s && c.end in p.s
            && (forall k ::
               0 <= k < |p.s| - 1 && c.start <= p.s[k] < c.end ==> 0 <= p.s[k] < |p.code| && !IsBranch(p.code[p.s[k]]))
  {
    hide BodyOk, Standard, Sensible, Reloads;
    var env := Env([], _ => 0, (_, _) => None);
    var sem := SomeReading(env);
    LoadRange(sem, p, env, b, g);
  }

  lemma ChosenRange(p: Plan, c: Redundancy)
    requires BodyOk(p) && ChosenAt(p, c)
    ensures 0 <= c.start < c.end <= |p.code| && c.start in p.s && c.end in p.s
    ensures forall k ::
      0 <= k < |p.s| - 1 && c.start <= p.s[k] < c.end ==> 0 <= p.s[k] < |p.code| && !IsBranch(p.code[p.s[k]])
  {
    hide BodyOk, Reloads;
    var b :| Stands(p, c, b, c.def);
    ReloadsIs(p, b, c.def);
    RangeOf(p, b, c.def);
  }

  /** A capture ends a computation. */
  lemma CaptureSpot(p: Plan, b: int, g: int)
    requires BodyOk(p) && Captures(p, b, g)
    ensures Made(p, b, g) && 0 < p.gen[b][g].end <= |p.code| && p.gen[b][g].end in p.s
  {
    hide BodyOk, IsPure;
    CapturesIs(p, b, g);
    var k := GenInside(p, b, g);
    BlockSpan(p, b);
  }

  /** A definition whose capture is scheduled is known to be clear of every chosen range. */
  lemma CaptureClear(p: Plan, slots: map<int, nat>, chosen: seq<Redundancy>, defs: map<int, seq<int>>, b: int, g: int,
                     m: int)
    requires DefsOk(p, defs) && Uncovered(slots, chosen, defs) && g in slots && Captures(p, b, g) && 0 <= m < |chosen|
    ensures !(chosen[m].start < p.gen[b][g].end < chosen[m].end)
  {
    hide DefsOf, DefList;
    assert Listed(p, defs, b, g);
    var i :| 0 <= i < |DefList(defs, g)| && DefList(defs, g)[i] == p.gen[b][g].end;
    assert !Covers(chosen, DefList(defs, g)[i]);
  }

  /** Adding the reload of range k. */
  lemma AddReload(p: Plan, slots: map<int, nat>, chosen: seq<Redundancy>, defs: map<int, seq<int>>, k: int,
                  es: seq<Edit>, e: Edit)
    requires BodyOk(p) && ChosenOk(p, chosen) && DefsOk(p, defs) && Uncovered(slots, chosen, defs) && 0 <= k < |chosen|
    requires Scheduled(p, slots, chosen, k, es) && ReloadsBy(p, slots, chosen, e, k)
    ensures Scheduled(p, slots, chosen, k + 1, es + [e])
  {
    hide BodyOk, Captures, DefsOk, Uncovered, ChosenAt;
    assert ChosenAt(p, chosen[k]);
    ChosenRange(p, chosen[k]);
    forall x | x in es + [e]
      ensures IsCapture(p, slots, x) || IsReload(p, slots, chosen, k + 1, x)
      ensures x in es ==> Clear(x, e)
    {
      if x in es {
        if b, g :| CapturesBy(p, slots, x, b, g) {
          CaptureClear(p, slots, chosen, defs, b, g, k);
        } else {
          var m :| 0 <= m < k && m < |chosen| && ReloadsBy(p, slots, chosen, x, m);
        }
      }
    }
  }

  /** Adding the capture at a definition of g. */
  lemma AddCapture(p: Plan, slots: map<int, nat>, chosen: seq<Redundancy>, defs: map<int, seq<int>>, k: int,
                   es: seq<Edit>, b: int, g: int, e: Edit)
    requires BodyOk(p) && ChosenOk(p, chosen) && DefsOk(p, defs) && Uncovered(slots, chosen, defs) && 0 <= k <= |chosen|
    requires Scheduled(p, slots, chosen, k, es) && CapturesBy(p, slots, e, b, g)
    requires forall x :: x in es && x.start == x.end ==> x.start != e.start
    ensures Scheduled(p, slots, chosen, k, es + [e])
  {
    hide BodyOk, Captures, DefsOk, Uncovered, ChosenAt;
    forall x | x in es
      ensures Clear(x, e)
    {
      if IsReload(p, slots, chosen, k, x) {
        var m :| 0 <= m < k && m < |chosen| && ReloadsBy(p, slots, chosen, x, m);
        CaptureClear(p, slots, chosen, defs, b, g, m);
      }
    }
  }

  /** A slot more changes nothing for the groups that have one. */
  lemma MoreSlots(p: Plan, slots: map<int, nat>, chosen: seq<Redundancy>, defs: map<int, seq<int>>, k: int,
                  es: seq<Edit>, g: int, count: nat)
    requires Scheduled(p, slots, chosen, k, es) && Slotted(slots, |p.stable|, count) && g !in slots
    requires |p.stable| + count <= 255
    ensures Scheduled(p, slots[g := count], chosen, k, es) && Slotted(slots[g := count], |p.stable|, count + 1)
  {
    hide Captures, AllClear, OneInsert;
    var slots' := slots[g := count];
    forall e | e in es
      ensures IsCapture(p, slots', e) || IsReload(p, slots', chosen, k, e)
    {
      if b, h :| CapturesBy(p, slots, e, b, h) {
        assert CapturesBy(p, slots', e, b, h);
      } else {
        var m :| 0 <= m < k && m < |chosen| && ReloadsBy(p, slots, chosen, e, m);
        assert ReloadsBy(p, slots', chosen, e, m);
      }
    }
  }

  lemma MoreUncovered(slots: map<int, nat>, chosen: seq<Redundancy>, defs: map<int, seq<int>>, g: int, n: nat)
    requires Uncovered(slots, chosen, defs) && forall i ::
      0 <= i < |DefList(defs, g)| ==> !Covers(chosen, DefList(defs, g)[i])
    ensures Uncovered(slots[g := n], chosen, defs)
  {
    hide Covers, DefList;
  }

  /** Edits that insert where a group without a slot is computed: there are none. */
  lemma NoInsertYet(p: Plan, slots: map<int, nat>, chosen: seq<Redundancy>, defs: map<int, seq<int>>, k: int,
                    es: seq<Edit>, g: int)
    requires BodyOk(p) && ChosenOk(p, chosen) && DefsOk(p, defs) && Scheduled(p, slots, chosen, k, es) && g !in slots
    ensures forall x :: x in es && x.start == x.end ==> x.start !in DefList(defs, g)
  {
    hide BodyOk, Captures, DefList, AllClear, OneInsert, ChosenAt;
    forall x | x in es && x.start == x.end
      ensures x.start !in DefList(defs, g)
    {
      if b, h :| CapturesBy(p, slots, x, b, h) {
        NotDefinedAt(p, defs, b, h, g);
      } else {
        var m :| 0 <= m < k && m < |chosen| && ReloadsBy(p, slots, chosen, x, m);
        ChosenRange(p, chosen[m]);
      }
    }
  }

  lemma NotDefinedAt(p: Plan, defs: map<int, seq<int>>, b: int, h: int, g: int)
    requires BodyOk(p) && DefsOk(p, defs) && Captures(p, b, h) && g != h
    ensures p.gen[b][h].end !in DefList(defs, g)
  {
    hide BodyOk, DefList, Distinct;
    var ds := DefList(defs, g);
    assert DefsOf(p, defs, g);
    forall i | 0 <= i < |ds|
      ensures ds[i] != p.gen[b][h].end
    {
      assert Defined(p, g, ds[i]);
      var d :| DefAt(p, d, g, ds[i]);
      if ds[i] == p.gen[b][h].end {
        OneAtSpot(p, b, h, d, g);
      }
    }
  }

  /** Schedules a capture at every definition of group g. */
  method CaptureAll(w: Rewriter, base: nat, n: nat, g: int, ds: seq<int>, ghost p: Plan, ghost slots: map<int, nat>,
                    ghost chosen: seq<Redundancy>, ghost defs: map<int, seq<int>>, ghost k: int)
    requires BodyOk(p) && ChosenOk(p, chosen) && DefsOk(p, defs) && Uncovered(slots, chosen, defs) && 0 <= k <= |chosen|
    requires Scheduled(p, slots, chosen, k, w.edits) && g in slots && slots[g] == n && base == |p.stable|
    requires base + n < 256 && ds == DefList(defs, g)
    requires forall x :: x in w.edits && x.start == x.end ==> x.start !in ds
    modifies w
    ensures w.edits == old(w.edits) + seq(|ds|, i requires 0 <= i < |ds| => TeeEdit(base, n, ds[i]))
    ensures Scheduled(p, slots, chosen, k, w.edits)
  {
    hide BodyOk, ChosenOk, DefsOk, Uncovered, Scheduled, Captures, DefList;
    ghost var start := w.edits;
    for i := 0 to |ds|
      invariant w.edits == start + seq(i, j requires 0 <= j < i => TeeEdit(base, n, ds[j]))
      invariant Scheduled(p, slots, chosen, k, w.edits)
    {
      ghost var e := TeeEdit(base, n, ds[i]);
      ghost var b := DefinedIn(p, defs, g, i);
      NewSpot(start, base, n, ds, i, w.edits);
      AddCapture(p, slots, chosen, defs, k, w.edits, b, g, e);
      w.Insert(ds[i], [LOCAL_TEE, base + n]);
      assert seq(i + 1, j requires 0 <= j < i + 1 => TeeEdit(base, n, ds[j])) ==
          seq(i, j requires 0 <= j < i => TeeEdit(base, n, ds[j])) + [e];
    }
  }

  lemma DefinedIn(p: Plan, defs: map<int, seq<int>>, g: int, i: nat) returns (b: int)
    requires DefsOk(p, defs) && i < |DefList(defs, g)|
    ensures Captures(p, b, g) && p.gen[b][g].end == DefList(defs, g)[i]
    ensures Distinct(DefList(defs, g))
  {
    hide DefList, Distinct;
    assert DefsOf(p, defs, g);
    assert Defined(p, g, DefList(defs, g)[i]);
    b :| DefAt(p, b, g, DefList(defs, g)[i]);
  }

  lemma NewSpot(start: seq<Edit>, base: nat, n: nat, ds: seq<int>, i: nat, es: seq<Edit>)
    requires i < |ds| && Distinct(ds) && base + n < 256
    requires es == start + seq(i, j requires 0 <= j < i => TeeEdit(base, n, ds[j]))
    requires forall x :: x in start && x.start == x.end ==> x.start !in ds
    ensures forall x :: x in es && x.start == x.end ==> x.start != ds[i]
  {
    forall x | x in es && x.start == x.end
      ensures x.start != ds[i]
    {
      if x !in start {
        var j :| 0 <= j < i && x == TeeEdit(base, n, ds[j]);
      }
    }
  }

  lemma TreatedMore(p: Plan, slots: map<int, nat>, slots': map<int, nat>, chosen: seq<Redundancy>,
                    defs: map<int, seq<int>>, count: nat, count': nat, es: seq<Edit>, es': seq<Edit>, k: nat)
    requires Treated(p, slots, chosen, defs, count, es, k) && count <= count' && k < |chosen|
    requires (forall g :: g in slots ==> g in slots' && slots'[g] == slots[g]) && forall e :: e in es ==> e in es'
    requires Reloaded(p, slots', chosen, es', k) || LeftAlone(p, chosen, defs, count', chosen[k])
    ensures Treated(p, slots', chosen, defs, count', es', k + 1)
  {
    hide Covers, DefList, KindType;
    forall m | 0 <= m < k + 1 && m < |chosen|
      ensures Reloaded(p, slots', chosen, es', m) || LeftAlone(p, chosen, defs, count', chosen[m])
    {
      if m < k && Reloaded(p, slots, chosen, es, m) {
        ReloadedMore(p, slots, slots', chosen, es, es', m);
      }
    }
  }

  lemma ReloadedMore(p: Plan, slots: map<int, nat>, slots': map<int, nat>, chosen: seq<Redundancy>, es: seq<Edit>,
                     es': seq<Edit>, m: int)
    requires Reloaded(p, slots, chosen, es, m)
    requires (forall g :: g in slots ==> g in slots' && slots'[g] == slots[g]) && forall e :: e in es ==> e in es'
    ensures Reloaded(p, slots', chosen, es', m)
  {
    var e :| e in es && ReloadsBy(p, slots, chosen, e, m);
    assert e in es' && ReloadsBy(p, slots', chosen, e, m);
  }

  lemma CapturedMore(p: Plan, slots: map<int, nat>, defs: map<int, seq<int>>, es: seq<Edit>, es': seq<Edit>, g: int,
                     n: nat)
    requires AllCaptured(p, slots, defs, es) && g !in slots && |p.stable| + n < 256 && forall e :: e in es ==> e in es'
    requires forall i :: 0 <= i < |DefList(defs, g)| ==> TeeEdit(|p.stable|, n, DefList(defs, g)[i]) in es'
    ensures AllCaptured(p, slots[g := n], defs, es')
  {
    hide DefList;
    var slots' := slots[g := n];
    forall h, i | h in slots' && 0 <= i < |DefList(defs, h)|
      ensures CapturedAt(p, slots', es', h, DefList(defs, h)[i])
    {
      if h != g {
        assert CapturedAt(p, slots, es, h, DefList(defs, h)[i]);
      }
    }
  }

  lemma ChosenFrom(p: Plan, red: map<int, Redundancy>, chosen: seq<Redundancy>)
    requires RedsOk(p, red) && Separate(chosen) && forall i :: 0 <= i < |chosen| ==> chosen[i] in red.Values
    ensures ChosenOk(p, chosen)
  {
    hide Separate, Reloads;
    forall m | 0 <= m < |chosen|
      ensures ChosenAt(p, chosen[m])
    {
      RedRange(p, red, chosen[m]);
    }
  }

  lemma RedRange(p: Plan, red: map<int, Redundancy>, c: Redundancy)
    requires RedsOk(p, red) && c in red.Values
    ensures ChosenAt(p, c)
  {
    hide Reloads;
    assert (forall ip :: ip in red ==> red[ip] != c) ==> c !in red.Values;
    var ip :| ip in red && red[ip] == c;
    assert Standing(p, red, ip);
    var b, g :| StandsAt(p, red, ip, b, g);
  }

  lemma RedsInside(p: Plan, red: map<int, Redundancy>)
    requires BodyOk(p) && RedsOk(p, red)
    ensures forall c :: c in red.Values ==> 0 <= c.start <= c.end
  {
    hide BodyOk, RedsOk, ChosenAt;
    forall c | c in red.Values
      ensures 0 <= c.start <= c.end
    {
      RedRange(p, red, c);
      ChosenRange(p, c);
    }
  }

  /** Scheduled edits can be applied together. */
  lemma CanApply(p: Plan, slots: map<int, nat>, chosen: seq<Redundancy>, k: int, es: seq<Edit>, w: Rewriter)
    requires BodyOk(p) && ChosenOk(p, chosen) && Scheduled(p, slots, chosen, k, es) && w.code == p.code
    requires w.handlers == [] && w.edits == es
    ensures Layout(p.code, p.s) && w.Schedulable(p.s)
  {
    hide BodyOk, Layout, Captures, AllClear, OneInsert, ChosenAt;
    Shape(p);
    forall e | e in es
      ensures 0 <= e.start <= e.end <= |p.code| && e.start in p.s && e.end in p.s
      ensures forall q ::
        0 <= q < |p.s| - 1 && e.start <= p.s[q] < e.end ==> 0 <= p.s[q] < |p.code| && !IsBranch(p.code[p.s[q]])
    {
      if b, g :| CapturesBy(p, slots, e, b, g) {
        CaptureSpot(p, b, g);
      } else {
        var m :| 0 <= m < k && m < |chosen| && ReloadsBy(p, slots, chosen, e, m);
        ChosenRange(p, chosen[m]);
      }
    }
    Blocks.SlotsOf(p.code, p.s);
  }

  lemma StartScheduled(p: Plan, chosen: seq<Redundancy>, defs: map<int, seq<int>>)
    ensures Slotted(map[], |p.stable|, 0) && Scheduled(p, map[], chosen, 0, []) && Uncovered(map[], chosen, defs)
    ensures AllCaptured(p, map[], defs, []) && Treated(p, map[], chosen, defs, 0, [], 0)
  {
  }

  /** What the loop over the chosen ranges keeps. */
  ghost predicate Going(p: Plan, slots: map<int, nat>, chosen: seq<Redundancy>, defs: map<int, seq<int>>, count: nat,
                        es: seq<Edit>, k: int) {
    && Slotted(slots, |p.stable|, count) && Scheduled(p, slots, chosen, k, es) && Uncovered(slots, chosen, defs)
    && AllCaptured(p, slots, defs, es)
  }

  /** Gives range k's group a slot, if one is needed and can be given. */
  method SlotFor(w: Rewriter, base: nat, c: Redundancy, slots: map<int, nat>, added: seq<Type>,
                 defs: map<int, seq<int>>, chosen: seq<Redundancy>, ghost p: Plan, ghost k: nat)
                 returns (slots': map<int, nat>, added': seq<Type>)
    requires BodyOk(p) && ChosenOk(p, chosen) && DefsOk(p, defs) && base == |p.stable| && k < |chosen| && c == chosen[k]
    requires Going(p, slots, chosen, defs, |added|, w.edits, k) && Tight(slots, chosen, |added|, k)
    modifies w
    ensures Going(p, slots', chosen, defs, |added'|, w.edits, k) && |added| <= |added'|
    ensures Tight(slots', chosen, |added'|, k + 1) && (c.def !in slots' ==> slots' == slots && w.edits == old(w.edits))
    ensures (forall g :: g in slots ==> g in slots' && slots'[g] == slots[g]) && forall e ::
      e in old(w.edits) ==> e in w.edits
    ensures c.def in slots' || LeftAlone(p, chosen, defs, |added'|, c)
  {
    hide BodyOk, ChosenOk, DefsOk, Uncovered, Scheduled, AllCaptured, DefList, KindType, Covers, Tight;
    slots', added' := slots, added;
    TightNext(slots, chosen, |added|, k);
    if c.def in slots {
      return;
    }
    var ds := DefList(defs, c.def);
    var t := KindType(c.kind);
    var covered := Covered(chosen, ds);
    var n := |added|;
    if t.None? || base + n > 255 || |ds| == 0 || covered {
      return;
    }
    MoreSlots(p, slots, chosen, defs, k, w.edits, c.def, n);
    MoreUncovered(slots, chosen, defs, c.def, n);
    NoInsertYet(p, slots, chosen, defs, k, w.edits, c.def);
    slots' := slots[c.def := n];
    added' := added + [t.value];
    ghost var before := w.edits;
    CaptureAll(w, base, n, c.def, ds, p, slots', chosen, defs, k);
    AllThere(before, base, n, ds, w.edits);
    CapturedMore(p, slots, defs, before, w.edits, c.def, n);
  }

  lemma AllThere(start: seq<Edit>, base: nat, n: nat, ds: seq<int>, es: seq<Edit>)
    requires base + n < 256 && es == start + seq(|ds|, i requires 0 <= i < |ds| => TeeEdit(base, n, ds[i]))
    ensures (forall e :: e in start ==> e in es) && forall i :: 0 <= i < |ds| ==> TeeEdit(base, n, ds[i]) in es
  {
    var more := seq(|ds|, i requires 0 <= i < |ds| => TeeEdit(base, n, ds[i]));
    forall i | 0 <= i < |ds|
      ensures TeeEdit(base, n, ds[i]) in es
    {
      assert more[i] in es;
    }
  }

  lemma {:induction false} TwoOf(es: seq<Edit>, x: Edit)
    requires multiset(es)[x] >= 2
    ensures exists i, j :: 0 <= i < j < |es| && es[i] == x && es[j] == x
  {
    var n := |es| - 1;
    assert es == es[..n] + [es[n]];
    if es[n] == x {
      assert x in multiset(es[..n]);
      assert x in es[..n];
      var i :| 0 <= i < n && es[..n][i] == x;
      assert es[i] == x && es[n] == x;
    } else {
      TwoOf(es[..n], x);
      var i, j :| 0 <= i < j < n && es[..n][i] == x && es[..n][j] == x;
      assert es[i] == x && es[j] == x;
    }
  }

  lemma TwiceIn(es: seq<Edit>, i: int, j: int)
    requires 0 <= i < j < |es| && es[i] == es[j]
    ensures multiset(es)[es[i]] >= 2
  {
    assert es == es[..j] + es[j..];
    assert es[i] in es[..j] && es[j] in es[j..] by {
      assert es[..j][i] == es[i] && es[j..][0] == es[j];
    }
  }

  /** Order does not matter for insertions to be apart. */
  lemma OneInsertKept(es: seq<Edit>, es': seq<Edit>)
    requires OneInsert(es) && multiset(es) == multiset(es')
    ensures OneInsert(es')
  {
    forall i, j | 0 <= i < j < |es'| && es'[i].start == es'[i].end && es'[j].start == es'[j].end
      ensures es'[i].start != es'[j].start
    {
      SameSpotIn(es, es', i, j);
    }
  }

  lemma SameSpotIn(es: seq<Edit>, es': seq<Edit>, i: int, j: int)
    requires OneInsert(es) && multiset(es) == multiset(es') && 0 <= i < j < |es'|
    requires es'[i].start == es'[i].end && es'[j].start == es'[j].end
    ensures es'[i].start != es'[j].start
  {
    var x, y := es'[i], es'[j];
    if x == y {
      TwiceIn(es', i, j);
      TwoOf(es, x);
    } else {
      assert x in multiset(es') && y in multiset(es');
      var a := Find(es, x);
      var b := Find(es, y);
      assert a < b || b < a;
    }
  }

  lemma Find(es: seq<Edit>, x: Edit) returns (i: int)
    requires x in es || x in multiset(es)
    ensures 0 <= i < |es| && es[i] == x
  {
    i :| 0 <= i < |es| && es[i] == x;
  }

  ghost predicate Amends(p: Plan, q: Plan) {
    q == p.(slots := q.slots, count := q.count, es := q.es)
  }

  lemma SameBody(p: Plan, q: Plan)
    requires Amends(p, q)
    ensures BodyOk(p) ==> BodyOk(q)
    ensures AvailOk(p) ==> AvailOk(q)
    ensures forall b, g :: (Captures(p, b, g) <==> Captures(q, b, g)) && (Reloads(p, b, g) <==> Reloads(q, b, g))
  {
    hide Layout, Numbered, Blocks.IsCfg, Blocks.Targeted, Blocks.InRange, Blocks.TablesEndBlocks, NeverAssigned;
  }

  /** A scheduled edit is one of the plan's. */
  lemma PlannedEdit(p: Plan, q: Plan, chosen: seq<Redundancy>, k: int, i: nat)
    requires Amends(p, q) && ChosenOk(p, chosen) && i < |q.es|
    requires IsCapture(p, q.slots, q.es[i]) || IsReload(p, q.slots, chosen, k, q.es[i])
    ensures EditOk(q, i)
  {
    hide Captures, Reloads, Separate;
    SameBody(p, q);
    if b, g :| CapturesBy(p, q.slots, q.es[i], b, g) {
      assert IsTee(q, i, b, g);
    } else {
      var m :| 0 <= m < k && m < |chosen| && ReloadsBy(p, q.slots, chosen, q.es[i], m);
      assert ChosenAt(p, chosen[m]);
      var b :| Stands(p, chosen[m], b, chosen[m].def);
      assert IsLoad(q, i, b, chosen[m].def);
    }
  }

  /** Every capture of a group with a slot is among the plan's edits. */
  lemma PlannedTee(p: Plan, q: Plan, defs: map<int, seq<int>>, b: int, g: int)
    requires Amends(p, q) && DefsOk(p, defs) && AllCaptured(p, q.slots, defs, q.es) && g in q.slots && Captures(p, b, g)
    ensures TeeFor(q, b, g)
  {
    hide Captures, DefList, DefsOf, AllCaptured, BodyOk, AvailOk;
    SameBody(p, q);
    CapturesIs(p, b, g);
    CaptureScheduled(p, q.slots, defs, q.es, b, g);
    var m := Find(q.es, TeeEdit(|p.stable|, q.slots[g], p.gen[b][g].end));
    assert IsTee(q, m, b, g);
  }

  lemma CaptureScheduled(p: Plan, slots: map<int, nat>, defs: map<int, seq<int>>, es: seq<Edit>, b: int, g: int)
    requires DefsOk(p, defs) && AllCaptured(p, slots, defs, es) && g in slots && Captures(p, b, g)
    ensures Made(p, b, g) && |p.stable| + slots[g] < 256 && TeeEdit(|p.stable|, slots[g], p.gen[b][g].end) in es
  {
    hide Captures, DefList, DefsOf;
    CapturesIs(p, b, g);
    assert Listed(p, defs, b, g);
    var i :| 0 <= i < |DefList(defs, g)| && DefList(defs, g)[i] == p.gen[b][g].end;
    assert CapturedAt(p, slots, es, g, DefList(defs, g)[i]);
  }

  /** The edits in order make a plan. */
  lemma Planned(p: Plan, q: Plan, chosen: seq<Redundancy>, defs: map<int, seq<int>>, es: seq<Edit>)
    requires BodyOk(p) && AvailOk(p) && ChosenOk(p, chosen) && DefsOk(p, defs) && Amends(p, q)
    requires Going(p, q.slots, chosen, defs, q.count, es, |chosen|) && q.slots != map[]
    requires multiset(q.es) == multiset(es) && Apart(q.es, |p.code|)
    ensures PlanOk(q)
  {
    hide BodyOk, AvailOk, ChosenOk, DefsOk, Uncovered, AllCaptured, AllClear, OneInsert, EditOk, TeeFor, Captures,
         Apart, IsCapture, IsReload;
    SameBody(p, q);
    SameMembers(q.es, es);
    OneInsertKept(es, q.es);
    forall i | 0 <= i < |q.es|
      ensures EditOk(q, i)
    {
      assert q.es[i] in es;
      PlannedEdit(p, q, chosen, |chosen|, i);
    }
    CapturedKept(p, q.slots, defs, es, q.es);
    forall b, g | g in q.slots && Captures(q, b, g)
      ensures TeeFor(q, b, g)
    {
      PlannedTee(p, q, defs, b, g);
    }
    InsertsApart(q);
  }

  lemma InsertsApart(q: Plan)
    requires OneInsert(q.es)
    ensures forall i, j ::
      0 <= i < j < |q.es| && q.es[i].start == q.es[i].end && q.es[j].start == q.es[j].end ==>
      q.es[i].start != q.es[j].start
  {
  }

  lemma SameMembers(a: seq<Edit>, b: seq<Edit>)
    requires multiset(a) == multiset(b)
    ensures forall e :: e in a <==> e in b
  {
    forall e
      ensures e in a <==> e in b
    {
      assert e in a <==> e in multiset(a);
      assert e in b <==> e in multiset(b);
    }
  }

  lemma CapturedKept(p: Plan, slots: map<int, nat>, defs: map<int, seq<int>>, es: seq<Edit>, es': seq<Edit>)
    requires AllCaptured(p, slots, defs, es) && forall e :: e in es ==> e in es'
    ensures AllCaptured(p, slots, defs, es')
  {
    hide DefList;
    forall g, i | g in slots && 0 <= i < |DefList(defs, g)|
      ensures CapturedAt(p, slots, es', g, DefList(defs, g)[i])
    {
      assert CapturedAt(p, slots, es, g, DefList(defs, g)[i]);
    }
  }

  lemma TreatedKept(p: Plan, slots: map<int, nat>, chosen: seq<Redundancy>, defs: map<int, seq<int>>, count: nat,
                    es: seq<Edit>, es': seq<Edit>, k: nat)
    requires Treated(p, slots, chosen, defs, count, es, k) && forall e :: e in es ==> e in es'
    ensures Treated(p, slots, chosen, defs, count, es', k)
  {
    hide LeftAlone;
    forall m | 0 <= m < k && m < |chosen|
      ensures Reloaded(p, slots, chosen, es', m) || LeftAlone(p, chosen, defs, count, chosen[m])
    {
      if Reloaded(p, slots, chosen, es, m) {
        ReloadedMore(p, slots, slots, chosen, es, es', m);
      }
    }
  }

  ghost predicate SomeDone(p: Plan, slots: map<int, nat>, chosen: seq<Redundancy>, es: seq<Edit>) {
    exists m :: Reloaded(p, slots, chosen, es, m)
  }

  /** There is a reason to leave each of the first k chosen alone. */
  ghost predicate AloneTo(p: Plan, chosen: seq<Redundancy>, defs: map<int, seq<int>>, count: nat, k: int) {
    forall m :: 0 <= m < k && m < |chosen| ==> LeftAlone(p, chosen, defs, count, chosen[m])
  }

  lemma StartGoing(p: Plan, chosen: seq<Redundancy>, defs: map<int, seq<int>>)
    ensures Going(p, map[], chosen, defs, 0, [], 0) && Treated(p, map[], chosen, defs, 0, [], 0)
    ensures AloneTo(p, chosen, defs, 0, 0) && Tight(map[], chosen, 0, 0)
  {
    hide LeftAlone, Reloaded;
    StartScheduled(p, chosen, defs);
  }

  lemma GoingOn(p: Plan, slots: map<int, nat>, chosen: seq<Redundancy>, defs: map<int, seq<int>>, count: nat,
                es: seq<Edit>, k: nat)
    requires Going(p, slots, chosen, defs, count, es, k)
    ensures Going(p, slots, chosen, defs, count, es, k + 1)
  {
    hide Slotted, Uncovered, AllCaptured, IsCapture, AllClear, OneInsert;
    forall e | e in es && IsReload(p, slots, chosen, k, e)
      ensures IsReload(p, slots, chosen, k + 1, e)
    {
      var m :| 0 <= m < k && m < |chosen| && ReloadsBy(p, slots, chosen, e, m);
    }
  }

  lemma AloneMore(p: Plan, chosen: seq<Redundancy>, defs: map<int, seq<int>>, count: nat, count': nat, k: nat)
    requires count <= count' && AloneTo(p, chosen, defs, count, k)
    ensures AloneTo(p, chosen, defs, count', k)
    ensures k < |chosen| && LeftAlone(p, chosen, defs, count', chosen[k]) ==> AloneTo(p, chosen, defs, count', k + 1)
  {
    hide Covers, DefList, KindType;
  }

  lemma SlotFits(p: Plan, slots: map<int, nat>, chosen: seq<Redundancy>, defs: map<int, seq<int>>, count: nat,
                 es: seq<Edit>, k: int, g: int)
    requires Going(p, slots, chosen, defs, count, es, k) && g in slots
    ensures slots[g] < count && |p.stable| + slots[g] < 256
  {
    hide Scheduled, Uncovered, AllCaptured;
  }

  /** Scheduling the reload of range k. */
  lemma AddLoad(p: Plan, slots: map<int, nat>, chosen: seq<Redundancy>, defs: map<int, seq<int>>, count: nat,
                es: seq<Edit>, k: nat, es': seq<Edit>)
    requires BodyOk(p) && ChosenOk(p, chosen) && DefsOk(p, defs) && k < |chosen|
    requires Going(p, slots, chosen, defs, count, es, k)
    requires chosen[k].def in slots && |p.stable| + slots[chosen[k].def] < 256
    requires es' == es + [LoadEdit(|p.stable|, slots[chosen[k].def], chosen[k])]
    ensures Going(p, slots, chosen, defs, count, es', k + 1) && Reloaded(p, slots, chosen, es', k)
  {
    hide BodyOk, ChosenOk, DefsOk, Scheduled, Uncovered, AllCaptured, Slotted;
    var e := es'[|es|];
    assert e in es' && ReloadsBy(p, slots, chosen, e, k);
    AddReload(p, slots, chosen, defs, k, es, e);
    CapturedKept(p, slots, defs, es, es');
  }

  lemma DoneStays(p: Plan, slots: map<int, nat>, slots': map<int, nat>, chosen: seq<Redundancy>, es: seq<Edit>,
                  es': seq<Edit>)
    requires SomeDone(p, slots, chosen, es)
    requires (forall g :: g in slots ==> g in slots' && slots'[g] == slots[g]) && forall e :: e in es ==> e in es'
    ensures SomeDone(p, slots', chosen, es')
  {
    hide Reloaded;
    var m :| Reloaded(p, slots, chosen, es, m);
    ReloadedMore(p, slots, slots', chosen, es, es', m);
  }

  lemma DoneHasSlot(p: Plan, slots: map<int, nat>, chosen: seq<Redundancy>, defs: map<int, seq<int>>, count: nat,
                    es: seq<Edit>, k: int)
    requires SomeDone(p, slots, chosen, es) && Going(p, slots, chosen, defs, count, es, k)
    ensures slots != map[] && count > 0 && es != []
  {
    hide Scheduled, Uncovered, AllCaptured;
    var m :| Reloaded(p, slots, chosen, es, m);
    assert chosen[m].def in slots;
    assert slots[chosen[m].def] < count;
  }

  lemma CanGo(p: Plan, slots: map<int, nat>, chosen: seq<Redundancy>, defs: map<int, seq<int>>, count: nat,
              es: seq<Edit>, w: Rewriter)
    requires BodyOk(p) && ChosenOk(p, chosen) && Going(p, slots, chosen, defs, count, es, |chosen|)
    requires w.code == p.code && w.handlers == [] && w.edits == es
    ensures Layout(p.code, p.s) && w.Schedulable(p.s)
  {
    hide BodyOk, ChosenOk, Scheduled, Uncovered, AllCaptured, Slotted, Layout;
    CanApply(p, slots, chosen, |chosen|, es, w);
  }

  ghost predicate Chosen(red: map<int, Redundancy>, chosen: seq<Redundancy>) {
    && Separate(chosen) && (forall i :: 0 <= i < |chosen| ==> chosen[i] in red.Values)
    && forall c :: c in red.Values ==> TakenOrInside(chosen, c)
  }

  /** Replaces range k, if its group has a slot or can be given one. */
  method Treat(w: Rewriter, base: nat, c: Redundancy, slots0: map<int, nat>, added0: seq<Type>, applied0: bool,
               defs: map<int, seq<int>>, chosen: seq<Redundancy>, ghost p: Plan, ghost k: nat)
               returns (applied: bool, slots: map<int, nat>, added: seq<Type>)
    requires BodyOk(p) && ChosenOk(p, chosen) && DefsOk(p, defs) && base == |p.stable| && k < |chosen| && c == chosen[k]
    requires Going(p, slots0, chosen, defs, |added0|, w.edits, k)
    requires Treated(p, slots0, chosen, defs, |added0|, w.edits, k)
    requires if applied0 then SomeDone(p, slots0, chosen, w.edits) else AloneTo(p, chosen, defs, |added0|, k)
    requires Tight(slots0, chosen, |added0|, k)
    modifies w
    ensures Tight(slots, chosen, |added|, k + 1)
    ensures Going(p, slots, chosen, defs, |added|, w.edits, k + 1)
    ensures Treated(p, slots, chosen, defs, |added|, w.edits, k + 1)
    ensures if applied then SomeDone(p, slots, chosen, w.edits) else AloneTo(p, chosen, defs, |added|, k + 1)
  {
    hide BodyOk, ChosenOk, DefsOk, Going, Treated, Reloaded, LeftAlone, Tight;
    ghost var edits0 := w.edits;
    slots, added := SlotFor(w, base, c, slots0, added0, defs, chosen, p, k);
    ghost var edits1 := w.edits;
    applied := applied0;
    if c.def in slots {
      SlotFits(p, slots, chosen, defs, |added|, w.edits, k, c.def);
      w.Replace(c.start, c.end, [LOCAL_GET, base + slots[c.def]]);
      AddLoad(p, slots, chosen, defs, |added|, edits1, k, w.edits);
      applied := true;
    } else {
      GoingOn(p, slots, chosen, defs, |added|, w.edits, k);
      if applied0 {
        DoneStays(p, slots0, slots, chosen, edits0, w.edits);
      } else {
        AloneMore(p, chosen, defs, |added0|, |added|, k);
      }
    }
    TreatedMore(p, slots0, slots, chosen, defs, |added0|, |added|, edits0, w.edits, k);
  }

  lemma NoHandlers(code: seq<Byte>, s: seq<int>, es: seq<Edit>, out: seq<Byte>, hs: seq<Handler>)
    requires Layout(code, s) && Faithful(code, [], es, s, out, hs)
    ensures hs == []
  {
  }

  /** Rewrites a body so that values already computed are reloaded. None leaves it alone: there is nothing to
      replace, or a branch would no longer reach. */
  method Eliminate(code: seq<Byte>, base: nat, red: map<int, Redundancy>, defs: map<int, seq<int>>, allocate: bool,
                   ghost p: Plan)
    returns (r: Option<(seq<Byte>, seq<Type>)>, ghost q: Plan, ghost chosen: seq<Redundancy>)
    requires BodyOk(p) && AvailOk(p) && code == p.code && base == |p.stable| && RedsOk(p, red) && DefsOk(p, defs)
    ensures Layout(p.code, p.s) && Chosen(red, chosen) && Amends(p, q)
    ensures r.Some? ==> PlanOk(q) && Faithful(code, [], q.es, p.s, r.value.0, []) && |r.value.1| == q.count > 0
    ensures allocate ==> Treated(p, q.slots, chosen, defs, q.count, q.es, |chosen|)
    ensures Tight(q.slots, chosen, q.count, |chosen|)
    ensures allocate && !AloneTo(p, chosen, defs, q.count, |chosen|) ==> PlanOk(q)
    ensures r.Some? ==> allocate && SomeDone(p, q.slots, chosen, q.es)
    ensures r.None? ==> !allocate || AloneTo(p, chosen, defs, q.count, |chosen|) || !AllFit(code, q.es, p.s, |p.s| - 1)
  {
    hide BodyOk, AvailOk, ChosenOk, DefsOk, RedsOk, Going, Treated, Reloaded, LeftAlone, Layout, Faithful, AllFit,
         Separate, TakenOrInside, PlanOk, SomeDone, AloneTo, Rewriter.Schedulable, Apart, Tight;
    Shape(p);
    RedsInside(p, red);
    var ranges := Choose(red.Values);
    chosen := ranges;
    ChosenFrom(p, red, chosen);
    var w := new Rewriter(code, []);
    var slots: map<int, nat>, added: seq<Type>, applied := map[], [], false;
    StartGoing(p, chosen, defs);
    for k := 0 to |ranges|
      invariant w.code == code && w.handlers == [] && Going(p, slots, chosen, defs, |added|, w.edits, k)
      invariant if allocate then Treated(p, slots, chosen, defs, |added|, w.edits, k) else !applied
      invariant Tight(slots, chosen, |added|, k)
      invariant if applied then SomeDone(p, slots, chosen, w.edits)
        else (allocate ==> AloneTo(p, chosen, defs, |added|, k))
    {
      var c := ranges[k];
      if !allocate {
        GoingOn(p, slots, chosen, defs, |added|, w.edits, k);
        TightNext(slots, chosen, |added|, k);
        continue;
      }
      applied, slots, added := Treat(w, base, c, slots, added, applied, defs, ranges, p, k);
    }
    q := p.(slots := slots, count := |added|, es := w.edits);
    if !applied {
      return None, q, chosen;
    }
    ghost var es := w.edits;
    CanGo(p, slots, chosen, defs, |added|, es, w);
    DoneHasSlot(p, slots, chosen, defs, |added|, es, |chosen|);
    var res := w.Run(p.s);
    q := p.(slots := slots, count := |added|, es := w.edits);
    SameMembers(q.es, es);
    Planned(p, q, chosen, defs, es);
    TreatedKept(p, slots, chosen, defs, |added|, es, w.edits, |chosen|);
    DoneStays(p, slots, slots, chosen, es, w.edits);
    if res.None? {
      return None, q, chosen;
    }
    assert res.value.1 == [] by { NoHandlers(code, p.s, q.es, res.value.0, res.value.1); }
    r := Some((res.value.0, added));
  }
}
