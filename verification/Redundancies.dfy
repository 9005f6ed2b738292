/** Which computations of a body are redundant, where their values are to be captured, and which of them to replace. */
module Redundancies {
  import opened Bytecode
  import opened Stacks
  import opened Numbering
  import opened Reuse
  import Blocks

  /** A range that recomputes the value of group def. */
  datatype Redundancy = Redundancy(start: int, end: int, kind: Kind, def: int)

  /** r is block b's computation of g, which arrives there already computed. */
  ghost predicate Stands(p: Plan, r: Redundancy, b: int, g: int) {
    Reloads(p, b, g) && r == Redundancy(p.gen[b][g].start, p.gen[b][g].end, p.gen[b][g].kind, g)
  }

  ghost predicate StandsAt(p: Plan, red: map<int, Redundancy>, ip: int, b: int, g: int)
    requires ip in red
  {
    Stands(p, red[ip], b, g) && ip == p.gen[b][g].ip
  }

  ghost predicate Standing(p: Plan, red: map<int, Redundancy>, ip: int)
    requires ip in red
  {
    exists b, g :: StandsAt(p, red, ip, b, g)
  }

  /** Among the computations of the first n blocks, and of block n those whose group is not in rest. */
  ghost predicate Seen(p: Plan, n: int, rest: set<int>, b: int, g: int) {
    Made(p, b, g) && (b < n || (b == n && g !in rest))
  }

  ghost predicate Marked(p: Plan, red: map<int, Redundancy>, b: int, g: int) {
    Reloads(p, b, g) ==> p.gen[b][g].ip in red && Stands(p, red[p.gen[b][g].ip], b, g)
  }

  /** red marks exactly the computations seen that can be reloaded. */
  ghost predicate RedsTo(p: Plan, red: map<int, Redundancy>, n: int, rest: set<int>) {
    && (forall ip :: ip in red ==> Standing(p, red, ip))
    && (forall b, g :: Seen(p, n, rest, b, g) ==> Marked(p, red, b, g))
  }

  ghost predicate RedsOk(p: Plan, red: map<int, Redundancy>) {
    && (forall ip :: ip in red ==> Standing(p, red, ip))
    && (forall b, g :: Reloads(p, b, g) ==> Marked(p, red, b, g))
  }

  function DefList(defs: map<int, seq<int>>, g: int): seq<int> {
    if g in defs then defs[g] else []
  }

  ghost predicate DefAt(p: Plan, b: int, g: int, x: int) {
    Captures(p, b, g) && p.gen[b][g].end == x
  }

  ghost predicate Defined(p: Plan, g: int, x: int) {
    exists b :: DefAt(p, b, g, x)
  }

  ghost predicate Distinct(xs: seq<int>) {
    forall i, j :: 0 <= i < j < |xs| ==> xs[i] != xs[j]
  }

  /** What a group's definitions are. */
  ghost predicate DefsOf(p: Plan, defs: map<int, seq<int>>, g: int) {
    Distinct(DefList(defs, g)) && forall i :: 0 <= i < |DefList(defs, g)| ==> Defined(p, g, DefList(defs, g)[i])
  }

  ghost predicate Listed(p: Plan, defs: map<int, seq<int>>, b: int, g: int) {
    Captures(p, b, g) ==> p.gen[b][g].end in DefList(defs, g)
  }

  ghost predicate DefsTo(p: Plan, defs: map<int, seq<int>>, n: int, rest: set<int>) {
    && (forall g :: DefsOf(p, defs, g))
    && (forall b, g :: Seen(p, n, rest, b, g) ==> Listed(p, defs, b, g))
  }

  /** defs lists, without repetition, the ends of the computations whose value does not arrive computed. */
  ghost predicate DefsOk(p: Plan, defs: map<int, seq<int>>) {
    && (forall g :: DefsOf(p, defs, g))
    && (forall b, g :: Captures(p, b, g) ==> Listed(p, defs, b, g))
  }

  /** Computations of one instruction are one. */
  lemma OneAtIp(p: Plan, b: int, g: int, b': int, g': int)
    requires BodyOk(p) && Made(p, b, g) && Made(p, b', g') && p.gen[b][g].ip == p.gen[b'][g'].ip
    ensures b == b' && g == g'
  {
    hide BodyOk, IsPure;
    var k := Recorded(p, b, g);
    var k' := Recorded(p, b', g');
    Spots(p, k, k');
    OneAtSpot(p, b, g, b', g');
  }

  lemma MarkOne(p: Plan, red: map<int, Redundancy>, n: int, rest: set<int>, g: int)
    requires BodyOk(p) && RedsTo(p, red, n, rest) && Reloads(p, n, g) && g in rest
    ensures var c := p.gen[n][g]; RedsTo(p, red[c.ip := Redundancy(c.start, c.end, c.kind, g)], n, rest - {g})
  {
    hide BodyOk;
    var c := p.gen[n][g];
    var red' := red[c.ip := Redundancy(c.start, c.end, c.kind, g)];
    forall ip | ip in red'
      ensures Standing(p, red', ip)
    {
      if ip == c.ip {
        assert StandsAt(p, red', ip, n, g);
      } else {
        assert Standing(p, red, ip);
        var b, h :| StandsAt(p, red, ip, b, h);
        assert StandsAt(p, red', ip, b, h);
      }
    }
    forall b, h | Seen(p, n, rest - {g}, b, h)
      ensures Marked(p, red', b, h)
    {
      if Reloads(p, b, h) && !(b == n && h == g) {
        assert Seen(p, n, rest, b, h) && Marked(p, red, b, h);
        if p.gen[b][h].ip == c.ip {
          OneAtIp(p, b, h, n, g);
        }
      }
    }
  }

  lemma SkipMark(p: Plan, red: map<int, Redundancy>, n: int, rest: set<int>, g: int)
    requires RedsTo(p, red, n, rest) && !Reloads(p, n, g)
    ensures RedsTo(p, red, n, rest - {g})
  {
    hide Standing;
    forall b, h | Seen(p, n, rest - {g}, b, h)
      ensures Marked(p, red, b, h)
    {
      assert (b == n && h == g) || Seen(p, n, rest, b, h);
    }
  }

  /** Records that group g is computed up to off, once. */
  method Define(defs: map<int, seq<int>>, g: int, off: int) returns (r: map<int, seq<int>>)
    ensures forall h :: h != g ==> DefList(r, h) == DefList(defs, h)
    ensures DefList(r, g) == if off in DefList(defs, g) then DefList(defs, g) else DefList(defs, g) + [off]
  {
    var offs := DefList(defs, g);
    for i := 0 to |offs|
      invariant off !in offs[..i]
    {
      if offs[i] == off {
        return defs;
      }
      assert offs[..i + 1] == offs[..i] + [offs[i]];
    }
    assert offs[..|offs|] == offs;
    r := defs[g := offs + [off]];
  }

  lemma ListOne(p: Plan, defs: map<int, seq<int>>, defs': map<int, seq<int>>, n: int, rest: set<int>, g: int)
    requires DefsTo(p, defs, n, rest) && Captures(p, n, g)
    requires forall h :: h != g ==> DefList(defs', h) == DefList(defs, h)
    requires var off := p.gen[n][g].end;
      DefList(defs', g) == if off in DefList(defs, g) then DefList(defs, g) else DefList(defs, g) + [off]
    ensures DefsTo(p, defs', n, rest - {g})
  {
    hide DefList;
    assert DefAt(p, n, g, p.gen[n][g].end);
    forall h
      ensures DefsOf(p, defs', h)
    {
      assert DefsOf(p, defs, h);
    }
    forall b, h | Seen(p, n, rest - {g}, b, h)
      ensures Listed(p, defs', b, h)
    {
      assert (b == n && h == g) || (Seen(p, n, rest, b, h) && Listed(p, defs, b, h));
    }
  }

  lemma SkipList(p: Plan, defs: map<int, seq<int>>, n: int, rest: set<int>, g: int)
    requires DefsTo(p, defs, n, rest) && !Captures(p, n, g)
    ensures DefsTo(p, defs, n, rest - {g})
  {
    hide DefsOf;
    forall b, h | Seen(p, n, rest - {g}, b, h)
      ensures Listed(p, defs, b, h)
    {
      assert (b == n && h == g) || Seen(p, n, rest, b, h);
    }
  }

  /** Splits the recorded computations into those whose value arrives computed, which are redundant when their code
      is self-contained, and those where the value is to be captured. */
  method Available(gen: Gen, avail: seq<set<int>>, ghost p: Plan)
                   returns (red: map<int, Redundancy>, defs: map<int, seq<int>>)
    requires BodyOk(p) && gen == p.gen && avail == p.avail && |avail| == |gen|
    ensures RedsOk(p, red) && DefsOk(p, defs)
  {
    hide BodyOk, RedsTo, DefsTo;
    red, defs := map[], map[];
    Begin(p);
    for n := 0 to |gen|
      invariant RedsTo(p, red, n, Rest(p, n)) && DefsTo(p, defs, n, Rest(p, n))
    {
      var rest: set<int> := gen[n].Keys;
      while rest != {}
        invariant rest <= gen[n].Keys && RedsTo(p, red, n, rest) && DefsTo(p, defs, n, rest)
        decreases |rest|
      {
        NotEmpty(rest);
        var g :| g in rest;
        var c := gen[n][g];
        if g in avail[n] {
          if c.contig {
            MarkOne(p, red, n, rest, g);
            red := red[c.ip := Redundancy(c.start, c.end, c.kind, g)];
          } else {
            SkipMark(p, red, n, rest, g);
          }
          SkipList(p, defs, n, rest, g);
        } else {
          ghost var before := defs;
          defs := Define(defs, g, c.end);
          ListOne(p, before, defs, n, rest, g);
          SkipMark(p, red, n, rest, g);
        }
        rest := rest - {g};
      }
      NextBlock(p, red, defs, n);
    }
    Finish(p, red, defs);
  }

  lemma NotEmpty(rest: set<int>)
    requires rest != {}
    ensures exists g :: g in rest
  {
    assert (forall g :: g !in rest) ==> rest == {};
  }

  ghost function Rest(p: Plan, n: int): set<int> {
    if 0 <= n < |p.gen| then p.gen[n].Keys else {}
  }

  lemma Begin(p: Plan)
    ensures RedsTo(p, map[], 0, Rest(p, 0)) && DefsTo(p, map[], 0, Rest(p, 0))
  {
  }

  lemma NextBlock(p: Plan, red: map<int, Redundancy>, defs: map<int, seq<int>>, n: int)
    requires 0 <= n < |p.gen| && RedsTo(p, red, n, {}) && DefsTo(p, defs, n, {})
    ensures RedsTo(p, red, n + 1, Rest(p, n + 1)) && DefsTo(p, defs, n + 1, Rest(p, n + 1))
  {
    hide Standing, DefsOf, Marked, Listed;
    forall b, g | Seen(p, n + 1, Rest(p, n + 1), b, g)
      ensures Marked(p, red, b, g) && Listed(p, defs, b, g)
    {
      assert Seen(p, n, {}, b, g);
    }
  }

  lemma Finish(p: Plan, red: map<int, Redundancy>, defs: map<int, seq<int>>)
    requires RedsTo(p, red, |p.gen|, {}) && DefsTo(p, defs, |p.gen|, {})
    ensures RedsOk(p, red) && DefsOk(p, defs)
  {
    hide Standing, DefsOf, Marked, Listed;
    forall b, g | Made(p, b, g)
      ensures Marked(p, red, b, g) && Listed(p, defs, b, g)
    {
      assert Seen(p, |p.gen|, {}, b, g);
    }
  }

  ghost predicate ByStart(rs: seq<Redundancy>) {
    forall i, j :: 0 <= i < j < |rs| ==> rs[i].start <= rs[j].start
  }

  function LastEnd(rs: seq<Redundancy>): int {
    if rs == [] then -1 else rs[|rs| - 1].end
  }

  /** From the first n ranges, each that does not start inside the last one taken. */
  ghost function Picked(rs: seq<Redundancy>, n: nat): seq<Redundancy>
    requires n <= |rs|
  {
    if n == 0 then []
    else
      var prev := Picked(rs, n - 1);
      if rs[n - 1].start < LastEnd(prev) then prev else prev + [rs[n - 1]]
  }

  ghost predicate Separate(rs: seq<Redundancy>) {
    forall i, j :: 0 <= i < j < |rs| ==> rs[i].end <= rs[j].start
  }

  /** r is taken, or starts inside a range that is. */
  ghost predicate TakenOrInside(chosen: seq<Redundancy>, r: Redundancy) {
    r in chosen || exists c :: c in chosen && c.start <= r.start < c.end
  }

  lemma {:induction false} PickedFrom(rs: seq<Redundancy>, n: nat)
    requires n <= |rs|
    ensures |Picked(rs, n)| <= n && forall i :: 0 <= i < |Picked(rs, n)| ==> Picked(rs, n)[i] in rs[..n]
  {
    if n > 0 {
      PickedFrom(rs, n - 1);
      assert rs[..n] == rs[..n - 1] + [rs[n - 1]];
    }
  }

  lemma {:induction false} PickedApart(rs: seq<Redundancy>, n: nat)
    requires n <= |rs| && forall i :: 0 <= i < |rs| ==> 0 <= rs[i].start <= rs[i].end
    ensures Separate(Picked(rs, n))
  {
    if n > 0 {
      PickedApart(rs, n - 1);
      PickedFrom(rs, n - 1);
      var prev := Picked(rs, n - 1);
      assert forall i :: 0 <= i < |prev| ==> prev[i] in rs[..n - 1];
      assert forall i :: 0 <= i < |prev| ==> prev[i].end <= LastEnd(prev);
    }
  }

  lemma TakenStays(prev: seq<Redundancy>, now: seq<Redundancy>, r: Redundancy)
    requires TakenOrInside(prev, r) && prev <= now
    ensures TakenOrInside(now, r)
  {
    assert forall i :: 0 <= i < |prev| ==> prev[i] == now[i];
  }

  lemma {:induction false} PickedAll(rs: seq<Redundancy>, n: nat)
    requires n <= |rs| && ByStart(rs) && forall i :: 0 <= i < |rs| ==> 0 <= rs[i].start
    ensures forall i :: 0 <= i < n ==> TakenOrInside(Picked(rs, n), rs[i])
  {
    if n > 0 {
      PickedAll(rs, n - 1);
      PickedFrom(rs, n - 1);
      var prev, now := Picked(rs, n - 1), Picked(rs, n);
      forall i | 0 <= i < n - 1
        ensures TakenOrInside(now, rs[i])
      {
        TakenStays(prev, now, rs[i]);
      }
      if rs[n - 1].start < LastEnd(prev) {
        LastBefore(rs, n);
      }
    }
  }

  lemma LastBefore(rs: seq<Redundancy>, n: nat)
    requires 0 < n <= |rs| && ByStart(rs) && rs[n - 1].start < LastEnd(Picked(rs, n - 1)) && Picked(rs, n - 1) != []
    ensures var prev := Picked(rs, n - 1); prev[|prev| - 1].start <= rs[n - 1].start
  {
    PickedFrom(rs, n - 1);
    var prev := Picked(rs, n - 1);
    assert prev[|prev| - 1] in rs[..n - 1];
  }

  /** Puts the ranges in order of their starts. */
  method Sorted(reds: set<Redundancy>) returns (rs: seq<Redundancy>)
    ensures ByStart(rs) && forall r :: r in rs <==> r in reds
  {
    hide ByStart;
    rs := [];
    SortedNone();
    var rest := reds;
    while rest != {}
      invariant ByStart(rs) && rest <= reds && forall r :: r in rs <==> r in reds && r !in rest
      decreases |rest|
    {
      var r :| r in rest;
      var at := |rs|;
      while at > 0 && rs[at - 1].start > r.start
        invariant 0 <= at <= |rs| && forall i :: at <= i < |rs| ==> rs[i].start > r.start
      {
        at := at - 1;
      }
      PutAt(rs, r, at);
      PutHas(rs, r, at);
      rs := rs[..at] + [r] + rs[at..];
      rest := rest - {r};
    }
  }

  lemma SortedNone()
    ensures ByStart([])
  {
  }

  lemma PutAt(rs: seq<Redundancy>, r: Redundancy, at: int)
    requires ByStart(rs) && 0 <= at <= |rs| && (at > 0 ==> rs[at - 1].start <= r.start) && forall i ::
      at <= i < |rs| ==> rs[i].start > r.start
    ensures ByStart(rs[..at] + [r] + rs[at..])
  {
    var all := rs[..at] + [r] + rs[at..];
    forall i, j | 0 <= i < j < |all|
      ensures all[i].start <= all[j].start
    {
      assert all[i] == if i < at then rs[i] else if i == at then r else rs[i - 1];
      assert all[j] == if j < at then rs[j] else if j == at then r else rs[j - 1];
    }
  }

  lemma PutHas(rs: seq<Redundancy>, r: Redundancy, at: int)
    requires 0 <= at <= |rs|
    ensures forall x :: x in rs[..at] + [r] + rs[at..] <==> x in rs || x == r
  {
    assert rs == rs[..at] + rs[at..];
  }

  /** Takes ranges in order, skipping those that overlap one already taken; the array keeps the taken ones first. */
  method Choose(reds: set<Redundancy>) returns (chosen: seq<Redundancy>)
    requires forall r :: r in reds ==> 0 <= r.start <= r.end
    ensures Separate(chosen) && forall i :: 0 <= i < |chosen| ==> chosen[i] in reds
    ensures forall r :: r in reds ==> TakenOrInside(chosen, r)
  {
    hide Separate, TakenOrInside, ByStart;
    var sorted := Sorted(reds);
    var a := new Redundancy[|sorted|](i requires 0 <= i < |sorted| => sorted[i]);
    var n, end := 0, -1;
    for i := 0 to a.Length
      invariant 0 <= n <= i && a[..n] == Picked(sorted, i) && end == LastEnd(Picked(sorted, i))
      invariant forall j :: i <= j < a.Length ==> a[j] == sorted[j]
    {
      var c := a[i];
      if c.start >= end {
        a[n] := c;
        n := n + 1;
        end := c.end;
      }
    }
    chosen := a[..n];
    ChosenFits(reds, sorted);
  }

  lemma ChosenFits(reds: set<Redundancy>, sorted: seq<Redundancy>)
    requires ByStart(sorted) && (forall r :: r in sorted <==> r in reds) && forall r ::
      r in reds ==> 0 <= r.start <= r.end
    ensures var chosen := Picked(sorted, |sorted|);
            && Separate(chosen) && (forall i :: 0 <= i < |chosen| ==> chosen[i] in reds)
            && forall r :: r in reds ==> TakenOrInside(chosen, r)
  {
    hide Separate, TakenOrInside, ByStart, Picked;
    assert sorted[..|sorted|] == sorted;
    assert forall i :: 0 <= i < |sorted| ==> sorted[i] in sorted;
    PickedFrom(sorted, |sorted|);
    PickedApart(sorted, |sorted|);
    PickedAll(sorted, |sorted|);
  }

  ghost predicate Covers(chosen: seq<Redundancy>, x: int) {
    exists m :: 0 <= m < |chosen| && chosen[m].start < x < chosen[m].end
  }

  /** Whether a definition lies strictly inside a range to be replaced. */
  method Covered(chosen: seq<Redundancy>, offs: seq<int>) returns (r: bool)
    ensures r <==> exists i :: 0 <= i < |offs| && Covers(chosen, offs[i])
  {
    for i := 0 to |offs|
      invariant forall j :: 0 <= j < i ==> !Covers(chosen, offs[j])
    {
      for m := 0 to |chosen|
        invariant forall l :: 0 <= l < m ==> !(chosen[l].start < offs[i] < chosen[l].end)
      {
        if chosen[m].start < offs[i] < chosen[m].end {
          return true;
        }
      }
    }
    r := false;
  }

  /** The type of a local that holds a value of a kind. */
  function KindType(k: Kind): Option<Type> {
    if k == Any then None else if k == Ref then Some(Dynamic) else Some(Prim(k))
  }

  /** A local for a value is of the value's kind; there is none for a value of unknown kind. */
  lemma KindTypeIs(k: Kind)
    ensures KindType(k).None? <==> k == Any
    ensures KindType(k).Some? ==> KindOf(KindType(k).value) == k
  {
  }
}
