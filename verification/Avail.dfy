/** Available expressions: which value groups have been generated on every path to a block. */
module Avail {

  /** preds lists each block's predecessors; gen holds the groups each block generates. Block 0 is the entry. */
  ghost predicate Flow(preds: seq<seq<int>>, gen: seq<set<int>>) {
    && |preds| == |gen| && |gen| > 0
    && forall b, i :: 0 <= b < |preds| && 0 <= i < |preds[b]| ==> 0 <= preds[b][i] < |preds|
  }

  /** Nothing flows into the entry, and something flows into every other block. */
  ghost predicate OneEntry(preds: seq<seq<int>>) {
    forall b :: 0 <= b < |preds| ==> (preds[b] == [] <==> b == 0)
  }

  /** Something flows into every block but perhaps the entry. */
  ghost predicate Entered(preds: seq<seq<int>>) {
    forall b :: 0 < b < |preds| ==> preds[b] != []
  }

  ghost function Meet(out: seq<set<int>>, ps: seq<int>): set<int>
    requires forall i :: 0 <= i < |ps| ==> 0 <= ps[i] < |out|
  {
    if ps == [] then {} else set g | g in out[ps[0]] && forall i :: 0 <= i < |ps| ==> g in out[ps[i]]
  }

  ghost function Transfer(preds: seq<seq<int>>, gen: seq<set<int>>, out: seq<set<int>>, b: int): set<int>
    requires Flow(preds, gen) && |out| == |preds| && 0 <= b < |preds|
  {
    Meet(out, preds[b]) + gen[b]
  }

  ghost predicate Solution(preds: seq<seq<int>>, gen: seq<set<int>>, out: seq<set<int>>)
    requires Flow(preds, gen) && |out| == |preds|
  {
    forall b :: 0 <= b < |preds| ==> out[b] == Transfer(preds, gen, out, b)
  }

  /** Everything anyone generates. */
  ghost function Universe(gen: seq<set<int>>): set<int> {
    if gen == [] then {} else gen[0] + Universe(gen[1..])
  }

  lemma {:induction false} UniverseHas(gen: seq<set<int>>, b: int)
    requires 0 <= b < |gen|
    ensures gen[b] <= Universe(gen)
  {
    if b > 0 {
      UniverseHas(gen[1..], b - 1);
    }
  }

  /** The state before the first block is visited: nothing leaves the entry, everything leaves the others. */
  ghost predicate Fresh(preds: seq<seq<int>>, gen: seq<set<int>>, out: seq<set<int>>) {
    && |out| == |preds| && |out| > 0
    && out[0] == {} && forall b :: 1 <= b < |out| ==> out[b] == Universe(gen)
  }

  /** From the first visit on, visiting a block can only shrink what leaves it. */
  ghost predicate Shrinking(preds: seq<seq<int>>, gen: seq<set<int>>, out: seq<set<int>>)
    requires Flow(preds, gen)
  {
    && |out| == |preds| && (preds[0] == [] ==> out[0] == gen[0])
    && forall b :: 0 <= b < |preds| ==> Transfer(preds, gen, out, b) <= out[b]
  }

  lemma MeetShrinks(a: seq<set<int>>, b: seq<set<int>>, ps: seq<int>)
    requires |a| == |b| && (forall i :: 0 <= i < |a| ==> a[i] <= b[i]) && forall i :: 0 <= i < |ps| ==> 0 <= ps[i] < |a|
    ensures Meet(a, ps) <= Meet(b, ps)
  {
    forall g | g in Meet(a, ps)
      ensures g in Meet(b, ps)
    {
      assert forall i :: 0 <= i < |ps| ==> g in a[ps[i]] && a[ps[i]] <= b[ps[i]];
    }
  }

  /** Visiting a block keeps every other visit a shrinking one. */
  lemma VisitShrinks(preds: seq<seq<int>>, gen: seq<set<int>>, out: seq<set<int>>, b: int)
    requires Flow(preds, gen) && Entered(preds) && Shrinking(preds, gen, out) && 0 <= b < |preds|
    ensures Shrinking(preds, gen, out[b := Transfer(preds, gen, out, b)])
  {
    var after := out[b := Transfer(preds, gen, out, b)];
    forall c | 0 <= c < |preds|
      ensures Transfer(preds, gen, after, c) <= after[c]
    {
      MeetShrinks(after, out, preds[c]);
    }
  }

  /** The entry's visit ends the optimistic start. */
  lemma FirstVisit(preds: seq<seq<int>>, gen: seq<set<int>>, out: seq<set<int>>)
    requires Flow(preds, gen) && Entered(preds) && preds[0] == [] && Fresh(preds, gen, out)
    ensures Transfer(preds, gen, out, 0) == gen[0]
    ensures Shrinking(preds, gen, out[0 := gen[0]])
  {
    var after := out[0 := gen[0]];
    forall b | 0 <= b < |preds|
      ensures Transfer(preds, gen, after, b) <= after[b]
    {
      UniverseHas(gen, b);
      if b > 0 {
        forall g | g in Meet(after, preds[b])
          ensures g in Universe(gen)
        {
          assert g in after[preds[b][0]];
          UniverseHas(gen, 0);
        }
      }
    }
  }

  /** A visit that leaves the size alone leaves the set alone. */
  lemma SameSize(a: set<int>, b: set<int>)
    requires a <= b
    ensures |a| <= |b|
    ensures |a| == |b| ==> a == b
  {
    assert b == a + (b - a);
    assert |b| == |a| + |b - a|;
  }

  ghost function Total(out: seq<set<int>>): nat {
    if out == [] then 0 else |out[0]| + Total(out[1..])
  }

  lemma {:induction false} TotalUpdate(out: seq<set<int>>, b: int, s: set<int>)
    requires 0 <= b < |out|
    ensures Total(out[b := s]) == Total(out) - |out[b]| + |s|
  {
    if b == 0 {
      assert out[b := s][1..] == out[1..];
    } else {
      assert out[b := s][1..] == out[1..][b - 1 := s];
      TotalUpdate(out[1..], b - 1, s);
    }
  }

  /** Intersects what the predecessors let out; nothing for a block without predecessors. */
  method MeetOf(out: seq<set<int>>, ps: seq<int>) returns (r: set<int>)
    requires forall i :: 0 <= i < |ps| ==> 0 <= ps[i] < |out|
    ensures r == Meet(out, ps)
  {
    if |ps| == 0 {
      return {};
    }
    r := out[ps[0]];
    for i := 1 to |ps|
      invariant forall g :: g in r <==> g in out[ps[0]] && forall j :: 0 <= j < i ==> g in out[ps[j]]
    {
      r := r * out[ps[i]];
    }
    assert forall g :: g in r <==> g in Meet(out, ps);
  }

  method UniverseOf(gen: seq<set<int>>) returns (r: set<int>)
    ensures r == Universe(gen)
  {
    r := {};
    assert gen[0..] == gen;
    for b := 0 to |gen|
      invariant Universe(gen) == r + Universe(gen[b..])
    {
      assert gen[b..][1..] == gen[b + 1..];
      r := r + gen[b];
    }
  }

  /** What leaves each block while visits go on; `initial` until the entry is visited. */
  ghost predicate Visiting(preds: seq<seq<int>>, gen: seq<set<int>>, out: seq<set<int>>, initial: bool)
    requires Flow(preds, gen)
  {
    if initial then Fresh(preds, gen, out) else Shrinking(preds, gen, out)
  }

  /** One visit to a block. */
  lemma Visit(preds: seq<seq<int>>, gen: seq<set<int>>, out: seq<set<int>>, initial: bool, b: int)
    requires Flow(preds, gen) && Entered(preds) && Visiting(preds, gen, out, initial) && 0 <= b < |preds|
    requires (initial ==> b == 0 && preds[0] == [])
    ensures |out| == |preds|
    ensures var next := Transfer(preds, gen, out, b);
            && Visiting(preds, gen, out[b := next], false)
            && (!initial ==> next <= out[b])
            && (|next| == |out[b]| ==> next == out[b])
            && (|next| != |out[b]| && !initial ==> Total(out[b := next]) < Total(out))
  {
    hide Transfer;
    if initial {
      FirstVisit(preds, gen, out);
    } else {
      VisitShrinks(preds, gen, out, b);
      SameSize(Transfer(preds, gen, out, b), out[b]);
      TotalUpdate(out, b, Transfer(preds, gen, out, b));
    }
  }

  /** A candidate solution: nothing leaves a block that did not arrive or start there. */
  ghost predicate Below(preds: seq<seq<int>>, gen: seq<set<int>>, other: seq<set<int>>)
    requires Flow(preds, gen) && |other| == |preds|
  {
    forall b :: 0 <= b < |preds| ==> other[b] <= Transfer(preds, gen, other, b) && other[b] <= Universe(gen)
  }

  /** Every candidate is still below what leaves each visited block. */
  ghost predicate Above(preds: seq<seq<int>>, gen: seq<set<int>>, out: seq<set<int>>, initial: bool)
    requires Flow(preds, gen) && |out| == |preds|
  {
    && (forall b :: 0 <= b < |preds| ==> out[b] <= Universe(gen))
    && forall other, b ::
       |other| == |preds| && Below(preds, gen, other) && (if initial then 1 else 0) <= b < |preds| ==>
       other[b] <= out[b]
  }

  lemma AboveStays(preds: seq<seq<int>>, gen: seq<set<int>>, out: seq<set<int>>, initial: bool, b: int)
    requires Flow(preds, gen) && Entered(preds) && |out| == |preds| && Above(preds, gen, out, initial)
    requires 0 <= b < |preds| && (initial ==> b == 0 && preds[0] == [])
    ensures Above(preds, gen, out[b := Transfer(preds, gen, out, b)], false)
  {
    var after := out[b := Transfer(preds, gen, out, b)];
    UniverseHas(gen, b);
    MeetInside(out, preds[b], Universe(gen));
    forall other, c | |other| == |preds| && Below(preds, gen, other) && 0 <= c < |preds|
      ensures other[c] <= after[c]
    {
      if c == b {
        if b != 0 {
          MeetShrinks(other, out, preds[b]);
        }
        assert other[b] <= Transfer(preds, gen, other, b);
      }
    }
  }

  lemma MeetInside(out: seq<set<int>>, ps: seq<int>, u: set<int>)
    requires (forall i :: 0 <= i < |ps| ==> 0 <= ps[i] < |out|) && forall b :: 0 <= b < |out| ==> out[b] <= u
    ensures Meet(out, ps) <= u
  {
  }

  lemma FreshStart(preds: seq<seq<int>>, gen: seq<set<int>>, out: seq<set<int>>)
    requires Flow(preds, gen) && Entered(preds) && |out| == |preds|
    requires forall b :: 0 <= b < |preds| ==> out[b] == if |preds[b]| == 0 then {} else Universe(gen)
    ensures Visiting(preds, gen, out, preds[0] == []) && Above(preds, gen, out, preds[0] == [])
  {
    forall b | 0 <= b < |preds|
      ensures gen[b] <= Universe(gen)
    {
      UniverseHas(gen, b);
    }
    if preds[0] != [] {
      forall b | 0 <= b < |preds|
        ensures Transfer(preds, gen, out, b) <= out[b]
      {
        MeetInside(out, preds[b], Universe(gen));
      }
    }
  }

  /** Block b's sets agree with the equations. */
  ghost predicate Visited(preds: seq<seq<int>>, gen: seq<set<int>>, out: seq<set<int>>, avail: seq<set<int>>, b: int)
    requires Flow(preds, gen) && |out| == |avail| == |preds| && 0 <= b < |preds|
  {
    avail[b] == Meet(out, preds[b]) && out[b] == Transfer(preds, gen, out, b)
  }

  /** The first n blocks' sets do. */
  ghost predicate VisitedTo(preds: seq<seq<int>>, gen: seq<set<int>>, out: seq<set<int>>, avail: seq<set<int>>, n: int)
    requires Flow(preds, gen) && |out| == |avail| == |preds|
  {
    forall b :: 0 <= b < n && b < |preds| ==> Visited(preds, gen, out, avail, b)
  }

  lemma VisitedMore(preds: seq<seq<int>>, gen: seq<set<int>>, out: seq<set<int>>, avail: seq<set<int>>,
                    avail': seq<set<int>>, n: int)
    requires Flow(preds, gen) && |out| == |avail| == |preds| == |avail'| && 0 <= n < |preds|
    requires avail' == avail[n := Meet(out, preds[n])] && out[n] == Transfer(preds, gen, out, n)
    ensures VisitedTo(preds, gen, out, avail, n) ==> VisitedTo(preds, gen, out, avail', n + 1)
  {
    hide Meet, Transfer;
    if VisitedTo(preds, gen, out, avail, n) {
      forall b | 0 <= b < n + 1
        ensures Visited(preds, gen, out, avail', b)
      {
        assert b == n || Visited(preds, gen, out, avail, b);
      }
    }
  }

  lemma AllVisited(preds: seq<seq<int>>, gen: seq<set<int>>, out: seq<set<int>>, avail: seq<set<int>>)
    requires Flow(preds, gen) && |out| == |avail| == |preds| && VisitedTo(preds, gen, out, avail, |preds|)
    ensures Solution(preds, gen, out) && forall b :: 0 <= b < |preds| ==> avail[b] == Meet(out, preds[b])
  {
    hide Meet, Transfer;
    forall b | 0 <= b < |preds|
      ensures out[b] == Transfer(preds, gen, out, b) && avail[b] == Meet(out, preds[b])
    {
      assert Visited(preds, gen, out, avail, b);
    }
  }

  lemma FlowSizes(preds: seq<seq<int>>, gen: seq<set<int>>)
    requires Flow(preds, gen)
    ensures |preds| == |gen| > 0
  {
  }

  lemma PredsInside(preds: seq<seq<int>>, gen: seq<set<int>>, b: int)
    requires Flow(preds, gen) && 0 <= b < |preds|
    ensures forall i :: 0 <= i < |preds[b]| ==> 0 <= preds[b][i] < |preds|
  {
  }

  lemma TransferIs(preds: seq<seq<int>>, gen: seq<set<int>>, out: seq<set<int>>, b: int)
    requires Flow(preds, gen) && |out| == |preds| && 0 <= b < |preds|
    ensures Transfer(preds, gen, out, b) == Meet(out, preds[b]) + gen[b]
  {
  }

  /** Solves the dataflow equations by visiting blocks until no set changes size: AVAIL_in of each block. */
  method Solve(preds: seq<seq<int>>, gen: seq<set<int>>) returns (avail: seq<set<int>>, ghost out: seq<set<int>>)
    requires Flow(preds, gen) && Entered(preds)
    ensures |out| == |preds| && Solution(preds, gen, out)
    ensures |avail| == |preds| && forall b :: 0 <= b < |preds| ==> avail[b] == Meet(out, preds[b])
    ensures forall b :: 0 <= b < |preds| ==> out[b] <= Universe(gen)
    ensures forall other :: |other| == |preds| && Below(preds, gen, other) ==> forall b ::
      0 <= b < |preds| ==> other[b] <= out[b]
  {
    hide Meet, Transfer, Universe, Below, Total, Flow, Entered;
    FlowSizes(preds, gen);
    var universe := UniverseOf(gen);
    var leaves := seq(|preds|, b requires 0 <= b < |preds| => if |preds[b]| == 0 then {} else universe);
    FreshStart(preds, gen, leaves);
    avail := seq(|preds|, _ => {});
    var changed := true;
    ghost var initial := preds[0] == [];
    while changed
      invariant |avail| == |leaves| == |preds| && Visiting(preds, gen, leaves, initial)
      invariant (initial ==> changed && preds[0] == [])
      invariant Above(preds, gen, leaves, initial)
      invariant !changed ==> VisitedTo(preds, gen, leaves, avail, |preds|)
      decreases initial, Total(leaves), changed
    {
      changed := false;
      ghost var before, initial0 := leaves, initial;
      for b := 0 to |preds|
        invariant |avail| == |leaves| == |preds| && Visiting(preds, gen, leaves, initial)
        invariant Above(preds, gen, leaves, initial)
        invariant (b == 0 ==> initial == initial0) && (b > 0 ==> !initial) && (initial0 ==> preds[0] == [])
        invariant initial == initial0 ==> if changed then Total(leaves) < Total(before) else leaves == before
        invariant !changed ==> VisitedTo(preds, gen, leaves, avail, b)
      {
        Visit(preds, gen, leaves, initial, b);
        AboveStays(preds, gen, leaves, initial, b);
        PredsInside(preds, gen, b);
        var met := MeetOf(leaves, preds[b]);
        ghost var avail0 := avail;
        avail := avail[b := met];
        var next := met + gen[b];
        assert next == Transfer(preds, gen, leaves, b) by { TransferIs(preds, gen, leaves, b); }
        if |next| != |leaves[b]| {
          leaves := leaves[b := next];
          changed := true;
        } else {
          assert leaves[b := next] == leaves;
          VisitedMore(preds, gen, leaves, avail0, avail, b);
        }
        initial := false;
      }
    }
    out := leaves;
    AllVisited(preds, gen, leaves, avail);
  }

  /** A path from the entry. */
  ghost predicate IsPath(preds: seq<seq<int>>, path: seq<int>) {
    && |path| > 0 && path[0] == 0 && (forall i :: 0 <= i < |path| ==> 0 <= path[i] < |preds|)
    && forall i :: 0 < i < |path| ==> path[i - 1] in preds[path[i]]
  }

  /** g is generated by one of the first n blocks of the path. */
  ghost predicate Generated(gen: seq<set<int>>, path: seq<int>, n: int, g: int) {
    exists i :: 0 <= i < n && i < |path| && 0 <= path[i] < |gen| && g in gen[path[i]]
  }

  /** g is generated on every path from the entry up to the start of b. */
  ghost predicate OnEveryPath(preds: seq<seq<int>>, gen: seq<set<int>>, b: int, g: int) {
    forall path :: IsPath(preds, path) && path[|path| - 1] == b ==> Generated(gen, path, |path| - 1, g)
  }

  /** What arrives at a block left each predecessor: it was generated there or arrived there. */
  lemma StepBack(preds: seq<seq<int>>, gen: seq<set<int>>, out: seq<set<int>>, b: int, p: int, g: int)
    requires Flow(preds, gen) && |out| == |preds| && Solution(preds, gen, out) && 0 <= b < |preds| && p in preds[b]
    requires g in Meet(out, preds[b])
    ensures 0 <= p < |preds| && (g in gen[p] || g in Meet(out, preds[p]))
  {
    var i :| 0 <= i < |preds[b]| && preds[b][i] == p;
    assert g in out[preds[b][i]];
    assert out[p] == Transfer(preds, gen, out, p);
  }

  lemma EntryMeetsNothing(preds: seq<seq<int>>, gen: seq<set<int>>, out: seq<set<int>>)
    requires Flow(preds, gen) && OneEntry(preds) && |out| == |preds|
    ensures Meet(out, preds[0]) == {}
  {
  }

  /** What is available was generated on the way. */
  lemma {:induction false} AvailableWasGenerated(preds: seq<seq<int>>, gen: seq<set<int>>, out: seq<set<int>>,
                                                 path: seq<int>, n: int, g: int)
    requires Flow(preds, gen) && OneEntry(preds) && |out| == |preds| && Solution(preds, gen, out)
    requires IsPath(preds, path) && 0 <= n < |path| && g in Meet(out, preds[path[n]])
    ensures Generated(gen, path, n, g)
    decreases n
  {
    hide Solution, Meet, OneEntry, Flow;
    FlowSizes(preds, gen);
    if n == 0 {
      EntryMeetsNothing(preds, gen, out);
    } else {
      StepBack(preds, gen, out, path[n], path[n - 1], g);
      if g !in gen[path[n - 1]] {
        AvailableWasGenerated(preds, gen, out, path, n - 1, g);
      }
    }
  }

  /** The groups generated on every path up to and including each block. */
  ghost function AlwaysGenerated(preds: seq<seq<int>>, gen: seq<set<int>>): seq<set<int>>
    requires Flow(preds, gen)
  {
    seq(|preds|, b requires 0 <= b < |preds| => set g | g in Universe(gen) &&
        (g in gen[b] || OnEveryPath(preds, gen, b, g)))
  }

  /** What every path up to a block generates, every path up to and including each predecessor generates. */
  lemma AlwaysMeets(preds: seq<seq<int>>, gen: seq<set<int>>, b: int, g: int)
    requires Flow(preds, gen) && OneEntry(preds) && 0 <= b < |preds| && g in Universe(gen)
    requires OnEveryPath(preds, gen, b, g)
    ensures g in Meet(AlwaysGenerated(preds, gen), preds[b])
  {
    hide Generated, IsPath, OnEveryPath;
    var always := AlwaysGenerated(preds, gen);
    if b == 0 {
      EntryGeneratesNothing(preds, gen, g);
    }
    forall i | 0 <= i < |preds[b]|
      ensures g in always[preds[b][i]]
    {
      var p := preds[b][i];
      if g !in gen[p] {
        ExtendPaths(preds, gen, p, b, g);
      }
    }
  }

  lemma AlwaysIsBelow(preds: seq<seq<int>>, gen: seq<set<int>>)
    requires Flow(preds, gen) && OneEntry(preds)
    ensures Below(preds, gen, AlwaysGenerated(preds, gen))
  {
    hide Meet, OnEveryPath;
    var always := AlwaysGenerated(preds, gen);
    forall b, g | 0 <= b < |preds| && g in always[b] && g !in gen[b]
      ensures g in Meet(always, preds[b])
    {
      AlwaysMeets(preds, gen, b, g);
    }
  }

  lemma EntryGeneratesNothing(preds: seq<seq<int>>, gen: seq<set<int>>, g: int)
    requires |preds| > 0
    ensures !OnEveryPath(preds, gen, 0, g)
  {
    assert IsPath(preds, [0]) && !Generated(gen, [0], 0, g);
  }

  lemma ExtendPaths(preds: seq<seq<int>>, gen: seq<set<int>>, p: int, b: int, g: int)
    requires Flow(preds, gen) && 0 <= b < |preds| && p in preds[b] && g !in gen[p] && OnEveryPath(preds, gen, b, g)
    ensures OnEveryPath(preds, gen, p, g)
  {
    forall path | IsPath(preds, path) && path[|path| - 1] == p
      ensures Generated(gen, path, |path| - 1, g)
    {
      var longer := path + [b];
      assert IsPath(preds, longer);
      assert Generated(gen, longer, |longer| - 1, g);
      var i :| 0 <= i < |longer| - 1 && g in gen[longer[i]];
      assert path[i] == longer[i];
    }
  }

  /** A group is available at a block exactly when every path from the entry has generated it. */
  lemma AvailableIff(preds: seq<seq<int>>, gen: seq<set<int>>, out: seq<set<int>>, b: int, g: int)
    requires Flow(preds, gen) && OneEntry(preds) && |out| == |preds| && Solution(preds, gen, out) && 0 <= b < |preds|
    requires g in Universe(gen)
    requires forall other :: |other| == |preds| && Below(preds, gen, other) ==> forall c ::
      0 <= c < |preds| ==> other[c] <= out[c]
    ensures g in Meet(out, preds[b]) <==> OnEveryPath(preds, gen, b, g)
  {
    hide Generated, Solution, Meet, OneEntry, Below;
    if g in Meet(out, preds[b]) {
      forall path | IsPath(preds, path) && path[|path| - 1] == b
        ensures Generated(gen, path, |path| - 1, g)
      {
        AvailableWasGenerated(preds, gen, out, path, |path| - 1, g);
      }
    } else if OnEveryPath(preds, gen, b, g) {
      AlwaysIsBelow(preds, gen);
      AlwaysMeets(preds, gen, b, g);
      MeetShrinks(AlwaysGenerated(preds, gen), out, preds[b]);
    }
  }

  /** No candidate is above out: what Solve returns. */
  ghost predicate Greatest(preds: seq<seq<int>>, gen: seq<set<int>>, out: seq<set<int>>)
    requires Flow(preds, gen)
  {
    && |out| == |preds| && Solution(preds, gen, out)
    && forall other :: |other| == |preds| && Below(preds, gen, other) ==> forall b ::
       0 <= b < |preds| ==> other[b] <= out[b]
  }

  /** Whatever blocks generate, what solving finds available is exactly what every path from the entry has generated. */
  ghost predicate SolvesRight(preds: seq<seq<int>>) {
    forall gen, out :: Flow(preds, gen) && Greatest(preds, gen, out) ==> Right(preds, gen, out)
  }

  ghost predicate Right(preds: seq<seq<int>>, gen: seq<set<int>>, out: seq<set<int>>)
    requires Flow(preds, gen) && |out| == |preds|
  {
    forall b, g :: 0 <= b < |preds| && g in Universe(gen) ==>
        (g in Meet(out, preds[b]) <==> OnEveryPath(preds, gen, b, g))
  }

  /** Everything leaves every block when every block generates it. */
  lemma AllGenerate(preds: seq<seq<int>>, g: int) returns (gen: seq<set<int>>)
    requires |preds| > 0 && forall b, i :: 0 <= b < |preds| && 0 <= i < |preds[b]| ==> 0 <= preds[b][i] < |preds|
    ensures Flow(preds, gen) && Greatest(preds, gen, gen) && g in Universe(gen)
    ensures forall b :: 0 <= b < |preds| ==> gen[b] == {g} && (preds[b] != [] ==> g in Meet(gen, preds[b]))
  {
    hide Below;
    gen := seq(|preds|, _ => {g});
    OneGroup(gen, g);
    UniverseHas(gen, 0);
    forall b | 0 <= b < |preds|
      ensures gen[b] == Transfer(preds, gen, gen, b)
    {
      MeetInside(gen, preds[b], {g});
    }
    forall other | |other| == |preds| && Below(preds, gen, other)
      ensures forall b :: 0 <= b < |preds| ==> other[b] <= gen[b]
    {
      BelowInside(preds, gen, other);
    }
  }

  lemma BelowInside(preds: seq<seq<int>>, gen: seq<set<int>>, other: seq<set<int>>)
    requires Flow(preds, gen) && |other| == |preds| && Below(preds, gen, other)
    ensures forall b :: 0 <= b < |preds| ==> other[b] <= Universe(gen)
  {
  }

  lemma {:induction false} OneGroup(gen: seq<set<int>>, g: int)
    requires forall b :: 0 <= b < |gen| ==> gen[b] == {g}
    ensures Universe(gen) <= {g}
  {
    if gen != [] {
      OneGroup(gen[1..], g);
    }
  }

  /** Solving is right on a graph, whatever its blocks generate, exactly when nothing flows into the entry. */
  lemma RightIffEntryIsFirst(preds: seq<seq<int>>)
    requires |preds| > 0 && (forall b, i :: 0 <= b < |preds| && 0 <= i < |preds[b]| ==> 0 <= preds[b][i] < |preds|)
    requires Entered(preds)
    ensures SolvesRight(preds) <==> preds[0] == []
  {
    hide Meet, OnEveryPath, Below, Solution;
    if preds[0] == [] {
      forall gen, out, b, g | Flow(preds, gen) && Greatest(preds, gen, out) && 0 <= b < |preds| && g in Universe(gen)
        ensures g in Meet(out, preds[b]) <==> OnEveryPath(preds, gen, b, g)
      {
        AvailableIff(preds, gen, out, b, g);
      }
    } else {
      var gen := AllGenerate(preds, 7);
      EntryGeneratesNothing(preds, gen, 7);
      assert 7 in Universe(gen) && 7 in Meet(gen, preds[0]);
      assert !Right(preds, gen, gen);
    }
  }

  /** When the entry has a predecessor, a group can be available there with no path having generated it. */
  lemma EntryNeedsNoPredecessor()
    ensures var preds, gen, out := [[1], [0]], [{7}, {7}], [{7}, {7}];
            && Flow(preds, gen) && Solution(preds, gen, out) && 7 in Meet(out, preds[0])
            && IsPath(preds, [0]) && !Generated(gen, [0], 0, 7)
  {
    var preds, gen, out := [[1], [0]], [{7}, {7}], [{7}, {7}];
    assert Meet(out, preds[0]) == {7} && Meet(out, preds[1]) == {7};
  }
}
