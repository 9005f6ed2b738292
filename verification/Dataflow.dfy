/** The verifier's stack dataflow: a worklist that ends in a post-fixpoint, or in a verdict. */
module Dataflow {
  import opened Bytecode
  import opened Stacks
  import opened Verifier
  import opened Checker
  import Blocks

  type Entry = Option<seq<Slot>>

  datatype Result = Passed(entries: seq<Entry>) | Unknown | Rejected(error: Error)

  /** The stack a catch block starts from: the region's entry depth, less the locals, and the exception. */
  function Seed(cx: Context, h: Handler): seq<Slot> {
    seq((if h.depth < |cx.locals| then 0 else h.depth - |cx.locals|) + 1, _ => Slot(Any, None))
  }

  ghost function Exit(cx: Context, code: seq<Byte>, n: Node, st: seq<Slot>): Verdict {
    ExecOf(cx, code, n.start, n.end, st)
  }

  /** x admits st. */
  ghost predicate Admits(x: Entry, st: seq<Slot>) {
    x.Some? && Below(st, x.value)
  }

  /** What block i leaves on the stack is admitted by every successor. */
  ghost predicate Settled(cx: Context, code: seq<Byte>, nodes: seq<Node>, entries: seq<Entry>, i: int)
    requires |entries| == |nodes| && 0 <= i < |nodes| && entries[i].Some?
  {
    var exit := Exit(cx, code, nodes[i], entries[i].value);
    exit.Continue? && forall s :: s in nodes[i].succs && 0 <= s < |nodes| ==> Admits(entries[s], exit.st)
  }

  /** Entry i is at least what the handlers that catch there deliver. */
  ghost predicate SeedsIn(cx: Context, hs: seq<Handler>, n: int, nodes: seq<Node>, entries: seq<Entry>) {
    |entries| == |nodes| && forall m, i ::
        0 <= m < n && m < |hs| && 0 <= i < |nodes| && nodes[i].start == hs[m].catch ==>
      Admits(entries[i], Seed(cx, hs[m]))
  }

  /** The entry block starts empty, catch blocks admit what handlers deliver, and every exit is admitted. */
  ghost predicate PostFixpoint(cx: Context, code: seq<Byte>, hs: seq<Handler>, nodes: seq<Node>, entries: seq<Entry>) {
    && |entries| == |nodes| && |nodes| > 0 && entries[0] == Some([])
    && SeedsIn(cx, hs, |hs|, nodes, entries)
    && forall i :: 0 <= i < |nodes| && entries[i].Some? ==> Settled(cx, code, nodes, entries, i)
  }

  /** Blocks waiting on the worklist are set, and every other set block is settled. */
  ghost predicate Waiting(cx: Context, code: seq<Byte>, nodes: seq<Node>, entries: seq<Entry>, work: seq<int>) {
    && |entries| == |nodes|
    && (forall w :: w in work ==> 0 <= w < |nodes| && entries[w].Some?)
    && (forall i :: 0 <= i < |nodes| && entries[i].Some? && i !in work ==> Settled(cx, code, nodes, entries, i))
  }

  /** Every entry of b admits what the same entry of a did. */
  ghost predicate Grows(a: seq<Entry>, b: seq<Entry>) {
    |a| == |b| && forall i :: 0 <= i < |a| && a[i].Some? ==> Admits(b[i], a[i].value)
  }

  ghost function Unset(entries: seq<Entry>): nat {
    if entries == [] then 0 else Unset(entries[1..]) + (if entries[0].None? then 1 else 0)
  }

  ghost function Slack(entries: seq<Entry>): nat {
    if entries == [] then 0 else Slack(entries[1..]) + (if entries[0].Some? then Widenings(entries[0].value) else 0)
  }

  lemma {:induction false} UnsetUpdate(entries: seq<Entry>, i: int, v: seq<Slot>)
    requires 0 <= i < |entries|
    ensures Unset(entries[i := Some(v)]) == Unset(entries) - (if entries[i].None? then 1 else 0)
    ensures Slack(entries[i := Some(v)]) ==
              Slack(entries) + Widenings(v) - (if entries[i].Some? then Widenings(entries[i].value) else 0)
  {
    var after := entries[i := Some(v)];
    if i == 0 {
      assert after[1..] == entries[1..];
    } else {
      assert after[1..] == entries[1..][i - 1 := Some(v)];
      UnsetUpdate(entries[1..], i - 1, v);
    }
  }

  /** Progress made since (u, t): fewer unset entries, or as many and fewer widenings left. */
  ghost predicate Progressed(entries: seq<Entry>, u: nat, t: nat) {
    Unset(entries) < u || (Unset(entries) == u && Slack(entries) < t)
  }

  lemma SettledGrows(cx: Context, code: seq<Byte>, nodes: seq<Node>, a: seq<Entry>, b: seq<Entry>, i: int)
    requires |a| == |nodes| && 0 <= i < |nodes| && a[i].Some? && Settled(cx, code, nodes, a, i) && Grows(a, b)
    requires b[i] == a[i]
    ensures Settled(cx, code, nodes, b, i)
  {
    var exit := Exit(cx, code, nodes[i], a[i].value);
    forall s | s in nodes[i].succs && 0 <= s < |nodes|
      ensures Admits(b[s], exit.st)
    {
      BelowTrans(exit.st, a[s].value, b[s].value);
    }
  }

  lemma SeedsGrow(cx: Context, hs: seq<Handler>, n: int, nodes: seq<Node>, a: seq<Entry>, b: seq<Entry>)
    requires SeedsIn(cx, hs, n, nodes, a) && Grows(a, b)
    ensures SeedsIn(cx, hs, n, nodes, b)
  {
    forall m, i | 0 <= m < n && m < |hs| && 0 <= i < |nodes| && nodes[i].start == hs[m].catch
      ensures Admits(b[i], Seed(cx, hs[m]))
    {
      assert Admits(a[i], Seed(cx, hs[m]));
      BelowTrans(Seed(cx, hs[m]), a[i].value, b[i].value);
    }
  }

  lemma BelowSame(a: seq<Slot>)
    ensures Below(a, a)
  {
  }

  /** One set or widened entry. */
  lemma EntryGrows(a: seq<Entry>, i: int, v: seq<Slot>)
    requires 0 <= i < |a| && (a[i].Some? ==> Below(a[i].value, v))
    ensures Grows(a, a[i := Some(v)])
  {
    forall j | 0 <= j < |a| && a[j].Some?
      ensures Admits(a[i := Some(v)][j], a[j].value)
    {
      BelowSame(a[j].value);
    }
  }

  /** The entries once st has flowed into block s. None when heights disagree. */
  function Into(a: seq<Entry>, s: int, st: seq<Slot>): Option<seq<Entry>>
    requires 0 <= s < |a|
  {
    if a[s].None? then Some(a[s := Some(st)])
    else if |a[s].value| != |st| then None
    else Some(a[s := Some(Merged(a[s].value, st))])
  }

  lemma IntoGrows(a: seq<Entry>, s: int, st: seq<Slot>)
    requires 0 <= s < |a| && Into(a, s, st).Some?
    ensures var b := Into(a, s, st).value;
            && Grows(a, b) && Admits(b[s], st) && |b| == |a|
            && (forall j :: 0 <= j < |a| && j != s ==> b[j] == a[j])
            && (b == a || Progressed(b, Unset(a), Slack(a)))
            && (s == 0 && a[0] == Some([]) ==> b[0] == Some([]))
  {
    hide Below, Merged, Widenings, Slack, Unset;
    BelowSame(st);
    if a[s].None? {
      UnsetUpdate(a, s, st);
      EntryGrows(a, s, st);
    } else {
      var m := Merged(a[s].value, st);
      MergedIsLeast(a[s].value, st, m);
      MergeWidens(a[s].value, st);
      UnsetUpdate(a, s, m);
      EntryGrows(a, s, m);
      assert m == a[s].value ==> a[s := Some(m)] == a;
      EmptyMerge(a[s].value, st);
    }
  }

  lemma EmptyMerge(a: seq<Slot>, b: seq<Slot>)
    requires |a| == |b|
    ensures a == [] ==> Merged(a, b) == []
  {
  }

  /** Lets st flow into block s: the new entries, and whether they changed. */
  method FlowInto(entries: seq<Entry>, s: int, st: seq<Slot>) returns (r: Option<seq<Entry>>, changed: bool)
    requires 0 <= s < |entries|
    ensures r == Into(entries, s, st)
    ensures r.Some? ==> (changed <==> r.value != entries)
  {
    if entries[s].None? {
      return Some(entries[s := Some(st)]), true;
    }
    var entry := new Stack(entries[s].value);
    var widened, balanced := entry.Merge(st);
    if !balanced {
      return None, false;
    }
    changed := widened;
    r := Some(entries[s := Some(entry.slots)]);
    assert r.value[s] == Some(entry.slots);
    assert entry.slots == entries[s].value ==> r.value == entries;
  }

  /** How an abstract stack comes to stand at the start of a block. */
  datatype Reason =
    | Entered
    | Caught(m: nat)
    | Flowed(from: nat, x: seq<Slot>, why: Reason)
    | Joined(a: seq<Slot>, whyA: Reason, b: seq<Slot>, whyB: Reason)

  ghost predicate Arises(cx: Context, code: seq<Byte>, hs: seq<Handler>, nodes: seq<Node>, j: int, st: seq<Slot>,
                         why: Reason)
    decreases why
  {
    match why
    case Entered => j == 0 && st == []
    case Caught(m) => m < |hs| && 0 <= j < |nodes| && nodes[j].start == hs[m].catch && st == Seed(cx, hs[m])
    case Flowed(i, x, w) =>
      i < |nodes| && j in nodes[i].succs && Arises(cx, code, hs, nodes, i, x, w) &&
          Exit(cx, code, nodes[i], x) == Continue(st)
    case Joined(a, wa, b, wb) =>
      |a| == |b| && st == Merged(a, b) && Arises(cx, code, hs, nodes, j, a, wa) && Arises(cx, code, hs, nodes, j, b, wb)
  }

  ghost predicate Arrives(cx: Context, code: seq<Byte>, hs: seq<Handler>, nodes: seq<Node>, j: int, st: seq<Slot>) {
    exists why :: Arises(cx, code, hs, nodes, j, st, why)
  }

  /** Stacks of different heights arrive at one block. */
  ghost predicate Clash(cx: Context, code: seq<Byte>, hs: seq<Handler>, nodes: seq<Node>) {
    exists j, a, b :: Arrives(cx, code, hs, nodes, j, a) && Arrives(cx, code, hs, nodes, j, b) && |a| != |b|
  }

  /** A stack arrives at some block that its instructions do not get through. */
  ghost predicate Stuck(cx: Context, code: seq<Byte>, hs: seq<Handler>, nodes: seq<Node>, v: Verdict) {
    exists j, a :: 0 <= j < |nodes| && Arrives(cx, code, hs, nodes, j, a) && Exit(cx, code, nodes[j], a) == v
  }

  ghost predicate AllArrive(cx: Context, code: seq<Byte>, hs: seq<Handler>, nodes: seq<Node>, entries: seq<Entry>) {
    |entries| == |nodes| && forall i ::
        0 <= i < |nodes| && entries[i].Some? ==> Arrives(cx, code, hs, nodes, i, entries[i].value)
  }

  lemma ArriveEntered(cx: Context, code: seq<Byte>, hs: seq<Handler>, nodes: seq<Node>)
    ensures Arrives(cx, code, hs, nodes, 0, [])
  {
    assert Arises(cx, code, hs, nodes, 0, [], Entered);
  }

  lemma ArriveCaught(cx: Context, code: seq<Byte>, hs: seq<Handler>, nodes: seq<Node>, m: nat, j: int)
    requires m < |hs| && 0 <= j < |nodes| && nodes[j].start == hs[m].catch
    ensures Arrives(cx, code, hs, nodes, j, Seed(cx, hs[m]))
  {
    hide Seed;
    assert Arises(cx, code, hs, nodes, j, Seed(cx, hs[m]), Caught(m));
  }

  lemma ArriveFlowed(cx: Context, code: seq<Byte>, hs: seq<Handler>, nodes: seq<Node>, i: nat, x: seq<Slot>, j: int,
                     st: seq<Slot>)
    requires i < |nodes| && j in nodes[i].succs && Arrives(cx, code, hs, nodes, i, x)
    requires Exit(cx, code, nodes[i], x) == Continue(st)
    ensures Arrives(cx, code, hs, nodes, j, st)
  {
    hide Exit;
    var w :| Arises(cx, code, hs, nodes, i, x, w);
    assert Arises(cx, code, hs, nodes, j, st, Flowed(i, x, w));
  }

  lemma ArriveJoined(cx: Context, code: seq<Byte>, hs: seq<Handler>, nodes: seq<Node>, j: int, a: seq<Slot>,
                     b: seq<Slot>)
    requires Arrives(cx, code, hs, nodes, j, a) && Arrives(cx, code, hs, nodes, j, b) && |a| == |b|
    ensures Arrives(cx, code, hs, nodes, j, Merged(a, b))
  {
    hide Exit, Merged;
    var wa :| Arises(cx, code, hs, nodes, j, a, wa);
    var wb :| Arises(cx, code, hs, nodes, j, b, wb);
    assert Arises(cx, code, hs, nodes, j, Merged(a, b), Joined(a, wa, b, wb));
  }

  /** The state of the analysis between two changes. */
  ghost predicate Going(cx: Context, code: seq<Byte>, hs: seq<Handler>, nodes: seq<Node>, entries: seq<Entry>,
                        work: seq<int>) {
    && Waiting(cx, code, nodes, entries, work) && AllArrive(cx, code, hs, nodes, entries)
    && |nodes| > 0 && entries[0] == Some([])
  }

  /** All set blocks are waiting: nothing has been simulated yet. */
  ghost predicate Queued(entries: seq<Entry>, work: seq<int>) {
    && (forall w :: w in work ==> 0 <= w < |entries| && entries[w].Some?)
    && (forall i :: 0 <= i < |entries| && entries[i].Some? ==> i in work)
  }

  lemma QueuedGoes(cx: Context, code: seq<Byte>, hs: seq<Handler>, nodes: seq<Node>, entries: seq<Entry>,
                   work: seq<int>)
    requires Queued(entries, work) && AllArrive(cx, code, hs, nodes, entries) && |nodes| > 0 && entries[0] == Some([])
    ensures Going(cx, code, hs, nodes, entries, work)
  {
  }

  /** One handler's seed. */
  lemma SeedGoes(cx: Context, code: seq<Byte>, hs: seq<Handler>, nodes: seq<Node>, a: seq<Entry>, b: seq<Entry>,
                 work: seq<int>, m: nat, s: int)
    requires Queued(a, work) && AllArrive(cx, code, hs, nodes, a) && SeedsIn(cx, hs, m, nodes, a) && |nodes| > 0
    requires a[0] == Some([])
    requires m < |hs| && 0 <= s < |nodes| && nodes[s].start == hs[m].catch
    requires forall i, j :: 0 <= i < j < |nodes| ==> nodes[i].start < nodes[j].start
    requires Into(a, s, Seed(cx, hs[m])) == Some(b)
    ensures Queued(b, if a[s].None? then work + [s] else work)
    ensures AllArrive(cx, code, hs, nodes, b) && SeedsIn(cx, hs, m + 1, nodes, b) && b[0] == Some([])
  {
    hide Arrives, Below, Grows, Seed;
    var st := Seed(cx, hs[m]);
    IntoGrows(a, s, st);
    ArriveCaught(cx, code, hs, nodes, m, s);
    SeedsGrow(cx, hs, m, nodes, a, b);
    if a[s].Some? {
      ArriveJoined(cx, code, hs, nodes, s, a[s].value, st);
    }
    forall i | 0 <= i < |nodes| && nodes[i].start == hs[m].catch
      ensures i == s
    {
    }
  }

  lemma SeedSkipped(cx: Context, hs: seq<Handler>, nodes: seq<Node>, a: seq<Entry>, m: nat)
    requires SeedsIn(cx, hs, m, nodes, a) && m < |hs| && forall i :: 0 <= i < |nodes| ==> nodes[i].start != hs[m].catch
    ensures SeedsIn(cx, hs, m + 1, nodes, a)
  {
    hide Admits;
  }

  lemma Clashes(cx: Context, code: seq<Byte>, hs: seq<Handler>, nodes: seq<Node>, entries: seq<Entry>, s: int,
                st: seq<Slot>)
    requires AllArrive(cx, code, hs, nodes, entries) && 0 <= s < |nodes| && Arrives(cx, code, hs, nodes, s, st)
    requires Into(entries, s, st).None?
    ensures Clash(cx, code, hs, nodes)
  {
    hide Arrives;
    assert Arrives(cx, code, hs, nodes, s, entries[s].value);
  }

  /** Seeds the worklist with the entry block and the catch blocks. */
  method Roots(cx: Context, code: seq<Byte>, hs: seq<Handler>, nodes: seq<Node>)
               returns (r: Option<seq<Entry>>, work: seq<int>)
    requires |nodes| > 0 && forall i, j :: 0 <= i < j < |nodes| ==> nodes[i].start < nodes[j].start
    ensures r.Some? ==> Going(cx, code, hs, nodes, r.value, work) && SeedsIn(cx, hs, |hs|, nodes, r.value)
    ensures r.None? ==> Clash(cx, code, hs, nodes)
  {
    hide Seed, Arrives, Into, Queued, SeedsIn;
    var entries: seq<Entry> := seq(|nodes|, _ => None)[0 := Some([])];
    work := [0];
    ArriveEntered(cx, code, hs, nodes);
    StartQueued(cx, hs, nodes, entries);
    for m := 0 to |hs|
      invariant Queued(entries, work) && AllArrive(cx, code, hs, nodes, entries) && SeedsIn(cx, hs, m, nodes, entries)
      invariant entries[0] == Some([])
    {
      var idx := 0;
      while idx < |nodes| && nodes[idx].start != hs[m].catch
        invariant 0 <= idx <= |nodes| && forall i :: 0 <= i < idx ==> nodes[i].start != hs[m].catch
      {
        idx := idx + 1;
      }
      if idx == |nodes| {
        SeedSkipped(cx, hs, nodes, entries, m);
        continue;
      }
      var grown, _ := FlowInto(entries, idx, Seed(cx, hs[m]));
      if grown.None? {
        ArriveCaught(cx, code, hs, nodes, m, idx);
        Clashes(cx, code, hs, nodes, entries, idx, Seed(cx, hs[m]));
        return None, work;
      }
      SeedGoes(cx, code, hs, nodes, entries, grown.value, work, m, idx);
      if entries[idx].None? {
        work := work + [idx];
      }
      entries := grown.value;
    }
    QueuedGoes(cx, code, hs, nodes, entries, work);
    r := Some(entries);
  }

  lemma StartQueued(cx: Context, hs: seq<Handler>, nodes: seq<Node>, entries: seq<Entry>)
    requires |entries| == |nodes| > 0 && entries == seq(|nodes|, _ => None)[0 := Some([])]
    ensures Queued(entries, [0]) && SeedsIn(cx, hs, 0, nodes, entries)
  {
  }

  /** Block i is being left with stack st, and the successors in `done` have it; i may be on the worklist again. */
  ghost predicate Leaving(cx: Context, code: seq<Byte>, nodes: seq<Node>, entries: seq<Entry>, work: seq<int>, i: int,
                          st: seq<Slot>, done: set<int>) {
    && |entries| == |nodes| && 0 <= i < |nodes| && entries[i].Some?
    && (forall w :: w in work ==> 0 <= w < |nodes| && entries[w].Some?)
    && (forall j ::
       0 <= j < |nodes| && entries[j].Some? && j !in work && j != i ==> Settled(cx, code, nodes, entries, j))
    && (i !in work ==> Exit(cx, code, nodes[i], entries[i].value) == Continue(st))
    && (forall s :: s in done && 0 <= s < |nodes| ==> Admits(entries[s], st))
  }

  lemma LeavingStarts(cx: Context, code: seq<Byte>, nodes: seq<Node>, entries: seq<Entry>, work: seq<int>, i: int,
                      st: seq<Slot>)
    requires 0 <= i < |nodes| && |entries| == |nodes| && entries[i].Some?
    requires Waiting(cx, code, nodes, entries, work + [i]) && Exit(cx, code, nodes[i], entries[i].value) == Continue(st)
    ensures Leaving(cx, code, nodes, entries, work, i, st, {})
  {
    hide Settled, Exit;
    assert i in work + [i];
    forall j | 0 <= j < |nodes| && entries[j].Some? && j !in work && j != i
      ensures Settled(cx, code, nodes, entries, j)
    {
      assert j !in work + [i];
    }
    forall w | w in work
      ensures 0 <= w < |nodes| && entries[w].Some?
    {
      assert w in work + [i];
    }
  }

  lemma LeavingNext(cx: Context, code: seq<Byte>, nodes: seq<Node>, a: seq<Entry>, b: seq<Entry>, work: seq<int>,
                    i: int, st: seq<Slot>, done: set<int>, s: int)
    requires Leaving(cx, code, nodes, a, work, i, st, done) && 0 <= s < |nodes| && Into(a, s, st) == Some(b)
    ensures Leaving(cx, code, nodes, b, if b != a then work + [s] else work, i, st, done + {s})
  {
    hide Settled, Exit, Below, Into;
    IntoGrows(a, s, st);
    var work' := if b != a then work + [s] else work;
    assert a == b || s in work';
    assert forall w :: w in work' ==> w in work || w == s;
    assert forall w :: w in work ==> w in work';
    assert b == a || forall j :: 0 <= j < |a| && j != s ==> b[j] == a[j];
    forall j | 0 <= j < |nodes| && b[j].Some? && j !in work' && j != i
      ensures Settled(cx, code, nodes, b, j)
    {
      assert b[j] == a[j];
      SettledGrows(cx, code, nodes, a, b, j);
    }
    forall d | d in done + {s} && 0 <= d < |nodes|
      ensures Admits(b[d], st)
    {
      if d != s { BelowTrans(st, a[d].value, b[d].value); }
    }
  }

  lemma LeavingEnds(cx: Context, code: seq<Byte>, nodes: seq<Node>, entries: seq<Entry>, work: seq<int>, i: int,
                    st: seq<Slot>, done: set<int>)
    requires Leaving(cx, code, nodes, entries, work, i, st, done) && forall s ::
      s in nodes[i].succs && 0 <= s < |nodes| ==> s in done
    ensures Waiting(cx, code, nodes, entries, work)
  {
    hide Exit, Below;
  }

  ghost predicate SuccsInRange(nodes: seq<Node>) {
    forall i, s :: 0 <= i < |nodes| && s in nodes[i].succs ==> 0 <= s < |nodes|
  }

  /** Sends the stack that leaves block i to each successor, in order. */
  method Propagate(cx: Context, code: seq<Byte>, hs: seq<Handler>, nodes: seq<Node>, entries: seq<Entry>,
                   work: seq<int>, i: int, st: seq<Slot>)
    returns (r: Option<seq<Entry>>, work': seq<int>)
    requires Leaving(cx, code, nodes, entries, work, i, st, {}) && AllArrive(cx, code, hs, nodes, entries)
    requires entries[0] == Some([])
    requires SuccsInRange(nodes) && Exit(cx, code, nodes[i], entries[i].value) == Continue(st)
    requires SeedsIn(cx, hs, |hs|, nodes, entries)
    ensures r.None? ==> Clash(cx, code, hs, nodes)
    ensures r.Some? ==> Going(cx, code, hs, nodes, r.value, work') && SeedsIn(cx, hs, |hs|, nodes, r.value)
    ensures r.Some? ==> (r.value == entries && work' == work) || Progressed(r.value, Unset(entries), Slack(entries))
  {
    hide Exit, Into, Arrives, Leaving, Grows, Admits, Unset, Slack;
    var out := entries;
    work' := work;
    LeavingFacts(cx, code, nodes, entries, work, i, st, {});
    var order := Blocks.Sorted(nodes[i].succs, |nodes|);
    ghost var x := entries[i].value;
    ghost var done: set<int> := {};
    for n := 0 to |order|
      invariant |out| == |nodes| && Leaving(cx, code, nodes, out, work', i, st, done)
      invariant AllArrive(cx, code, hs, nodes, out) && out[0] == Some([]) && SeedsIn(cx, hs, |hs|, nodes, out)
      invariant (out == entries && work' == work) || Progressed(out, Unset(entries), Slack(entries))
      invariant forall m :: 0 <= m < n ==> order[m] in done
    {
      var s := order[n];
      assert s in order;
      ArriveFlowed(cx, code, hs, nodes, i, x, s, st);
      var grown, changed := FlowInto(out, s, st);
      if grown.None? {
        Clashes(cx, code, hs, nodes, out, s, st);
        return None, work';
      }
      LeavingNext(cx, code, nodes, out, grown.value, work', i, st, done, s);
      ArrivesNext(cx, code, hs, nodes, out, grown.value, s, st);
      IntoGrows(out, s, st);
      SeedsGrow(cx, hs, |hs|, nodes, out, grown.value);
      if changed {
        work' := work' + [s];
      }
      out := grown.value;
      done := done + {s};
    }
    LeavingEnds(cx, code, nodes, out, work', i, st, done);
    r := Some(out);
  }

  lemma LeavingFacts(cx: Context, code: seq<Byte>, nodes: seq<Node>, entries: seq<Entry>, work: seq<int>, i: int,
                     st: seq<Slot>, done: set<int>)
    requires Leaving(cx, code, nodes, entries, work, i, st, done)
    ensures |entries| == |nodes| && 0 <= i < |nodes| && entries[i].Some?
  {
  }

  lemma ArrivesNext(cx: Context, code: seq<Byte>, hs: seq<Handler>, nodes: seq<Node>, a: seq<Entry>, b: seq<Entry>,
                    s: int, st: seq<Slot>)
    requires AllArrive(cx, code, hs, nodes, a) && 0 <= s < |nodes| && Arrives(cx, code, hs, nodes, s, st)
    requires Into(a, s, st) == Some(b)
    ensures AllArrive(cx, code, hs, nodes, b)
  {
    hide Arrives, Merged;
    if a[s].Some? {
      ArriveJoined(cx, code, hs, nodes, s, a[s].value, st);
    }
  }

  /** The blocks can be simulated. */
  ghost predicate NodesOk(code: seq<Byte>, nodes: seq<Node>, s: seq<int>) {
    && |nodes| > 0 && SuccsInRange(nodes)
    && (forall i :: 0 <= i < |nodes| ==> nodes[i].start in s && 0 <= nodes[i].start && nodes[i].end <= |code|)
    && (forall i, j :: 0 <= i < j < |nodes| ==> nodes[i].start < nodes[j].start)
  }

  /** Runs the abstract interpretation to a fixpoint. */
  method Flow(cx: Context, code: seq<Byte>, hs: seq<Handler>, nodes: seq<Node>, ghost s: seq<int>) returns (r: Result)
    requires Layout(code, s) && AllInBounds(cx, code, s) && NodesOk(code, nodes, s)
    ensures r.Passed? ==> PostFixpoint(cx, code, hs, nodes, r.entries) && AllArrive(cx, code, hs, nodes, r.entries)
    ensures r.Passed? ==> !Clash(cx, code, hs, nodes) && !Blocked(cx, code, hs, nodes)
    ensures r.Unknown? ==> Stuck(cx, code, hs, nodes, Indeterminate)
    ensures r.Rejected? ==>
      Stuck(cx, code, hs, nodes, Reject(r.error)) || (r.error == StackMismatch && Clash(cx, code, hs, nodes))
  {
    hide Layout, AllInBounds, Arrives, Waiting, Leaving, Unset, Slack, SeedsIn, ExecOf, Stuck, Clash, Blocked;
    var roots, work := Roots(cx, code, hs, nodes);
    if roots.None? {
      return Rejected(StackMismatch);
    }
    var entries := roots.value;
    while |work| > 0
      invariant Going(cx, code, hs, nodes, entries, work) && SeedsIn(cx, hs, |hs|, nodes, entries)
      decreases Unset(entries), Slack(entries), |work|
    {
      var i := work[|work| - 1];
      ghost var before := work;
      WaitingTop(cx, code, nodes, entries, work);
      work := work[..|work| - 1];
      assert before == work + [i];
      var st := new Stack(entries[i].value);
      var signal := Exec(cx, code, nodes[i].start, nodes[i].end, st, s);
      if signal.Fail? {
        StuckAt(cx, code, hs, nodes, entries, i, Reject(signal.error));
        return Rejected(signal.error);
      }
      if signal.Done? {
        StuckAt(cx, code, hs, nodes, entries, i, Indeterminate);
        return Unknown;
      }
      LeavingStarts(cx, code, nodes, entries, work, i, st.slots);
      var grown;
      grown, work := Propagate(cx, code, hs, nodes, entries, work, i, st.slots);
      if grown.None? {
        return Rejected(StackMismatch);
      }
      entries := grown.value;
    }
    NothingWaits(cx, code, nodes, entries, work);
    PostFixpointClears(cx, code, hs, nodes, entries);
    r := Passed(entries);
  }

  /** Whatever arrives at a block, a post-fixpoint admits there. */
  lemma {:induction false} ArisesBelow(cx: Context, code: seq<Byte>, hs: seq<Handler>, nodes: seq<Node>,
                                       entries: seq<Entry>, j: int, st: seq<Slot>, why: Reason)
    requires PostFixpoint(cx, code, hs, nodes, entries) && SuccsInRange(nodes)
    requires Arises(cx, code, hs, nodes, j, st, why)
    ensures 0 <= j < |nodes| && Admits(entries[j], st)
    decreases why
  {
    hide Exit, Below, Merged, Seed;
    match why
    case Entered => BelowSame([]);
    case Caught(m) =>
    case Flowed(i, x, w) =>
      ArisesBelow(cx, code, hs, nodes, entries, i, x, w);
      var y := entries[i].value;
      assert Settled(cx, code, nodes, entries, i);
      ExitBelow(cx, code, nodes[i], x, y);
      BelowTrans(st, Exit(cx, code, nodes[i], y).st, entries[j].value);
    case Joined(a, wa, b, wb) =>
      ArisesBelow(cx, code, hs, nodes, entries, j, a, wa);
      ArisesBelow(cx, code, hs, nodes, entries, j, b, wb);
      MergedIsLeast(a, b, entries[j].value);
  }

  lemma ExitBelow(cx: Context, code: seq<Byte>, n: Node, a: seq<Slot>, b: seq<Slot>)
    requires Below(a, b) && Exit(cx, code, n, b).Continue?
    ensures Ordered(Exit(cx, code, n, a), Exit(cx, code, n, b))
  {
    hide ExecOf, Below;
    ExecBelow(cx, code, n.start, n.end, a, b);
  }

  /** A block that some stack arrives at does not get through, for a reason other than a kind that does not fit. */
  ghost predicate Blocked(cx: Context, code: seq<Byte>, hs: seq<Handler>, nodes: seq<Node>) {
    exists v :: Stuck(cx, code, hs, nodes, v) && !v.Continue? && v != Reject(TypeMismatch)
  }

  /** Where there is a post-fixpoint nothing clashes, and nothing is stuck but on a kind that does not fit. */
  lemma PostFixpointClears(cx: Context, code: seq<Byte>, hs: seq<Handler>, nodes: seq<Node>, entries: seq<Entry>)
    requires PostFixpoint(cx, code, hs, nodes, entries) && SuccsInRange(nodes)
    ensures !Clash(cx, code, hs, nodes) && !Blocked(cx, code, hs, nodes)
  {
    hide Exit, Arises;
    forall j, st | Arrives(cx, code, hs, nodes, j, st)
      ensures 0 <= j < |nodes| && Admits(entries[j], st)
      ensures Exit(cx, code, nodes[j], st).Continue? || Exit(cx, code, nodes[j], st) == Reject(TypeMismatch)
    {
      var why :| Arises(cx, code, hs, nodes, j, st, why);
      ArisesBelow(cx, code, hs, nodes, entries, j, st, why);
      ExitBelow(cx, code, nodes[j], st, entries[j].value);
    }
  }

  lemma WaitingTop(cx: Context, code: seq<Byte>, nodes: seq<Node>, entries: seq<Entry>, work: seq<int>)
    requires Waiting(cx, code, nodes, entries, work) && |work| > 0
    ensures 0 <= work[|work| - 1] < |nodes| && |entries| == |nodes| && entries[work[|work| - 1]].Some?
  {
    assert work[|work| - 1] in work;
  }

  lemma StuckAt(cx: Context, code: seq<Byte>, hs: seq<Handler>, nodes: seq<Node>, entries: seq<Entry>, i: int,
                v: Verdict)
    requires AllArrive(cx, code, hs, nodes, entries) && 0 <= i < |nodes| && entries[i].Some?
    requires Exit(cx, code, nodes[i], entries[i].value) == v
    ensures Stuck(cx, code, hs, nodes, v)
  {
    hide Arrives, Exit;
  }

  lemma NothingWaits(cx: Context, code: seq<Byte>, nodes: seq<Node>, entries: seq<Entry>, work: seq<int>)
    requires Waiting(cx, code, nodes, entries, work) && work == []
    ensures |entries| == |nodes| && forall i ::
      0 <= i < |nodes| && entries[i].Some? ==> Settled(cx, code, nodes, entries, i)
  {
    hide Settled;
  }
}
