/** The count equation of the reference-counted heap and what each step of release, the collector
    and alloc does to it, on plain values. */
module HeapFacts {
  import opened Graphs
  import opened Roots

  /** A heap value: what Refs reports about it, and everything else as an opaque payload. */
  datatype Value = Nil | Object(payload: int, refs: seq<int>)

  const HEAP_RUNWAY := 64

  function Max(a: int, b: int): int { if a < b then b else a }

  function Min(a: int, b: int): int { if a < b then a else b }

  function Out(v: Value): seq<int> {
    if v.Nil? then [] else v.refs
  }

  /** References held by allocated slots; an unallocated slot holds none. */
  ghost function Held(heap: seq<Value>, rc: seq<int>): Graph
    requires |heap| == |rc|
  {
    seq(|rc|, i requires 0 <= i < |rc| => if rc[i] > 0 then Out(heap[i]) else [])
  }

  ghost function CountAt(rc: seq<int>, a: int): int {
    if 0 <= a < |rc| then rc[a] else 0
  }

  /** The count equation at one address, while the references in `owed` are still to be dropped.
      Null is only kept alive. */
  ghost predicate Settled(g: Graph, rc: seq<int>, ext: multiset<int>, owed: multiset<int>, a: int) {
    if a == 0
    then CountAt(rc, 0) > InDegree(g, 0) + owed[0]
    else CountAt(rc, a) == ext[a] + InDegree(g, a) + owed[a]
  }

  ghost predicate Owing(g: Graph, rc: seq<int>, ext: multiset<int>, owed: multiset<int>) {
    forall a :: Settled(g, rc, ext, owed, a)
  }

  ghost predicate Balanced(g: Graph, rc: seq<int>, ext: multiset<int>) {
    Owing(g, rc, ext, multiset{})
  }

  /** The free list holds every unallocated slot exactly once and nothing else. */
  ghost predicate FreeExact(rc: seq<int>, free: seq<int>) {
    && (forall k :: 0 <= k < |free| ==> 0 < free[k] < |rc| && rc[free[k]] == 0)
    && (forall j, k :: 0 <= j < k < |free| ==> free[j] != free[k])
    && (forall a :: 0 < a < |rc| && rc[a] == 0 ==> a in free)
  }

  /** Slot 0 is the null value and never freed; free slots are cleared. */
  ghost predicate WellFormed(heap: seq<Value>, rc: seq<int>, free: seq<int>) {
    && 0 < |heap| == |rc|
    && rc[0] > 0
    && Out(heap[0]) == []
    && (forall a :: 0 <= a < |rc| ==> rc[a] >= 0)
    && (forall a :: 0 < a < |rc| && rc[a] == 0 ==> heap[a] == Nil)
    && FreeExact(rc, free)
  }

  /** Scan's verdict: no allocated slot names a missing one, and no count is below its heap references. */
  ghost predicate Consistent(heap: seq<Value>, rc: seq<int>)
    requires |heap| == |rc|
  {
    && (forall b, c :: Edge(Held(heap, rc), b, c) ==> 0 < c < |rc| && rc[c] > 0)
    && (forall a :: 0 < a < |rc| && rc[a] > 0 ==> rc[a] >= InDegree(Held(heap, rc), a))
  }

  lemma FreePush(rc: seq<int>, free: seq<int>, at: int)
    requires FreeExact(rc, free) && 0 < at < |rc| && rc[at] != 0
    ensures FreeExact(rc[at := 0], free + [at])
  {
    assert forall a :: a in free ==> a in free + [at];
  }

  lemma FreeKeep(rc: seq<int>, free: seq<int>, at: int, n: int)
    requires FreeExact(rc, free) && 0 <= at < |rc| && rc[at] != 0 && n != 0
    ensures FreeExact(rc[at := n], free)
  {
  }

  lemma HeldUpdate(heap: seq<Value>, rc: seq<int>, a: nat, v: Value, n: int)
    requires |heap| == |rc| && a < |rc|
    ensures Held(heap[a := v], rc[a := n]) == Held(heap, rc)[a := if n > 0 then Out(v) else []]
  {
  }

  lemma NoDangling(heap: seq<Value>, rc: seq<int>, ext: multiset<int>)
    requires |heap| == |rc| && Balanced(Held(heap, rc), rc, ext)
    ensures Consistent(heap, rc)
  {
    var g := Held(heap, rc);
    forall b, c | Edge(g, b, c)
      ensures 0 < c < |rc| && rc[c] > 0
    {
      InDegreeMember(g, c);
      assert Settled(g, rc, ext, multiset{}, c);
    }
    forall a | 0 < a < |rc|
      ensures rc[a] >= InDegree(g, a)
    {
      assert Settled(g, rc, ext, multiset{}, a);
    }
  }

  ghost function Allocated(rc: seq<int>): set<int> {
    set a | 0 <= a < |rc| && rc[a] > 0
  }

  /** An external reference about to be dropped becomes an owed one. */
  lemma Owe(g: Graph, rc: seq<int>, ext: multiset<int>, at: int)
    requires Balanced(g, rc, ext)
    requires if at == 0 then CountAt(rc, 0) > InDegree(g, 0) + 1 else ext[at] > 0
    ensures Owing(g, rc, ext - multiset{at}, multiset{at})
  {
    var rest := ext - multiset{at};
    forall a
      ensures Settled(g, rc, rest, multiset{at}, a)
    {
      assert Settled(g, rc, ext, multiset{}, a);
    }
  }

  lemma RootsAllocated(g: Graph, rc: seq<int>, ext: multiset<int>, owed: multiset<int>)
    requires Owing(g, rc, ext, owed)
    ensures forall a :: a != 0 && ext[a] > 0 ==> 0 < a < |rc| && rc[a] > 0
  {
    forall a | a != 0 && ext[a] > 0
      ensures 0 < a < |rc| && rc[a] > 0
    {
      assert Settled(g, rc, ext, owed, a);
    }
  }

  lemma OwedIsAllocated(heap: seq<Value>, rc: seq<int>, ext: multiset<int>, owed: multiset<int>, at: int)
    requires |heap| == |rc|
    requires Owing(Held(heap, rc), rc, ext, owed) && owed[at] > 0
    ensures 0 <= at < |rc| && rc[at] > 0
    ensures rc[at] == 1 ==> at != 0 && ext[at] == 0 && InDegree(Held(heap, rc), at) == 0
  {
    assert Settled(Held(heap, rc), rc, ext, owed, at);
  }

  /** Paying an owed reference to a slot that stays alive keeps the equation. */
  lemma PayShared(heap: seq<Value>, rc: seq<int>, ext: multiset<int>, owed: multiset<int>, at: int)
    requires |heap| == |rc| && 0 <= at < |rc| && rc[at] > 1 && owed[at] > 0
    requires Owing(Held(heap, rc), rc, ext, owed)
    ensures Held(heap, rc[at := rc[at] - 1]) == Held(heap, rc)
    ensures Owing(Held(heap, rc), rc[at := rc[at] - 1], ext, owed - multiset{at})
  {
    var rc', owed' := rc[at := rc[at] - 1], owed - multiset{at};
    forall a
      ensures Settled(Held(heap, rc), rc', ext, owed', a)
    {
      assert Settled(Held(heap, rc), rc, ext, owed, a);
    }
  }

  /** A slot that loses its last reference is freed, and what it held becomes owed. */
  lemma PayLast(heap: seq<Value>, rc: seq<int>, ext: multiset<int>, owed: multiset<int>, at: int)
    requires |heap| == |rc| && 0 < at < |rc| && rc[at] == 1 && owed[at] > 0
    requires Owing(Held(heap, rc), rc, ext, owed)
    ensures Held(heap[at := Nil], rc[at := 0]) == Held(heap, rc)[at := []]
    ensures Owing(Held(heap, rc)[at := []], rc[at := 0], ext, owed - multiset{at} + multiset(Out(heap[at])))
  {
    HeldUpdate(heap, rc, at, Nil, 0);
    var g', rc', owed' := Held(heap, rc)[at := []], rc[at := 0], owed - multiset{at} + multiset(Out(heap[at]));
    forall a
      ensures Settled(g', rc', ext, owed', a)
    {
      assert Settled(Held(heap, rc), rc, ext, owed, a);
      InDegreeUpdate(Held(heap, rc), at, [], a);
    }
  }

  /** What holds between two steps of a release that started on (h0, rc0): `freed` lists the slots
      freed so far, none of which has an external reference or an original in-edge from a slot still alive. */
  ghost predicate Releasing(h0: seq<Value>, rc0: seq<int>, rest: multiset<int>, freed: set<int>,
                            heap: seq<Value>, rc: seq<int>, free: seq<int>, owed: multiset<int>)
    requires |h0| == |rc0|
  {
    && WellFormed(heap, rc, free) && |heap| == |h0|
    && Owing(Held(heap, rc), rc, rest, owed)
    && (forall a :: a in freed ==> 0 < a < |rc| && rc[a] == 0 && rest[a] == 0)
    && (forall a :: 0 <= a < |rc| && a !in freed ==> heap[a] == h0[a] && (rc[a] > 0 <==> rc0[a] > 0))
    && (forall b, c :: Edge(Held(h0, rc0), b, c) && c in freed ==> b in freed)
  }

  lemma ReleasingStart(heap: seq<Value>, rc: seq<int>, free: seq<int>, ext: multiset<int>, addr: int)
    requires |heap| == |rc| && WellFormed(heap, rc, free) && Balanced(Held(heap, rc), rc, ext)
    requires if addr == 0 then rc[0] > InDegree(Held(heap, rc), 0) + 1 else ext[addr] > 0
    ensures 0 <= addr < |rc|
    ensures Releasing(heap, rc, ext - multiset{addr}, {}, heap, rc, free, multiset{addr})
  {
    Owe(Held(heap, rc), rc, ext, addr);
    OwedIsAllocated(heap, rc, ext - multiset{addr}, multiset{addr}, addr);
  }

  lemma ReleasingOwes(h0: seq<Value>, rc0: seq<int>, rest: multiset<int>, freed: set<int>,
                      heap: seq<Value>, rc: seq<int>, free: seq<int>, owed: multiset<int>, at: int)
    requires |h0| == |rc0| && Releasing(h0, rc0, rest, freed, heap, rc, free, owed) && owed[at] > 0
    ensures 0 <= at < |rc| && rc[at] > 0
  {
    OwedIsAllocated(heap, rc, rest, owed, at);
  }

  lemma ReleasingShared(h0: seq<Value>, rc0: seq<int>, rest: multiset<int>, freed: set<int>,
                        heap: seq<Value>, rc: seq<int>, free: seq<int>, owed: multiset<int>, at: int)
    requires |h0| == |rc0| && Releasing(h0, rc0, rest, freed, heap, rc, free, owed)
    requires 0 <= at < |rc| && owed[at] > 0 && rc[at] > 1
    ensures Releasing(h0, rc0, rest, freed, heap, rc[at := rc[at] - 1], free, owed - multiset{at})
  {
    PayShared(heap, rc, rest, owed, at);
    FreeKeep(rc, free, at, rc[at] - 1);
  }

  lemma ReleasingLast(h0: seq<Value>, rc0: seq<int>, rest: multiset<int>, freed: set<int>,
                      heap: seq<Value>, rc: seq<int>, free: seq<int>, owed: multiset<int>, at: int)
    requires |h0| == |rc0| && Releasing(h0, rc0, rest, freed, heap, rc, free, owed)
    requires 0 <= at < |rc| && owed[at] > 0 && rc[at] == 1
    ensures Releasing(h0, rc0, rest, freed + {at}, heap[at := Nil], rc[at := 0], free + [at],
                      owed - multiset{at} + multiset(Out(heap[at])))
  {
    hide FreeExact, Owing;
    OwedIsAllocated(heap, rc, rest, owed, at);
    PayLast(heap, rc, rest, owed, at);
    FreePush(rc, free, at);
    InDegreeMember(Held(heap, rc), at);
    assert forall b :: 0 <= b < |rc| && b !in freed ==> Held(heap, rc)[b] == Held(h0, rc0)[b];
    forall b | Edge(Held(h0, rc0), b, at)
      ensures b in freed
    {
    }
  }

  /** Everything reachable in (h0, rc0) is alive and unchanged in (heap, rc). */
  ghost predicate Preserves(h0: seq<Value>, rc0: seq<int>, ext: multiset<int>, heap: seq<Value>, rc: seq<int>)
    requires |h0| == |rc0| && |heap| == |rc|
  {
    forall a :: Reachable(Held(h0, rc0), ext, a) ==> 0 < a < |h0| <= |rc| && rc[a] > 0 && heap[a] == h0[a]
  }

  /** When nothing is owed any more, everything still reachable is alive and unchanged. */
  lemma ReleasingDone(h0: seq<Value>, rc0: seq<int>, rest: multiset<int>, freed: set<int>,
                      heap: seq<Value>, rc: seq<int>, free: seq<int>)
    requires |h0| == |rc0| && Consistent(h0, rc0)
    requires Releasing(h0, rc0, rest, freed, heap, rc, free, multiset{})
    ensures WellFormed(heap, rc, free) && |heap| == |h0| && Balanced(Held(heap, rc), rc, rest)
    ensures Preserves(h0, rc0, rest, heap, rc)
    ensures forall a :: 0 <= a < |rc| && rc[a] > 0 ==> rc0[a] > 0 && heap[a] == h0[a]
  {
    hide FreeExact, Reachable, InDegree;
    RootsAllocated(Held(heap, rc), rc, rest, multiset{});
    ClosedHoldsReachable(Held(h0, rc0), rest, (set a | 0 < a < |rc0| && rc0[a] > 0) - freed);
  }

  lemma StackPush(w: seq<int>, bottom: nat, v: seq<int>)
    requires bottom <= |w|
    ensures (w + v)[..bottom] == w[..bottom]
    ensures multiset((w + v)[bottom..]) == multiset(w[bottom..]) + multiset(v)
  {
    assert (w + v)[bottom..] == w[bottom..] + v;
  }

  lemma StackPop(w: seq<int>, bottom: nat)
    requires bottom < |w|
    ensures w[..|w| - 1][..bottom] == w[..bottom]
    ensures w[|w| - 1] in multiset(w[bottom..])
    ensures multiset(w[..|w| - 1][bottom..]) == multiset(w[bottom..]) - multiset{w[|w| - 1]}
  {
    assert w[bottom..] == w[..|w| - 1][bottom..] + [w[|w| - 1]];
  }

  lemma AllocatedAfter(rc: seq<int>, at: int)
    requires 0 <= at < |rc| && rc[at] > 0
    ensures Allocated(rc[at := rc[at] - 1]) == if rc[at] == 1 then Allocated(rc) - {at} else Allocated(rc)
    ensures at in Allocated(rc)
  {
  }

  /** trial is rc less the edges of pre and the references in part, at every address but null. */
  ghost predicate Subtracted(trial: seq<int>, rc: seq<int>, pre: Graph, part: multiset<int>) {
    |trial| == |rc| && forall a :: 0 < a < |rc| ==> trial[a] == rc[a] - InDegree(pre, a) - part[a]
  }

  /** Every non-null reference in refs names an allocated slot. */
  ghost predicate AllLive(rc: seq<int>, refs: seq<int>) {
    forall j :: 0 <= j < |refs| && refs[j] != 0 ==> 0 < refs[j] < |rc| && rc[refs[j]] > 0
  }

  lemma SubtractRef(trial: seq<int>, rc: seq<int>, pre: Graph, refs: seq<int>, k: nat)
    requires k < |refs| && Subtracted(trial, rc, pre, multiset(refs[..k]))
    ensures refs[k] == 0 ==> Subtracted(trial, rc, pre, multiset(refs[..k + 1]))
    ensures 0 < refs[k] < |rc| ==>
              Subtracted(trial[refs[k] := trial[refs[k]] - 1], rc, pre, multiset(refs[..k + 1]))
    ensures AllLive(rc, refs[..k]) && (refs[k] == 0 || (0 < refs[k] < |rc| && rc[refs[k]] > 0)) ==>
              AllLive(rc, refs[..k + 1])
  {
    hide InDegree;
    assert refs[..k + 1] == refs[..k] + [refs[k]];
  }

  lemma SubtractSlot(trial: seq<int>, rc: seq<int>, g: Graph, n: nat)
    requires n < |g| && Subtracted(trial, rc, g[..n], multiset(g[n]))
    ensures Subtracted(trial, rc, g[..n + 1], multiset{})
  {
    assert g[..n + 1] == g[..n] + [g[n]];
    forall a | 0 < a < |rc|
      ensures trial[a] == rc[a] - InDegree(g[..n + 1], a)
    {
      InDegreeAppend(g[..n], g[n], a);
    }
  }

  lemma AllLiveNone(rc: seq<int>, refs: seq<int>)
    ensures AllLive(rc, refs[..0])
    ensures refs == [] ==> AllLive(rc, refs)
  {
  }

  lemma ScanStart(heap: seq<Value>, rc: seq<int>)
    requires 0 < |heap| == |rc| && Out(heap[0]) == []
    ensures Subtracted(rc, rc, Held(heap, rc)[..1], multiset{})
  {
    var g := Held(heap, rc);
    assert g[..1] == [[]];
  }

  lemma ScanDone(heap: seq<Value>, rc: seq<int>, trial: seq<int>)
    requires |heap| == |rc| && Subtracted(trial, rc, Held(heap, rc), multiset{})
    requires forall b :: 0 < b < |rc| ==> AllLive(rc, Held(heap, rc)[b])
    ensures |trial| == |rc| && forall a :: 0 < a < |rc| ==> trial[a] == rc[a] - InDegree(Held(heap, rc), a)
    ensures Consistent(heap, rc) <==> forall a :: 0 < a < |rc| && rc[a] > 0 ==> trial[a] >= 0
  {
    hide InDegree;
  }

  lemma Sizes(heap: seq<Value>, rc: seq<int>, free: seq<int>)
    requires WellFormed(heap, rc, free)
    ensures 0 < |heap| == |rc|
  {
  }

  /** The mark phase at work: a slot is marked when its trial count is negative. Marked slots are
      reachable, unmarked ones still show their external count, and only slots in `work` or in
      `open` may have unmarked children. */
  ghost predicate Marking(g: Graph, rc: seq<int>, ext: multiset<int>, trial: seq<int>, work: seq<int>, open: set<int>) {
    && |trial| == |rc| == |g|
    && (forall a :: 0 < a < |rc| && trial[a] < 0 ==> rc[a] > 0 && Reachable(g, ext, a))
    && (forall a :: 0 < a < |rc| && trial[a] >= 0 ==> trial[a] == ext[a])
    && (forall k :: 0 <= k < |work| ==> Marked(trial, work[k]))
    && (forall b, c :: Marked(trial, b) && Edge(g, b, c) ==> Marked(trial, c) || b in work || b in open)
  }

  ghost predicate Marked(trial: seq<int>, a: int) {
    0 < a < |trial| && trial[a] < 0
  }

  ghost function Unmarked(trial: seq<int>): set<int> {
    set a | 0 < a < |trial| && trial[a] >= 0
  }

  /** What one push of the mark phase does to trial and work. */
  ghost predicate Pushes(rc: seq<int>, trial: seq<int>, trial': seq<int>, work: seq<int>, work': seq<int>, a: int) {
    if a <= 0 || a >= |rc| || |trial| != |rc| || rc[a] <= 0 || trial[a] < 0
    then trial' == trial && work' == work
    else trial' == trial[a := -trial[a] - 1] && work' == work + [a]
  }

  lemma MarkingPush(g: Graph, rc: seq<int>, ext: multiset<int>, trial: seq<int>, work: seq<int>, open: set<int>,
                    trial': seq<int>, work': seq<int>, a: int)
    requires Marking(g, rc, ext, trial, work, open) && Pushes(rc, trial, trial', work, work', a)
    requires 0 < a < |rc| && rc[a] > 0 ==> Reachable(g, ext, a)
    ensures Marking(g, rc, ext, trial', work', open)
    ensures 0 < a < |rc| && rc[a] > 0 ==> Marked(trial', a)
    ensures forall b :: Marked(trial, b) ==> Marked(trial', b)
    ensures (trial' == trial && work' == work) || Unmarked(trial') < Unmarked(trial)
  {
    hide Reachable, Edge;
    if trial' != trial {
      assert a in Unmarked(trial) && a !in Unmarked(trial');
      assert forall b :: b in work ==> b in work';
      assert work'[|work|] == a;
    }
  }

  lemma MarkingPop(g: Graph, rc: seq<int>, ext: multiset<int>, trial: seq<int>, work: seq<int>)
    requires work != [] && Marking(g, rc, ext, trial, work, {})
    ensures var a := work[|work| - 1];
            Marked(trial, a) && rc[a] > 0 && Reachable(g, ext, a)
            && Marking(g, rc, ext, trial, work[..|work| - 1], {a})
  {
    hide Reachable, Edge;
    var a := work[|work| - 1];
    assert forall b :: b in work ==> b in work[..|work| - 1] || b == a;
  }

  lemma MarkingStart(heap: seq<Value>, rc: seq<int>, ext: multiset<int>, trial: seq<int>)
    requires |heap| == |rc| == |trial| && forall a :: 0 < a < |rc| ==> trial[a] == ext[a]
    ensures Marking(Held(heap, rc), rc, ext, trial, [], {})
  {
  }

  lemma MarkingRoot(heap: seq<Value>, rc: seq<int>, ext: multiset<int>, trial: seq<int>, work: seq<int>, a: int)
    requires |heap| == |rc| && Balanced(Held(heap, rc), rc, ext)
    requires Marking(Held(heap, rc), rc, ext, trial, work, {}) && 0 < a < |rc|
    ensures trial[a] >= 0 ==> trial[a] == ext[a]
    ensures ext[a] > 0 ==> rc[a] > 0 && Reachable(Held(heap, rc), ext, a)
  {
    RootsAllocated(Held(heap, rc), rc, ext, multiset{});
    if ext[a] > 0 {
      ReachRoot(Held(heap, rc), ext, a);
    }
  }

  lemma ChildReachable(heap: seq<Value>, rc: seq<int>, ext: multiset<int>, b: int, c: int)
    requires |heap| == |rc| && 0 < b < |rc| && rc[b] > 0 && c in Out(heap[b])
    requires Consistent(heap, rc) && Reachable(Held(heap, rc), ext, b)
    ensures c != 0 ==> 0 < c < |rc| && rc[c] > 0 && Reachable(Held(heap, rc), ext, c)
  {
    hide Reachable, InDegree;
    if c != 0 {
      assert Edge(Held(heap, rc), b, c);
      ReachStep(Held(heap, rc), ext, b, c);
    }
  }

  lemma MarkingClose(heap: seq<Value>, rc: seq<int>, ext: multiset<int>, trial: seq<int>, work: seq<int>, a: int)
    requires |heap| == |rc| && 0 < a < |rc| && rc[a] > 0
    requires Marking(Held(heap, rc), rc, ext, trial, work, {a})
    requires forall j :: 0 <= j < |Out(heap[a])| && Out(heap[a])[j] != 0 ==> Marked(trial, Out(heap[a])[j])
    ensures Marking(Held(heap, rc), rc, ext, trial, work, {})
  {
    hide Reachable;
  }

  lemma NoOtherRoots(g: Graph, rc: seq<int>, ext: multiset<int>)
    requires Balanced(g, rc, ext)
    ensures forall a :: a != 0 && ext[a] > 0 ==> 0 < a < |rc|
  {
    RootsAllocated(g, rc, ext, multiset{});
  }

  lemma MarkingDone(g: Graph, rc: seq<int>, ext: multiset<int>, trial: seq<int>)
    requires Marking(g, rc, ext, trial, [], {})
    requires forall a :: a != 0 && ext[a] > 0 ==> Marked(trial, a)
    ensures forall a :: Reachable(g, ext, a) <==> Marked(trial, a)
  {
    hide Reachable;
    ClosedHoldsReachable(g, ext, set a | 0 < a < |trial| && trial[a] < 0);
  }

  /** The sweep phase before slot n: marked slots are alive, unchanged and exactly counted, unmarked
      ones are free below n and as they were from n on. */
  ghost predicate Sweeping(h0: seq<Value>, rc0: seq<int>, ext: multiset<int>, trial: seq<int>, n: int,
                           heap: seq<Value>, rc: seq<int>, free: seq<int>)
    requires |h0| == |rc0|
  {
    && WellFormed(heap, rc, free) && |heap| == |h0| == |trial|
    && rc[0] == rc0[0] > InDegree(Held(h0, rc0), 0) >= InDegree(Held(heap, rc), 0)
    && (forall a ::
       Marked(trial, a) ==>
       heap[a] == h0[a] && rc[a] > 0 && rc0[a] > 0 && Settled(Held(heap, rc), rc, ext, multiset{}, a))
    && (forall a :: 0 < a < |rc| && !Marked(trial, a) ==>
          if a < n then rc[a] == 0 else rc[a] == rc0[a] && heap[a] == h0[a])
  }

  /** Every marked slot has an external reference or is held by a marked slot. */
  ghost predicate Rooted(h0: seq<Value>, ext: multiset<int>, trial: seq<int>) {
    |trial| == |h0| &&
    forall a :: Marked(trial, a) ==> ext[a] > 0 || exists b :: Marked(trial, b) && a in Out(h0[b])
  }

  /** rc' is rc after the marked slots lost the references in part. */
  ghost predicate Paid(rc: seq<int>, trial: seq<int>, part: multiset<int>, rc': seq<int>) {
    |rc'| == |rc| && forall a :: 0 <= a < |rc| ==> rc'[a] == rc[a] - (if Marked(trial, a) then part[a] else 0)
  }

  lemma TrialIsExternal(heap: seq<Value>, rc: seq<int>, ext: multiset<int>)
    requires |heap| == |rc| && Balanced(Held(heap, rc), rc, ext)
    ensures forall a :: 0 < a < |rc| ==> rc[a] - InDegree(Held(heap, rc), a) == ext[a]
  {
    hide InDegree;
    forall a | 0 < a < |rc|
      ensures rc[a] - InDegree(Held(heap, rc), a) == ext[a]
    {
      assert Settled(Held(heap, rc), rc, ext, multiset{}, a);
    }
  }

  lemma RootedByReach(heap: seq<Value>, rc: seq<int>, ext: multiset<int>, trial: seq<int>)
    requires |heap| == |rc| == |trial|
    requires forall a :: Reachable(Held(heap, rc), ext, a) <==> Marked(trial, a)
    ensures Rooted(heap, ext, trial)
  {
    hide Reachable;
    forall a | Marked(trial, a) && ext[a] == 0
      ensures exists b :: Marked(trial, b) && a in Out(heap[b])
    {
      ReachInv(Held(heap, rc), ext, a);
      var b :| Reachable(Held(heap, rc), ext, b) && Edge(Held(heap, rc), b, a);
      assert Marked(trial, b) && a in Out(heap[b]);
    }
  }

  lemma SweepStart(heap: seq<Value>, rc: seq<int>, free: seq<int>, ext: multiset<int>, trial: seq<int>)
    requires WellFormed(heap, rc, free) && |trial| == |rc| && Balanced(Held(heap, rc), rc, ext)
    requires forall a :: Reachable(Held(heap, rc), ext, a) <==> Marked(trial, a)
    ensures Sweeping(heap, rc, ext, trial, 1, heap, rc, free)
  {
    hide Reachable, InDegree, FreeExact;
    var g := Held(heap, rc);
    assert Settled(g, rc, ext, multiset{}, 0);
    forall a | Marked(trial, a)
      ensures rc[a] > 0 && Settled(g, rc, ext, multiset{}, a)
    {
      ReachInv(g, ext, a);
      InDegreeMember(g, a);
      assert Settled(g, rc, ext, multiset{}, a);
    }
  }

  /** A marked slot has more references than the dead slot d holds to it. */
  lemma DeadHoldsLess(h0: seq<Value>, rc0: seq<int>, ext: multiset<int>, trial: seq<int>, d: int,
                      heap: seq<Value>, rc: seq<int>, free: seq<int>, a: int)
    requires |h0| == |rc0| && Sweeping(h0, rc0, ext, trial, d, heap, rc, free) && Rooted(h0, ext, trial)
    requires 0 < d < |rc| && !Marked(trial, d) && rc[d] > 0 && Marked(trial, a)
    ensures rc[a] > multiset(Out(heap[d]))[a]
  {
    hide InDegree, FreeExact;
    var g := Held(heap, rc);
    InDegreeUpdate(g, d, [], a);
    InDegreeMember(g[d := []], a);
    if ext[a] == 0 {
      var b :| Marked(trial, b) && a in Out(h0[b]);
      assert g[d := []][b] == Out(h0[b]);
    }
  }

  lemma PaidNothing(rc: seq<int>, trial: seq<int>, refs: seq<int>)
    ensures Paid(rc, trial, multiset(refs[..0]), rc)
  {
  }

  lemma PayRef(rc: seq<int>, trial: seq<int>, refs: seq<int>, k: nat, rc': seq<int>)
    requires k < |refs| && |trial| == |rc| && Paid(rc, trial, multiset(refs[..k]), rc')
    ensures Marked(trial, refs[k]) ==> Paid(rc, trial, multiset(refs[..k + 1]), rc'[refs[k] := rc'[refs[k]] - 1])
    ensures !Marked(trial, refs[k]) ==> Paid(rc, trial, multiset(refs[..k + 1]), rc')
    ensures Marked(trial, refs[k]) && rc[refs[k]] > multiset(refs)[refs[k]] ==> rc'[refs[k]] > 0
  {
    assert refs[..k + 1] == refs[..k] + [refs[k]];
    assert refs == refs[..k] + refs[k..];
    assert multiset(refs) == multiset(refs[..k]) + multiset(refs[k..]);
  }

  lemma SweepStep(h0: seq<Value>, rc0: seq<int>, ext: multiset<int>, trial: seq<int>, d: int,
                  heap: seq<Value>, rc: seq<int>, free: seq<int>, rc': seq<int>)
    requires |h0| == |rc0| && Sweeping(h0, rc0, ext, trial, d, heap, rc, free) && Rooted(h0, ext, trial)
    requires 0 < d < |rc| && !Marked(trial, d) && rc[d] > 0
    requires Paid(rc, trial, multiset(Out(heap[d])), rc')
    ensures Sweeping(h0, rc0, ext, trial, d + 1, heap[d := Nil], rc'[d := 0], free + [d])
  {
    hide InDegree, FreeExact, Rooted;
    var g, refs := Held(heap, rc), Out(heap[d]);
    forall a | Marked(trial, a)
      ensures rc[a] > multiset(refs)[a]
    {
      DeadHoldsLess(h0, rc0, ext, trial, d, heap, rc, free, a);
    }
    assert Held(heap[d := Nil], rc'[d := 0]) == g[d := []];
    forall a
      ensures InDegree(g[d := []], a) == InDegree(g, a) - multiset(refs)[a]
    {
      InDegreeUpdate(g, d, [], a);
    }
    FreePaid(rc, trial, multiset(refs), rc', free, d);
  }

  lemma FreePaid(rc: seq<int>, trial: seq<int>, part: multiset<int>, rc': seq<int>, free: seq<int>, d: int)
    requires FreeExact(rc, free) && 0 < d < |rc| && rc[d] > 0 && |trial| == |rc| && Paid(rc, trial, part, rc')
    requires forall a :: Marked(trial, a) ==> rc[a] > part[a]
    ensures FreeExact(rc'[d := 0], free + [d])
  {
    FreePush(rc, free, d);
  }

  lemma SweepSkip(h0: seq<Value>, rc0: seq<int>, ext: multiset<int>, trial: seq<int>, d: int,
                  heap: seq<Value>, rc: seq<int>, free: seq<int>)
    requires |h0| == |rc0| && Sweeping(h0, rc0, ext, trial, d, heap, rc, free)
    requires 0 < d < |rc| && (Marked(trial, d) || rc[d] <= 0)
    ensures Sweeping(h0, rc0, ext, trial, d + 1, heap, rc, free)
  {
    hide InDegree, FreeExact, Settled;
  }

  lemma SweepDone(h0: seq<Value>, rc0: seq<int>, ext: multiset<int>, trial: seq<int>,
                  heap: seq<Value>, rc: seq<int>, free: seq<int>)
    requires |h0| == |rc0| && Sweeping(h0, rc0, ext, trial, |rc|, heap, rc, free)
    requires forall a :: Reachable(Held(h0, rc0), ext, a) <==> Marked(trial, a)
    ensures WellFormed(heap, rc, free) && |heap| == |h0| && Balanced(Held(heap, rc), rc, ext)
    ensures forall a :: 0 < a < |rc| && rc[a] > 0 <==> Reachable(Held(h0, rc0), ext, a)
    ensures forall a :: 0 < a < |rc| && rc[a] > 0 ==> heap[a] == h0[a] && rc0[a] > 0
    ensures rc[0] == rc0[0] && InDegree(Held(heap, rc), 0) <= InDegree(Held(h0, rc0), 0)
  {
    hide InDegree, FreeExact, Reachable;
    var g := Held(heap, rc);
    forall a
      ensures Settled(g, rc, ext, multiset{}, a)
    {
      if a != 0 && !Marked(trial, a) {
        if ext[a] > 0 {
          ReachRoot(Held(h0, rc0), ext, a);
        }
        InDegreeMember(g, a);
        forall b | 0 <= b < |g|
          ensures a !in g[b]
        {
          if a in g[b] {
            ReachStep(Held(h0, rc0), ext, b, a);
          }
        }
      }
    }
  }

  /** The caller owns every reference v holds; references to null only need null to be counted for them. */
  ghost predicate Backed(g: Graph, rc: seq<int>, ext: multiset<int>, v: Value) {
    && (forall c :: c != 0 ==> ext[c] >= multiset(Out(v))[c])
    && CountAt(rc, 0) > InDegree(g, 0) + multiset(Out(v))[0]
  }

  lemma PreservesSelf(heap: seq<Value>, rc: seq<int>, ext: multiset<int>)
    requires |heap| == |rc| && Balanced(Held(heap, rc), rc, ext)
    ensures Preserves(heap, rc, ext, heap, rc)
  {
    hide InDegree, Reachable;
    NoDangling(heap, rc, ext);
    RootsAllocated(Held(heap, rc), rc, ext, multiset{});
    ClosedHoldsReachable(Held(heap, rc), ext, set a | 0 < a < |rc| && rc[a] > 0);
  }

  /** What alloc promises about the slot it hands out and about everything already there. It fails
      exactly when the heap stands at a positive limit and every slot in it is reachable. */
  ghost predicate Allocates(h0: seq<Value>, rc0: seq<int>, limit: int, ext: multiset<int>, v: Value,
                            heap: seq<Value>, rc: seq<int>, addr: Option<int>)
    requires |h0| == |rc0| && |heap| == |rc|
  {
    var g := Held(h0, rc0);
    && Preserves(h0, rc0, ext, heap, rc)
    && |h0| <= |heap| <= |h0| + 1
    && (limit > 0 && |heap| > |h0| ==> |heap| <= limit)
    && (addr.None? <==> limit > 0 && |h0| >= limit && forall a :: 0 < a < |h0| ==> Reachable(g, ext, a))
    && (addr.Some? ==> 0 < addr.value < |heap| && heap[addr.value] == v && rc[addr.value] == 1
                       && !Reachable(g, ext, addr.value))
  }

  lemma AllocatesReused(h0: seq<Value>, rc0: seq<int>, limit: int, ext: multiset<int>, v: Value,
                        heap: seq<Value>, rc: seq<int>, at: int)
    requires |h0| == |rc0| == |heap| == |rc| && Preserves(h0, rc0, ext, heap, rc)
    requires 0 < at < |rc| && rc[at] == 0
    ensures Allocates(h0, rc0, limit, ext, v, heap[at := v], rc[at := 1], Some(at))
  {
    hide Reachable, Held;
  }

  lemma AllocatesAppended(h0: seq<Value>, rc0: seq<int>, limit: int, ext: multiset<int>, v: Value,
                          heap: seq<Value>, rc: seq<int>)
    requires |h0| == |rc0| == |heap| == |rc| && Preserves(h0, rc0, ext, heap, rc)
    requires |heap| > 0 && !(limit > 0 && |heap| >= limit)
    ensures Allocates(h0, rc0, limit, ext, v, heap + [v], rc + [1], Some(|heap|))
  {
    hide Reachable, Held;
  }

  lemma AllocatesNothing(h0: seq<Value>, rc0: seq<int>, limit: int, ext: multiset<int>, v: Value,
                         heap: seq<Value>, rc: seq<int>)
    requires |h0| == |rc0| == |heap| == |rc| && Preserves(h0, rc0, ext, heap, rc)
    requires limit > 0 && |heap| >= limit
    requires forall a :: 0 < a < |rc| ==> Reachable(Held(h0, rc0), ext, a)
    ensures Allocates(h0, rc0, limit, ext, v, heap, rc, None)
  {
    hide Reachable, Held;
  }

  lemma PreservesCollection(h0: seq<Value>, rc0: seq<int>, ext: multiset<int>, heap: seq<Value>, rc: seq<int>)
    requires |h0| == |rc0| == |heap| == |rc|
    requires forall a :: 0 < a < |rc| && rc[a] > 0 <==> Reachable(Held(h0, rc0), ext, a)
    requires forall a :: 0 < a < |rc| && rc[a] > 0 ==> heap[a] == h0[a]
    ensures Preserves(h0, rc0, ext, heap, rc)
  {
    hide Reachable, Held;
  }

  /** Storing a value into an unallocated slot moves its references inside and hands out one to the slot. */
  lemma StoreFresh(heap: seq<Value>, rc: seq<int>, ext: multiset<int>, v: Value, at: int)
    requires |heap| == |rc| && Balanced(Held(heap, rc), rc, ext) && Backed(Held(heap, rc), rc, ext, v)
    requires 0 < at < |rc| && rc[at] == 0
    ensures Balanced(Held(heap[at := v], rc[at := 1]), rc[at := 1], ext - multiset(Out(v)) + multiset{at})
  {
    hide InDegree;
    var g, g', rc' := Held(heap, rc), Held(heap[at := v], rc[at := 1]), rc[at := 1];
    var ext' := ext - multiset(Out(v)) + multiset{at};
    HeldUpdate(heap, rc, at, v, 1);
    forall a
      ensures Settled(g', rc', ext', multiset{}, a)
    {
      assert Settled(g, rc, ext, multiset{}, a);
      InDegreeUpdate(g, at, Out(v), a);
    }
  }

  /** Extending the heap by one unallocated slot changes no count. */
  lemma GrowOne(heap: seq<Value>, rc: seq<int>, ext: multiset<int>, v: Value)
    requires |heap| == |rc| > 0 && Balanced(Held(heap, rc), rc, ext) && Backed(Held(heap, rc), rc, ext, v)
    ensures Balanced(Held(heap + [Nil], rc + [0]), rc + [0], ext)
    ensures Backed(Held(heap + [Nil], rc + [0]), rc + [0], ext, v)
  {
    hide InDegree;
    var g, g', rc' := Held(heap, rc), Held(heap + [Nil], rc + [0]), rc + [0];
    assert g' == g + [[]];
    forall a
      ensures Settled(g', rc', ext, multiset{}, a) && InDegree(g', a) == InDegree(g, a)
    {
      assert Settled(g, rc, ext, multiset{}, a);
      InDegreeAppend(g, [], a);
      assert CountAt(rc', a) == CountAt(rc, a);
    }
  }

  lemma FreePop(heap: seq<Value>, rc: seq<int>, free: seq<int>, v: Value)
    requires WellFormed(heap, rc, free) && free != []
    ensures var at := free[|free| - 1];
            0 < at < |rc| && rc[at] == 0 && WellFormed(heap[at := v], rc[at := 1], free[..|free| - 1])
  {
    var at, rest := free[|free| - 1], free[..|free| - 1];
    assert forall a :: a in free ==> a == at || a in rest;
  }

  lemma FreeGrow(heap: seq<Value>, rc: seq<int>, free: seq<int>, v: Value)
    requires WellFormed(heap, rc, free)
    ensures WellFormed(heap + [v], rc + [1], free)
  {
  }

  /** The allocated slots other than null are exactly the reachable ones. */
  ghost predicate NoGarbage(heap: seq<Value>, rc: seq<int>, ext: multiset<int>)
    requires |heap| == |rc|
  {
    forall a :: Reachable(Held(heap, rc), ext, a) <==> 0 < a < |rc| && rc[a] > 0
  }

  /** An acyclic reference graph holds no garbage: the allocated slots are exactly the reachable ones. */
  lemma AcyclicHoldsNoGarbage(heap: seq<Value>, rc: seq<int>, free: seq<int>, ext: multiset<int>)
    requires WellFormed(heap, rc, free) && Balanced(Held(heap, rc), rc, ext) && Acyclic(Held(heap, rc))
    ensures NoGarbage(heap, rc, ext)
  {
    hide InDegree, Reachable, FreeExact, Ranks;
    PreservesSelf(heap, rc, ext);
    var rank :| Ranks(Held(heap, rc), rank);
    forall a | 0 < a < |rc| && rc[a] > 0
      ensures Reachable(Held(heap, rc), ext, a)
    {
      RankedIsReachable(heap, rc, ext, rank, a);
    }
  }

  /** What only loses slots stays acyclic: after a release from an acyclic graph nothing unreachable is allocated. */
  lemma AcyclicReleased(h0: seq<Value>, rc0: seq<int>, heap: seq<Value>, rc: seq<int>, free: seq<int>,
                        ext: multiset<int>)
    requires |h0| == |rc0| == |heap| == |rc| && Acyclic(Held(h0, rc0))
    requires forall a :: 0 <= a < |rc| && rc[a] > 0 ==> rc0[a] > 0 && heap[a] == h0[a]
    requires WellFormed(heap, rc, free) && Balanced(Held(heap, rc), rc, ext)
    ensures NoGarbage(heap, rc, ext)
  {
    hide WellFormed, Balanced, Reachable;
    var rank :| Ranks(Held(h0, rc0), rank);
    forall b, c | Edge(Held(heap, rc), b, c)
      ensures Edge(Held(h0, rc0), b, c)
    {
    }
    assert Ranks(Held(heap, rc), rank);
    AcyclicHoldsNoGarbage(heap, rc, free, ext);
  }

  /** The end of a release. */
  lemma ReleaseEnds(h0: seq<Value>, rc0: seq<int>, rest: multiset<int>, freed: set<int>, heap: seq<Value>, rc: seq<int>,
                    free: seq<int>)
    requires |h0| == |rc0| && Consistent(h0, rc0) && Releasing(h0, rc0, rest, freed, heap, rc, free, multiset{})
    ensures WellFormed(heap, rc, free) && |heap| == |h0| == |rc| && Balanced(Held(heap, rc), rc, rest)
    ensures Preserves(h0, rc0, rest, heap, rc)
    ensures forall a :: 0 <= a < |rc| && rc[a] > 0 ==> rc0[a] > 0 && heap[a] == h0[a]
    ensures Acyclic(Held(h0, rc0)) ==> NoGarbage(heap, rc, rest)
  {
    hide Releasing, Preserves, WellFormed, Balanced, Reachable, Held, Consistent, Acyclic, NoGarbage;
    ReleasingDone(h0, rc0, rest, freed, heap, rc, free);
    Sizes(heap, rc, free);
    if Acyclic(Held(h0, rc0)) {
      AcyclicReleased(h0, rc0, heap, rc, free, rest);
    }
  }

  lemma {:induction false} RankedIsReachable(heap: seq<Value>, rc: seq<int>, ext: multiset<int>, rank: seq<int>, a: int)
    requires 0 < |heap| == |rc| && Out(heap[0]) == [] && Balanced(Held(heap, rc), rc, ext)
    requires Ranks(Held(heap, rc), rank) && 0 < a < |rc| && rc[a] > 0
    ensures Reachable(Held(heap, rc), ext, a)
    decreases rank[a]
  {
    hide Reachable;
    var g := Held(heap, rc);
    assert Settled(g, rc, ext, multiset{}, a);
    if ext[a] > 0 {
      ReachRoot(g, ext, a);
    } else {
      InDegreeMember(g, a);
      var b :| 0 <= b < |g| && a in g[b];
      assert Edge(g, b, a);
      RankedIsReachable(heap, rc, ext, rank, b);
      ReachStep(g, ext, b, a);
    }
  }

  lemma StillBacked(g: Graph, rc: seq<int>, g': Graph, rc': seq<int>, ext: multiset<int>, v: Value)
    requires Backed(g, rc, ext, v) && CountAt(rc', 0) == CountAt(rc, 0) && InDegree(g', 0) <= InDegree(g, 0)
    ensures Backed(g', rc', ext, v)
  {
  }

  lemma NothingFree(heap: seq<Value>, rc: seq<int>, free: seq<int>)
    requires WellFormed(heap, rc, free)
    ensures free == [] ==> forall a :: 0 < a < |rc| ==> rc[a] > 0
  {
  }

  /** Survival composes: what the first step keeps for ext, a later step for fewer references keeps too. */
  lemma PreservesTrans(h0: seq<Value>, rc0: seq<int>, h1: seq<Value>, rc1: seq<int>, h2: seq<Value>, rc2: seq<int>,
                       ext: multiset<int>, ext': multiset<int>)
    requires |h0| == |rc0| && |h1| == |rc1| && |h2| == |rc2| && ext <= ext'
    requires Preserves(h0, rc0, ext', h1, rc1) && Preserves(h1, rc1, ext, h2, rc2)
    ensures Preserves(h0, rc0, ext, h2, rc2)
  {
    hide InDegree, Reachable;
    var g0, g1 := Held(h0, rc0), Held(h1, rc1);
    FewerRoots(g0, ext, ext');
    KeptEdges(h0, rc0, h1, rc1, ext);
  }

  lemma PreservesFewer(h0: seq<Value>, rc0: seq<int>, ext: multiset<int>, ext': multiset<int>, h1: seq<Value>,
                       rc1: seq<int>)
    requires |h0| == |rc0| && |h1| == |rc1| && ext <= ext'
    requires Preserves(h0, rc0, ext', h1, rc1)
    ensures Preserves(h0, rc0, ext, h1, rc1)
  {
    hide InDegree, Reachable;
    FewerRoots(Held(h0, rc0), ext, ext');
  }

  lemma PreservesThen(h0: seq<Value>, rc0: seq<int>, h1: seq<Value>, rc1: seq<int>, h2: seq<Value>, rc2: seq<int>,
                      ext: multiset<int>, ext': multiset<int>)
    requires |h0| == |rc0| && |h1| == |rc1| && |h2| == |rc2| && ext <= ext'
    requires Preserves(h0, rc0, ext, h1, rc1) && Preserves(h1, rc1, ext', h2, rc2)
    ensures Preserves(h0, rc0, ext, h2, rc2)
  {
    hide InDegree, Reachable;
    FewerRoots(Held(h1, rc1), ext, ext');
    PreservesTrans(h0, rc0, h1, rc1, h2, rc2, ext, ext);
  }

  lemma FewerRoots(g: Graph, ext: multiset<int>, ext': multiset<int>)
    requires ext <= ext'
    ensures forall a :: Reachable(g, ext, a) ==> Reachable(g, ext', a)
  {
    forall a | Reachable(g, ext, a)
      ensures Reachable(g, ext', a)
    {
      var p :| PathFrom(g, ext, p, a);
      assert PathFrom(g, ext', p, a);
    }
  }

  /** Preserved slots keep their references, so they still reach each other. */
  lemma KeptEdges(h0: seq<Value>, rc0: seq<int>, h1: seq<Value>, rc1: seq<int>, ext: multiset<int>)
    requires |h0| == |rc0| && |h1| == |rc1| && Preserves(h0, rc0, ext, h1, rc1)
    ensures forall a :: Reachable(Held(h0, rc0), ext, a) ==> Reachable(Held(h1, rc1), ext, a)
  {
    hide InDegree, Reachable;
    var g0, g1 := Held(h0, rc0), Held(h1, rc1);
    forall a | Reachable(g0, ext, a)
      ensures Reachable(g1, ext, a)
    {
      WalkSurvives(h0, rc0, h1, rc1, ext, a);
    }
  }

  lemma WalkSurvives(h0: seq<Value>, rc0: seq<int>, h1: seq<Value>, rc1: seq<int>, ext: multiset<int>, a: int)
    requires |h0| == |rc0| && |h1| == |rc1| && Preserves(h0, rc0, ext, h1, rc1)
    requires Reachable(Held(h0, rc0), ext, a)
    ensures Reachable(Held(h1, rc1), ext, a)
  {
    var p :| PathFrom(Held(h0, rc0), ext, p, a);
    PathSurvives(h0, rc0, h1, rc1, ext, p);
  }

  lemma {:induction false} PathSurvives(h0: seq<Value>, rc0: seq<int>, h1: seq<Value>, rc1: seq<int>,
                                        ext: multiset<int>, p: seq<int>)
    requires |h0| == |rc0| && |h1| == |rc1| && Preserves(h0, rc0, ext, h1, rc1)
    requires Path(Held(h0, rc0), p) && p[0] != 0 && ext[p[0]] > 0
    ensures Reachable(Held(h0, rc0), ext, p[|p| - 1]) && Reachable(Held(h1, rc1), ext, p[|p| - 1])
  {
    hide Reachable, InDegree;
    var g0, g1 := Held(h0, rc0), Held(h1, rc1);
    if |p| == 1 {
      ReachRoot(g0, ext, p[0]);
      ReachRoot(g1, ext, p[0]);
    } else {
      var b, c := p[|p| - 2], p[|p| - 1];
      PathSurvives(h0, rc0, h1, rc1, ext, p[..|p| - 1]);
      assert Edge(g0, b, c) && Edge(g1, b, c);
      ReachStep(g0, ext, b, c);
      ReachStep(g1, ext, b, c);
    }
  }

  /** The references of every slot but null, allocated or not. */
  ghost function Every(heap: seq<Value>): Graph {
    seq(|heap|, i requires 0 <= i < |heap| => if i == 0 then [] else Out(heap[i]))
  }

  /** The addresses of the reference constants. */
  ghost function Addrs(cs: seq<Boxed>): multiset<int> {
    if cs == [] then multiset{}
    else Addrs(cs[..|cs| - 1]) + (if cs[|cs| - 1].Ref? then multiset{cs[|cs| - 1].addr} else multiset{})
  }

  /** rc counts the constants, the edges of pre and the references in part; null starts at one. */
  ghost predicate Counted(rc: seq<int>, consts: multiset<int>, pre: Graph, part: multiset<int>) {
    forall a :: 0 <= a < |rc| ==> rc[a] == (if a == 0 then 1 else 0) + consts[a] + InDegree(pre, a) + part[a]
  }

  lemma CountedNothing(rc: seq<int>)
    requires forall a :: 0 <= a < |rc| ==> rc[a] == if a == 0 then 1 else 0
    ensures Counted(rc, Addrs([]), [], multiset{})
  {
  }

  lemma CountNull(rc: seq<int>, consts: multiset<int>, heap: seq<Value>)
    requires 0 < |heap| && Counted(rc, consts, [], multiset{})
    ensures Counted(rc, consts, Every(heap)[..1], multiset{})
  {
    assert Every(heap)[..1] == [[]];
    forall a
      ensures InDegree([[]], a) == 0
    {
      InDegreeAppend([], [], a);
    }
  }

  lemma CountedIs(rc: seq<int>, consts: multiset<int>, g: Graph)
    requires Counted(rc, consts, g, multiset{})
    ensures forall a :: 0 <= a < |rc| ==> rc[a] == (if a == 0 then 1 else 0) + consts[a] + InDegree(g, a)
  {
  }

  lemma CountConstant(rc: seq<int>, cs: seq<Boxed>, k: nat)
    requires k < |cs| && Counted(rc, Addrs(cs[..k]), [], multiset{})
    ensures cs[k].Ref? && 0 <= cs[k].addr < |rc| ==>
              Counted(rc[cs[k].addr := rc[cs[k].addr] + 1], Addrs(cs[..k + 1]), [], multiset{})
    ensures !(cs[k].Ref? && 0 <= cs[k].addr < |rc|) ==> Counted(rc, Addrs(cs[..k + 1]), [], multiset{})
  {
    assert cs[..k + 1][..k] == cs[..k];
  }

  lemma CountRef(rc: seq<int>, consts: multiset<int>, pre: Graph, refs: seq<int>, k: nat)
    requires k < |refs| && Counted(rc, consts, pre, multiset(refs[..k]))
    ensures 0 <= refs[k] < |rc| ==> Counted(rc[refs[k] := rc[refs[k]] + 1], consts, pre, multiset(refs[..k + 1]))
    ensures !(0 <= refs[k] < |rc|) ==> Counted(rc, consts, pre, multiset(refs[..k + 1]))
  {
    hide InDegree;
    assert refs[..k + 1] == refs[..k] + [refs[k]];
  }

  lemma CountSlot(rc: seq<int>, consts: multiset<int>, g: Graph, n: nat)
    requires n < |g| && Counted(rc, consts, g[..n], multiset(g[n]))
    ensures Counted(rc, consts, g[..n + 1], multiset{})
  {
    assert g[..n + 1] == g[..n] + [g[n]];
    forall a | 0 <= a < |rc|
      ensures rc[a] == (if a == 0 then 1 else 0) + consts[a] + InDegree(g[..n + 1], a)
    {
      InDegreeAppend(g[..n], g[n], a);
    }
  }

  /** The counts recount leaves satisfy the count equation exactly when no slot counts zero and nothing
      names an address outside the heap. */
  lemma RecountIsExact(heap: seq<Value>, rc: seq<int>, consts: multiset<int>)
    requires 0 < |heap| == |rc| && Out(heap[0]) == [] && Counted(rc, consts, Every(heap), multiset{})
    requires forall a :: 0 < a < |rc| ==> rc[a] > 0
    ensures Balanced(Held(heap, rc), rc, consts) <==>
              forall a :: !(0 <= a < |rc|) ==> consts[a] == 0 && InDegree(Every(heap), a) == 0
    ensures WellFormed(heap, rc, [])
  {
    hide InDegree;
    assert Held(heap, rc) == Every(heap);
    var g := Held(heap, rc);
    forall a
      ensures Settled(g, rc, consts, multiset{}, a) <==>
                (0 <= a < |rc| || (consts[a] == 0 && InDegree(g, a) == 0))
    {
    }
  }
}
