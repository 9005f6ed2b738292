/** The reference-counted heap of the interpreter: allocation, release, the cycle collector and
    exception unwinding. */
module Interp {
  import opened Graphs
  import opened HeapFacts
  import opened Roots
  import Bytecode

  class Interpreter {
    var heap: seq<Value>
    var rc: seq<int>
    var free: seq<int>
    var trial: seq<int>
    var work: seq<int>
    var capacity: nat
    var limit: int
    var base: int
    var target: int

    var stack: seq<Boxed>
    var sp: int
    var frames: seq<Frame>
    var fp: int
    var handlers: seq<seq<Handler>>

    ghost function Graph(): Graph
      requires |heap| == |rc|
      reads this
    {
      Held(heap, rc)
    }

    ghost predicate Valid()
      reads this
    {
      WellFormed(heap, rc, free) && |heap| <= capacity
    }

    ghost predicate Exact(ext: multiset<int>)
      reads this
    {
      Valid() && Balanced(Graph(), rc, ext)
    }

    /** Clears a slot and puts its address on the free list. */
    method Reclaim(addr: int, v: Value)
      requires 0 <= addr < |heap|
      modifies `heap, `free
      ensures heap == old(heap)[addr := Nil]
      ensures free == old(free) + [addr]
    {
      heap := heap[addr := Nil];
      free := free + [addr];
    }

    /** Drops one external reference to addr, freeing whatever becomes unreferenced. */
    method Release(addr: int, ghost ext: multiset<int>)
      requires Exact(ext)
      requires if addr == 0 then rc[0] > InDegree(Graph(), 0) + 1 else ext[addr] > 0
      modifies `heap, `rc, `free, `work
      ensures Exact(ext - multiset{addr})
      ensures |rc| == |heap| == old(|heap|) && work == old(work)
      ensures Preserves(old(heap), old(rc), ext - multiset{addr}, heap, rc)
      ensures forall a :: 0 <= a < |rc| && rc[a] > 0 ==> old(rc[a]) > 0 && heap[a] == old(heap[a])
      ensures old(Acyclic(Graph())) ==> NoGarbage(heap, rc, ext - multiset{addr})
    {
      hide Releasing, Preserves, WellFormed, Balanced, Reachable, InDegree, Held, Consistent, Allocated, Acyclic,
           NoGarbage;
      Sizes(heap, rc, free);
      ghost var h0, rc0, rest := heap, rc, ext - multiset{addr};
      ghost var freed: set<int> := {};
      NoDangling(heap, rc, ext);
      ReleasingStart(heap, rc, free, ext, addr);
      if rc[addr] > 1 {
        ReleasingShared(h0, rc0, rest, freed, heap, rc, free, multiset{addr}, addr);
        rc := rc[addr := rc[addr] - 1];
        assert multiset{addr} - multiset{addr} == multiset{};
        ReleaseEnds(h0, rc0, rest, freed, heap, rc, free);
        return;
      }
      var bottom := |work|;
      StackPush(work, bottom, [addr]);
      work := work + [addr];
      assert multiset(work[bottom..]) == multiset{addr};
      while |work| > bottom
        invariant |heap| == |h0| == |rc| == |rc0| && |work| >= bottom && work[..bottom] == old(work)
        invariant Releasing(h0, rc0, rest, freed, heap, rc, free, multiset(work[bottom..]))
        decreases Allocated(rc), |work|
      {
        ghost var owed, before := multiset(work[bottom..]), rc;
        StackPop(work, bottom);
        var at := work[|work| - 1];
        work := work[..|work| - 1];
        ReleasingOwes(h0, rc0, rest, freed, heap, rc, free, owed, at);
        AllocatedAfter(rc, at);
        rc := rc[at := rc[at] - 1];
        if rc[at] == 0 {
          var v := heap[at];
          ReleasingLast(h0, rc0, rest, freed, heap, before, free, owed, at);
          StackPush(work, bottom, Out(v));
          work := work + Out(v);
          Reclaim(at, v);
          freed := freed + {at};
        } else {
          ReleasingShared(h0, rc0, rest, freed, heap, before, free, owed, at);
        }
      }
      assert work[bottom..] == [];
      assert work == work[..bottom];
      ReleaseEnds(h0, rc0, rest, freed, heap, rc, free);
    }

    /** Subtracts every heap-to-heap edge from a copy of the counts. The result is false
        where it panics with a segmentation fault. */
    method Scan() returns (ok: bool)
      requires Valid()
      modifies `trial
      ensures ok == Consistent(heap, rc)
      ensures ok ==> |trial| == |rc| && forall a :: 0 < a < |rc| ==> trial[a] == rc[a] - InDegree(Graph(), a)
    {
      hide InDegree, FreeExact, Subtracted, AllLive;
      trial := rc;
      var n := |rc|;
      ghost var g := Graph();
      ScanStart(heap, rc);
      for addr := 1 to n
        invariant |trial| == n && Subtracted(trial, rc, g[..addr], multiset{})
        invariant forall b :: 0 < b < addr ==> AllLive(rc, g[b])
      {
        if rc[addr] > 0 {
          var refs := Out(heap[addr]);
          assert refs[..0] == [];
          AllLiveNone(rc, refs);
          for k := 0 to |refs|
            invariant |trial| == n && Subtracted(trial, rc, g[..addr], multiset(refs[..k]))
            invariant AllLive(rc, refs[..k])
          {
            SubtractRef(trial, rc, g[..addr], refs, k);
            var child := refs[k];
            if child != 0 {
              if child < 0 || child >= n || rc[child] <= 0 {
                assert Edge(g, addr, child);
                return false;
              }
              trial := trial[child := trial[child] - 1];
            }
          }
          assert refs[..|refs|] == refs;
        } else {
          AllLiveNone(rc, g[addr]);
        }
        SubtractSlot(trial, rc, g, addr);
      }
      assert g[..n] == g;
      ScanDone(heap, rc, trial);
      for addr := 1 to n
        invariant forall a :: 0 < a < addr && rc[a] > 0 ==> trial[a] >= 0
      {
        if rc[addr] > 0 && trial[addr] < 0 {
          return false;
        }
      }
      ok := true;
    }

    /** Marks one slot unless it is null, unallocated or marked already. */
    method Push(addr: int, work: seq<int>) returns (work': seq<int>)
      requires |trial| == |rc|
      modifies `trial
      ensures Pushes(rc, old(trial), trial, work, work', addr)
    {
      if addr <= 0 || addr >= |rc| || rc[addr] <= 0 || trial[addr] < 0 {
        return work;
      }
      trial := trial[addr := -trial[addr] - 1];
      work' := work + [addr];
    }

    /** Traces from every slot with a positive external count. */
    method Mark(ghost ext: multiset<int>)
      requires Exact(ext)
      requires |trial| == |rc| && forall a :: 0 < a < |rc| ==> trial[a] == ext[a]
      modifies `trial
      ensures |trial| == |rc|
      ensures forall a :: Reachable(Graph(), ext, a) <==> Marked(trial, a)
    {
      hide Marking, Reachable, InDegree, Edge, WellFormed, Balanced, Held, Consistent, Unmarked;
      Sizes(heap, rc, free);
      ghost var g := Graph();
      NoDangling(heap, rc, ext);
      MarkingStart(heap, rc, ext, trial);
      var work: seq<int> := [];
      for addr := 1 to |rc|
        invariant |trial| == |rc| && Marking(g, rc, ext, trial, work, {})
        invariant forall a :: 0 < a < addr && ext[a] > 0 ==> Marked(trial, a)
      {
        ghost var t, w := trial, work;
        MarkingRoot(heap, rc, ext, trial, work, addr);
        if rc[addr] > 0 && trial[addr] > 0 {
          work := Push(addr, work);
          MarkingPush(g, rc, ext, t, w, {}, trial, work, addr);
        }
      }
      while |work| > 0
        invariant |trial| == |rc| && Marking(g, rc, ext, trial, work, {})
        invariant forall a :: 0 < a < |rc| && ext[a] > 0 ==> Marked(trial, a)
        decreases Unmarked(trial), |work|
      {
        MarkingPop(g, rc, ext, trial, work);
        var addr := work[|work| - 1];
        work := work[..|work| - 1];
        ghost var t0, w0 := trial, work;
        var refs := Out(heap[addr]);
        for k := 0 to |refs|
          invariant |trial| == |rc| && Marking(g, rc, ext, trial, work, {addr})
          invariant forall a :: Marked(t0, a) ==> Marked(trial, a)
          invariant forall j :: 0 <= j < k && refs[j] != 0 ==> Marked(trial, refs[j])
          invariant (trial == t0 && work == w0) || Unmarked(trial) < Unmarked(t0)
        {
          ghost var t, w := trial, work;
          ChildReachable(heap, rc, ext, addr, refs[k]);
          work := Push(refs[k], work);
          MarkingPush(g, rc, ext, t, w, {addr}, trial, work, refs[k]);
        }
        MarkingClose(heap, rc, ext, trial, work, addr);
      }
      NoOtherRoots(g, rc, ext);
      MarkingDone(g, rc, ext, trial);
    }

    /** Frees every unmarked slot, taking its references away from the survivors. */
    method Sweep(ghost ext: multiset<int>)
      requires Exact(ext) && |trial| == |rc|
      requires forall a :: Reachable(Graph(), ext, a) <==> Marked(trial, a)
      modifies `heap, `rc, `free
      ensures Exact(ext) && |heap| == old(|heap|)
      ensures forall a :: 0 < a < |rc| && rc[a] > 0 <==> Reachable(old(Graph()), ext, a)
      ensures forall a :: 0 < a < |rc| && rc[a] > 0 ==> heap[a] == old(heap[a]) && old(rc[a]) > 0
      ensures rc[0] == old(rc[0]) && InDegree(Graph(), 0) <= InDegree(old(Graph()), 0)
    {
      hide Sweeping, Rooted, Paid, Reachable, InDegree, WellFormed, Balanced, Held;
      Sizes(heap, rc, free);
      ghost var h0, rc0 := heap, rc;
      RootedByReach(heap, rc, ext, trial);
      SweepStart(heap, rc, free, ext, trial);
      for addr := 1 to |heap|
        invariant |heap| == |rc| == |h0| == |rc0|
        invariant Sweeping(h0, rc0, ext, trial, addr, heap, rc, free)
      {
        if rc[addr] <= 0 || trial[addr] < 0 {
          SweepSkip(h0, rc0, ext, trial, addr, heap, rc, free);
          continue;
        }
        var v := heap[addr];
        var refs := Out(v);
        ghost var before, values, slots := rc, heap, free;
        PaidNothing(rc, trial, refs);
        for k := 0 to |refs|
          invariant heap == values && free == slots
          invariant |rc| == |before| && Paid(before, trial, multiset(refs[..k]), rc)
        {
          var child := refs[k];
          if Marked(trial, child) {
            DeadHoldsLess(h0, rc0, ext, trial, addr, heap, before, free, child);
          }
          PayRef(before, trial, refs, k, rc);
          if child > 0 && child < |rc| && rc[child] > 0 && trial[child] < 0 {
            rc := rc[child := rc[child] - 1];
          }
        }
        assert refs[..|refs|] == refs;
        SweepStep(h0, rc0, ext, trial, addr, heap, before, free, rc);
        rc := rc[addr := 0];
        Reclaim(addr, v);
      }
      SweepDone(h0, rc0, ext, trial, heap, rc, free);
    }

    /** One collection: the allocated slots afterwards are exactly the reachable ones. */
    method Gc(ghost ext: multiset<int>)
      requires Exact(ext)
      modifies `heap, `rc, `free, `trial, `target
      ensures Exact(ext) && |heap| == old(|heap|)
      ensures forall a :: 0 < a < |rc| && rc[a] > 0 <==> Reachable(old(Graph()), ext, a)
      ensures forall a :: 0 < a < |rc| && rc[a] > 0 ==> heap[a] == old(heap[a]) && old(rc[a]) > 0
      ensures rc[0] == old(rc[0]) && InDegree(Graph(), 0) <= InDegree(old(Graph()), 0)
      ensures target >= |heap| - |free|
      ensures target >= |heap| - |free| + 64 || (limit > 0 && target == Max(limit, |heap| - |free|))
      ensures limit <= 0 ==> target >= 2 * (|heap| - |free|) - base
    {
      hide Reachable, InDegree, FreeExact, Held, Consistent, Owing;
      NoDangling(heap, rc, ext);
      TrialIsExternal(heap, rc, ext);
      var ok := Scan();
      assert ok;
      Mark(ext);
      Sweep(ext);
      Pace();
    }

    /** The next collection is due after 64 more allocations or as many as the heap has grown by, whichever is more, but
        no later than at the limit. */
    method Pace()
      modifies `target
      ensures target >= |heap| - |free|
      ensures limit > 0 ==> target <= Max(limit, |heap| - |free|)
      ensures target >= |heap| - |free| + 64 || (limit > 0 && target == Max(limit, |heap| - |free|))
      ensures limit <= 0 ==> target >= 2 * (|heap| - |free|) - base
    {
      var live := |heap| - |free|;
      target := live + Max(live - base, HEAP_RUNWAY);
      if limit > 0 {
        target := Min(target, limit);
      }
      target := Max(target, live);
    }

    /** Takes the most recently freed slot, if there is one. */
    method Reuse(val: Value, ghost ext: multiset<int>) returns (addr: Option<int>)
      requires Exact(ext) && Backed(Graph(), rc, ext, val)
      modifies `heap, `rc, `free
      ensures addr.None? <==> old(free) == []
      ensures addr.None? ==> unchanged(this)
      ensures addr.Some? ==>
                var a := addr.value;
                && 0 < a < |rc| == old(|rc|) && old(rc)[a] == 0 && rc == old(rc)[a := 1] && heap == old(heap)[a := val]
                && Exact(ext - multiset(Out(val)) + multiset{a})
    {
      hide InDegree, FreeExact, Held, Owing, Backed;
      if |free| == 0 {
        return None;
      }
      FreePop(heap, rc, free, val);
      var a := free[|free| - 1];
      StoreFresh(heap, rc, ext, val, a);
      free := free[..|free| - 1];
      heap := heap[a := val];
      rc := rc[a := 1];
      addr := Some(a);
    }

    /** Allocates a slot for val. None is the panic of an exhausted heap. */
    method Alloc(val: Value, ghost ext: multiset<int>) returns (addr: Option<int>)
      requires Exact(ext) && Backed(Graph(), rc, ext, val)
      modifies `heap, `rc, `free, `trial, `capacity, `target
      ensures Exact(if addr.None? then ext else ext - multiset(Out(val)) + multiset{addr.value})
      ensures Allocates(old(heap), old(rc), limit, ext, val, heap, rc, addr)
      ensures old(target) > 0 && old(|heap| - |free|) >= old(target) ==>
                forall a :: 0 < a < |rc| && rc[a] > 0 && addr != Some(a) ==> Reachable(old(Graph()), ext, a)
    {
      hide Reachable, InDegree, Held, Balanced, WellFormed, Backed, Preserves, Allocates;
      Sizes(heap, rc, free);
      PreservesSelf(heap, rc, ext);
      var collected := target > 0 && |heap| - |free| >= target;
      if collected {
        GcKeeping(val, ext);
      }
      NothingFree(heap, rc, free);
      ghost var h1, rc1 := heap, rc;
      addr := Reuse(val, ext);
      if addr.None? {
        var full := |heap| == capacity;
        var limited := limit > 0 && |heap| >= limit;
        if !collected && (full || limited) {
          GcKeeping(val, ext);
          NothingFree(heap, rc, free);
          h1, rc1 := heap, rc;
          addr := Reuse(val, ext);
        }
        if addr.None? {
          if limited {
            AllocatesNothing(old(heap), old(rc), limit, ext, val, heap, rc);
            return;
          }
          addr := Append(val, ext);
          AllocatesAppended(old(heap), old(rc), limit, ext, val, h1, rc1);
          return;
        }
      }
      AllocatesReused(old(heap), old(rc), limit, ext, val, h1, rc1, addr.value);
    }

    /** A collection while val is still being built: what backs its references survives. */
    method GcKeeping(val: Value, ghost ext: multiset<int>)
      requires Exact(ext) && Backed(Graph(), rc, ext, val)
      modifies `heap, `rc, `free, `trial, `target
      ensures Exact(ext) && Backed(Graph(), rc, ext, val)
      ensures |heap| == |rc| == old(|heap|) == old(|rc|)
      ensures Preserves(old(heap), old(rc), ext, heap, rc)
      ensures forall a :: 0 < a < |rc| && rc[a] > 0 ==> Reachable(old(Graph()), ext, a)
    {
      hide Reachable, InDegree, Held, Balanced, WellFormed, Backed, Preserves;
      Sizes(heap, rc, free);
      Gc(ext);
      Sizes(heap, rc, free);
      PreservesCollection(old(heap), old(rc), ext, heap, rc);
      StillBacked(old(Graph()), old(rc), Graph(), rc, ext, val);
    }

    /** Extends the heap by a slot, doubling its backing storage when it is full. */
    method Append(val: Value, ghost ext: multiset<int>) returns (addr: Option<int>)
      requires Exact(ext) && Backed(Graph(), rc, ext, val)
      modifies `heap, `rc, `capacity
      ensures addr == Some(old(|heap|))
      ensures heap == old(heap) + [val] && rc == old(rc) + [1]
      ensures Exact(ext - multiset(Out(val)) + multiset{old(|heap|)})
    {
      hide Reachable, InDegree, Held, Balanced, WellFormed, Backed;
      Sizes(heap, rc, free);
      if |heap| == capacity {
        var c := 2 * capacity;
        if c == 0 {
          c := 1;
        }
        capacity := c;
      }
      GrowOne(heap, rc, ext, val);
      StoreFresh(heap + [Nil], rc + [0], ext, val, |heap|);
      FreeGrow(heap, rc, free, val);
      assert (heap + [Nil])[|heap| := val] == heap + [val];
      assert (rc + [0])[|heap| := 1] == rc + [1];
      heap := heap + [val];
      rc := rc + [1];
      addr := Some(|heap| - 1);
    }

    /** The live part of the machine: fp frames and sp stack slots; a frame owns its function only when
        the function is not null. */
    ghost predicate Running()
      reads this
    {
      && 0 <= sp <= |stack|
      && 1 <= fp <= |frames|
      && (forall k :: 0 <= k < fp && frames[k].release ==> frames[k].ref != 0)
    }

    /** The references the machine itself owns. */
    ghost function Owned(): multiset<int>
      requires Running()
      reads this
    {
      CallRefs(frames[..fp]) + StackRefs(stack[..sp])
    }

    /** The table of the function frame k runs, empty when it has none. */
    ghost function Table(k: int): seq<Handler>
      requires 0 <= k < |frames|
      reads `frames, `handlers
    {
      if 0 <= frames[k].addr < |handlers| then handlers[frames[k].addr] else []
    }

    /** The ip that decides coverage in frame k: the throwing site on top, the call site below. */
    ghost function SiteOf(k: int): int
      requires 0 <= k < |frames|
      reads `frames, `fp
    {
      if k + 1 == fp then frames[k].ip else frames[k].ip - 1
    }

    /** A release guarded by whether there is anything to release. */
    method ReleaseIf(held: bool, addr: int, ghost ext: multiset<int>)
      requires Exact(ext) && (held ==> addr != 0 && ext[addr] > 0)
      modifies `heap, `rc, `free, `work
      ensures Exact(ext - Only(held, addr))
      ensures |rc| == |heap| == old(|heap|) && work == old(work)
      ensures Preserves(old(heap), old(rc), ext - Only(held, addr), heap, rc)
    {
      hide Preserves, WellFormed, Balanced, InDegree, Held;
      Sizes(heap, rc, free);
      if held {
        Release(addr, ext);
      } else {
        assert ext - Only(held, addr) == ext;
        PreservesSelf(heap, rc, ext);
      }
    }

    method ReleaseBox(v: Boxed, ghost ext: multiset<int>)
      requires Exact(ext) && BoxRefs(v) <= ext
      modifies `heap, `rc, `free, `work
      ensures Exact(ext - BoxRefs(v))
      ensures |rc| == |heap| == old(|heap|) && work == old(work)
      ensures Preserves(old(heap), old(rc), ext - BoxRefs(v), heap, rc)
    {
      hide Preserves, WellFormed, Balanced, InDegree, Held;
      assert v.Ref? && v.addr != 0 ==> v.addr in BoxRefs(v);
      ReleaseIf(v.Ref? && v.addr != 0, if v.Ref? then v.addr else 0, ext);
    }

    /** No frame has a range over its active instruction. */
    ghost predicate Uncaught()
      requires Running()
      reads this
    {
      forall k :: 0 <= k < fp ==> Uncovered(Table(k), SiteOf(k))
    }

    /** The innermost frame with a range over its active instruction, and the first such range. */
    method FindHandler() returns (found: Option<(int, Handler)>)
      requires Running()
      ensures found.Some? ==>
                var at := found.value.0;
                && 1 <= at <= fp
                && FirstCovering(Table(at - 1), SiteOf(at - 1), found.value.1)
                && forall k :: at <= k < fp ==> Uncovered(Table(k), SiteOf(k))
      ensures found.None? <==> Uncaught()
    {
      var at := fp;
      while at >= 1
        invariant 0 <= at <= fp
        invariant forall k :: at <= k < fp ==> Uncovered(Table(k), SiteOf(k))
      {
        var f := frames[at - 1];
        var ip := f.ip;
        if at != fp {
          ip := ip - 1;
        }
        if 0 <= f.addr < |handlers| {
          var table := handlers[f.addr];
          for j := 0 to |table|
            invariant forall k :: 0 <= k < j ==> !Covers(table[k], ip)
          {
            if Covers(table[j], ip) {
              return Some((at, table[j]));
            }
          }
        }
        at := at - 1;
      }
      found := None;
    }

    /** Releases what an unwound frame owns. */
    method Discard(k: int, ghost ext: multiset<int>)
      requires Exact(ext) && 0 <= k < |frames| && FrameRefs(frames[k]) <= ext
      requires frames[k].release ==> frames[k].ref != 0
      modifies `heap, `rc, `free, `work, `frames
      ensures frames == old(frames)[k := old(frames)[k].(coro := 0)]
      ensures Exact(ext - FrameRefs(old(frames)[k]))
      ensures |rc| == |heap| == old(|heap|) && work == old(work)
      ensures Preserves(old(heap), old(rc), ext - FrameRefs(old(frames)[k]), heap, rc)
    {
      hide Preserves, WellFormed, Balanced, InDegree, Held, FrameRefs, Only;
      Sizes(heap, rc, free);
      var f := frames[k];
      ghost var mid := ext - Only(f.release, f.ref);
      ghost var done := mid - Only(f.coro != 0, f.coro);
      FrameOwes(f, ext);
      ReleaseIf(f.release, f.ref, ext);
      ghost var h1, rc1 := heap, rc;
      ReleaseIf(f.coro != 0, f.coro, mid);
      PreservesTrans(old(heap), old(rc), h1, rc1, heap, rc, done, mid);
      frames := frames[k := f.(coro := 0)];
    }

    /** Discards the frames above `at`. */
    method PopFrames(at: int, ghost keep: multiset<int>, ghost final: multiset<int>)
      requires Running() && 1 <= at <= fp
      requires Exact(CallRefs(frames[..fp]) + keep) && final <= CallRefs(frames[..at]) + keep
      modifies `heap, `rc, `free, `work, `frames, `fp
      ensures fp == at && |frames| == old(|frames|) && frames[..at] == old(frames)[..at]
      ensures Exact(CallRefs(frames[..at]) + keep)
      ensures |rc| == |heap| == old(|heap|) == old(|rc|) && work == old(work)
      ensures Preserves(old(heap), old(rc), final, heap, rc)
    {
      hide Preserves, WellFormed, Balanced, InDegree, Held, FrameRefs, CallRefs;
      Sizes(heap, rc, free);
      ghost var fs := frames;
      CallFewer(fs, at, fp);
      PreservesSelf(heap, rc, CallRefs(fs[..fp]) + keep);
      PreservesFewer(heap, rc, final, CallRefs(fs[..fp]) + keep, heap, rc);
      while fp > at
        invariant at <= fp <= |frames| == |fs| && frames[..fp] == fs[..fp]
        invariant Exact(CallRefs(fs[..fp]) + keep)
        invariant |rc| == |heap| == old(|heap|) && work == old(work)
        invariant Preserves(old(heap), old(rc), final, heap, rc)
      {
        ghost var h1, rc1 := heap, rc;
        DropFrame(fs, at, fp, keep);
        assert frames[fp - 1] == fs[fp - 1];
        Discard(fp - 1, CallRefs(fs[..fp]) + keep);
        fp := fp - 1;
        PreservesThen(old(heap), old(rc), h1, rc1, heap, rc, final, CallRefs(fs[..fp]) + keep);
      }
    }

    /** Releases the stack slots at or above `floor`, topmost first. */
    method PopSlots(floor: int, ghost keep: multiset<int>, ghost final: multiset<int>)
      requires 0 <= floor <= sp <= |stack|
      requires Exact(StackRefs(stack[..sp]) + keep) && final <= StackRefs(stack[..floor]) + keep
      modifies `heap, `rc, `free, `work
      ensures Exact(StackRefs(stack[..floor]) + keep)
      ensures |rc| == |heap| == old(|heap|) == old(|rc|) && work == old(work)
      ensures Preserves(old(heap), old(rc), final, heap, rc)
    {
      hide Preserves, WellFormed, Balanced, InDegree, Held, BoxRefs, StackRefs;
      Sizes(heap, rc, free);
      StackFewer(stack, floor, sp);
      PreservesSelf(heap, rc, StackRefs(stack[..sp]) + keep);
      PreservesFewer(heap, rc, final, StackRefs(stack[..sp]) + keep, heap, rc);
      var s := sp - 1;
      while s >= floor
        invariant floor - 1 <= s < sp
        invariant Exact(StackRefs(stack[..s + 1]) + keep)
        invariant |rc| == |heap| == old(|heap|) && work == old(work)
        invariant Preserves(old(heap), old(rc), final, heap, rc)
      {
        ghost var h1, rc1 := heap, rc;
        DropSlot(stack, floor, s + 1, keep);
        ReleaseBox(stack[s], StackRefs(stack[..s + 1]) + keep);
        s := s - 1;
        PreservesThen(old(heap), old(rc), h1, rc1, heap, rc, final, StackRefs(stack[..s + 1]) + keep);
      }
    }

    /** Unwinds to frame `at` and hands exc to its handler: drops exactly the frames above and the stack
        slots at or above the handler's depth. `other` is every reference the machine does not own. */
    method Land(at: int, h: Handler, exc: Boxed, ghost other: multiset<int>)
      requires Running() && 1 <= at <= fp
      requires 0 <= frames[at - 1].bp + h.depth <= sp && frames[at - 1].bp + h.depth < |stack|
      requires Exact(Owned() + (BoxRefs(exc) + other))
      modifies `heap, `rc, `free, `work, `stack, `sp, `frames, `fp
      ensures Running() && fp == at && |frames| == old(|frames|)
      ensures frames[..at] == old(frames)[..at][at - 1 := old(frames)[at - 1].(ip := h.catch)]
      ensures sp == old(frames)[at - 1].bp + h.depth + 1 && stack == old(stack)[sp - 1 := exc]
      ensures Exact(Owned() + other)
      ensures |rc| == |heap| == old(|heap|) == old(|rc|) && work == old(work)
      ensures Preserves(old(heap), old(rc), Owned() + other, heap, rc)
    {
      hide Preserves, WellFormed, Balanced, InDegree, Held, FrameRefs, CallRefs, StackRefs, BoxRefs;
      Sizes(heap, rc, free);
      ghost var hand := BoxRefs(exc) + other;
      ghost var calls := CallRefs(frames[..at]);
      ghost var final := StackRefs(stack[..frames[at - 1].bp + h.depth]) + (calls + hand);
      StackFewer(stack, frames[at - 1].bp + h.depth, sp);
      assert Owned() + hand == CallRefs(frames[..fp]) + (StackRefs(stack[..sp]) + hand);
      PopFrames(at, StackRefs(stack[..sp]) + hand, final);
      ghost var h1, rc1 := heap, rc;
      var f := frames[at - 1];
      assert f == old(frames)[..at][at - 1];
      var floor := f.bp + h.depth;
      assert calls + (StackRefs(stack[..sp]) + hand) == StackRefs(stack[..sp]) + (calls + hand);
      PopSlots(floor, calls + hand, final);
      PreservesThen(old(heap), old(rc), h1, rc1, heap, rc, final, final);
      LandDone(frames, stack, at, floor, exc, h.catch, other);
      stack := stack[floor := exc];
      sp := floor + 1;
      frames := frames[at - 1 := f.(ip := h.catch)];
    }

    /** The handler a throw reaches: the first entry over the active instruction, in the innermost frame with one. */
    ghost predicate Reaches(at: int, h: Handler)
      requires Running()
      reads this
    {
      1 <= at <= fp && FirstCovering(Table(at - 1), SiteOf(at - 1), h) && forall k ::
          at <= k < fp ==> Uncovered(Table(k), SiteOf(k))
    }

    /** Takes the value on top of the stack, with its reference, in hand. */
    method Take(ghost other: multiset<int>) returns (exc: Boxed)
      requires Running() && sp > 0 && Exact(Owned() + other)
      modifies `sp
      ensures Running() && sp == old(sp) - 1 && exc == stack[sp] && Exact(Owned() + (BoxRefs(exc) + other))
      ensures forall at, h :: Reaches(at, h) ==> old(Reaches(at, h))
      ensures Uncaught() <==> old(Uncaught())
    {
      hide WellFormed, Balanced, InDegree, Held, FrameRefs, CallRefs, StackRefs, BoxRefs, Covers, Uncovered,
           FirstCovering;
      StackPrefix(stack, sp - 1);
      sp := sp - 1;
      exc := stack[sp];
      assert Owned() + (BoxRefs(exc) + other) == old(Owned()) + other;
      assert forall k :: 0 <= k < fp ==> Table(k) == old(Table(k)) && SiteOf(k) == old(SiteOf(k));
    }

    /** Throws the value on top of the stack. None is an empty stack; false is an exception no handler covers,
        which stays in hand with its one reference. */
    method Throw(ghost other: multiset<int>) returns (landed: Option<bool>, exc: Boxed)
      requires Running() && Exact(Owned() + other)
      requires forall at, h :: Reaches(at, h) && sp > 0 ==> 0 <= frames[at - 1].bp + h.depth < sp
      modifies `heap, `rc, `free, `work, `stack, `sp, `frames, `fp
      ensures landed.None? <==> old(sp) == 0
      ensures landed.None? ==> unchanged(this)
      ensures landed == Some(false) <==> old(sp) > 0 && old(Uncaught())
      ensures landed == Some(false) ==>
                && unchanged(`heap, `rc, `free, `work, `stack, `frames, `fp)
                && Running() && sp == old(sp) - 1 && exc == old(stack)[sp] && Exact(Owned() + (BoxRefs(exc) + other))
      ensures landed == Some(true) ==>
                && Running() && Exact(Owned() + other) && exc == old(stack[sp - 1])
                && |rc| == |heap| == old(|heap|) && work == old(work)
                && Preserves(old(heap), old(rc), Owned() + other, heap, rc)
      ensures landed == Some(true) ==> |frames| == old(|frames|) && |stack| == old(|stack|) && exists at, h ::
                && old(Reaches(at, h)) && fp == at
                && frames[..at] == old(frames)[..at][at - 1 := old(frames)[at - 1].(ip := h.catch)]
                && 1 <= sp == old(frames)[at - 1].bp + h.depth + 1 <= |stack| && stack == old(stack)[sp - 1 := exc]
    {
      hide Preserves, WellFormed, Balanced, InDegree, Held, FrameRefs, CallRefs, StackRefs, BoxRefs, Owned, Uncaught;
      exc := Scalar(0);
      if sp == 0 {
        return None, exc;
      }
      exc := Take(other);
      var found := FindHandler();
      if found.None? {
        return Some(false), exc;
      }
      var at, h := found.value.0, found.value.1;
      assert Reaches(at, h);
      Land(at, h, exc, other);
      landed := Some(true);
    }

    /** Rebuilds the counts from the constants and the references the slots hold. */
    method Recount(constants: seq<Boxed>)
      requires 0 < |heap| == |rc|
      modifies `rc
      ensures |rc| == |heap|
      ensures forall a :: 0 <= a < |rc| ==>
                rc[a] == (if a == 0 then 1 else 0) + Addrs(constants)[a] + InDegree(Every(heap), a)
    {
      hide Counted, InDegree, Addrs;
      var n := |rc|;
      rc := seq(n, i => if i == 0 then 1 else 0);
      ghost var g := Every(heap);
      CountedNothing(rc);
      assert constants[..0] == [];
      for k := 0 to |constants|
        invariant |rc| == n && Counted(rc, Addrs(constants[..k]), [], multiset{})
      {
        CountConstant(rc, constants, k);
        if constants[k].Ref? {
          var addr := constants[k].addr;
          if addr >= 0 && addr < n {
            rc := rc[addr := rc[addr] + 1];
          }
        }
      }
      assert constants[..|constants|] == constants;
      ghost var consts := Addrs(constants);
      CountNull(rc, consts, heap);
      for addr := 1 to n
        invariant |rc| == n && Counted(rc, consts, g[..addr], multiset{})
      {
        var refs := Out(heap[addr]);
        assert refs[..0] == [] && multiset(refs[..0]) == multiset{};
        for k := 0 to |refs|
          invariant |rc| == n && Counted(rc, consts, g[..addr], multiset(refs[..k]))
        {
          CountRef(rc, consts, g[..addr], refs, k);
          var child := refs[k];
          if child >= 0 && child < n {
            rc := rc[child := rc[child] + 1];
          }
        }
        assert refs[..|refs|] == refs && g[addr] == refs;
        CountSlot(rc, consts, g, addr);
      }
      assert g[..n] == g;
      CountedIs(rc, consts, g);
    }
  }

  /** Frame k runs codes[k] and stands at sites[k]: the top one at the instruction that throws, every other behind the
      call it waits for. */
  ghost predicate Stands(m: Interpreter, codes: seq<seq<Bytecode.Byte>>, sites: seq<int>)
    requires m.Running()
    reads m
  {
    && |codes| == |sites| == m.fp && m.frames[m.fp - 1].ip == sites[m.fp - 1]
    && forall k :: 0 <= k < m.fp - 1 ==>
         0 <= sites[k] < |codes[k]| && codes[k][sites[k]] == 9
         && m.frames[k].ip == sites[k] + Bytecode.Width(codes[k], sites[k])
  }

  /** A throw reaches the innermost frame whose table protects the instruction the frame stands at, a waiting one's call
      included, and there the entry that one body's machine goes by; and it is uncaught exactly when none does. */
  lemma ThrowReaches(m: Interpreter, codes: seq<seq<Bytecode.Byte>>, sites: seq<int>)
    requires m.Running() && Stands(m, codes, sites)
    ensures forall at, h :: m.Reaches(at, h) <==>
              1 <= at <= m.fp && Bytecode.HandlerFor(m.Table(at - 1), sites[at - 1]) == Bytecode.Some(h)
              && forall k :: at <= k < m.fp ==> Bytecode.HandlerFor(m.Table(k), sites[k]).None?
    ensures m.Uncaught() <==> forall k :: 0 <= k < m.fp ==> Bytecode.HandlerFor(m.Table(k), sites[k]).None?
  {
    hide FirstCovering, Uncovered, Bytecode.HandlerFor;
    forall k | 0 <= k < m.fp
      ensures m.SiteOf(k) == sites[k]
      ensures Uncovered(m.Table(k), sites[k]) <==> Bytecode.HandlerFor(m.Table(k), sites[k]).None?
      ensures forall h :: FirstCovering(m.Table(k), sites[k], h) <==>
                Bytecode.HandlerFor(m.Table(k), sites[k]) == Bytecode.Some(h)
    {
      InCharge(m.Table(k), sites[k]);
      NotBoth(m.Table(k), sites[k]);
    }
  }

  lemma NotBoth(table: seq<Handler>, ip: int)
    ensures Uncovered(table, ip) ==> forall h :: !FirstCovering(table, ip, h)
    ensures forall h :: FirstCovering(table, ip, h) ==> !Uncovered(table, ip)
  {
  }
}
