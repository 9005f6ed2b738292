/** Copying typed arrays that may share storage, so that the copies share it the same way. */
module Aliases {

  /** A heap value: a non-array, an array over the addresses [start, start + len), or an array over the copied
      store from offset on. Addresses count elements. */
  datatype Value = Other(id: int) | Window(start: int, len: nat) | Copy(offset: int, len: nat)

  datatype Alias = Alias(addr: int, start: int, end: int)

  predicate Meets(a: Alias, start: int, end: int) {
    a.start < end && start < a.end
  }

  predicate Overlap(a: Alias, b: Alias) {
    Meets(a, b.start, b.end)
  }

  predicate IsAlias(v: Value) {
    v.Window? && v.len > 0
  }

  function AliasOf(addr: int, v: Value): Alias
    requires v.Window?
  {
    Alias(addr, v.start, v.start + v.len)
  }

  ghost predicate HasCell(a: Alias, x: int) {
    a.start <= x < a.end
  }

  /** Arrays overlap exactly when they share a cell. */
  lemma OverlapIff(a: Alias, b: Alias)
    requires a.start < a.end && b.start < b.end
    ensures Overlap(a, b) <==> exists x :: HasCell(a, x) && HasCell(b, x)
  {
    if Overlap(a, b) {
      assert HasCell(a, Max(a.start, b.start));
    }
  }

  /** The non-empty arrays among the first n heap values, in address order. */
  ghost predicate Listed(heap: seq<Value>, n: int, aliases: seq<Alias>) {
    && (forall i :: 0 <= i < |aliases| ==> IsListed(heap, n, aliases[i]))
    && (forall i, j :: 0 <= i < j < |aliases| ==> aliases[i].addr < aliases[j].addr)
    && (forall addr :: 0 <= addr < |heap| && addr < n && IsAlias(heap[addr]) ==> AliasOf(addr, heap[addr]) in aliases)
  }

  ghost predicate IsListed(heap: seq<Value>, n: int, a: Alias) {
    0 <= a.addr < |heap| && a.addr < n && IsAlias(heap[a.addr]) && a == AliasOf(a.addr, heap[a.addr])
  }

  /** A chain of aliases, each overlapping the next, the first overlapping the target. */
  ghost predicate Chain(aliases: seq<Alias>, target: Alias, c: seq<Alias>) {
    && |c| > 0 && Overlap(c[0], target) && (forall i :: 0 <= i < |c| ==> c[i] in aliases)
    && forall i :: 0 < i < |c| ==> Overlap(c[i], c[i - 1])
  }

  /** a is in the target's connected component. */
  ghost predicate Connected(aliases: seq<Alias>, target: Alias, a: Alias) {
    exists c :: Chain(aliases, target, c) && c[|c| - 1] == a
  }

  lemma ConnectFirst(aliases: seq<Alias>, target: Alias, a: Alias)
    requires a in aliases && Overlap(a, target)
    ensures Connected(aliases, target, a)
  {
    assert Chain(aliases, target, [a]);
  }

  lemma ConnectNext(aliases: seq<Alias>, target: Alias, a: Alias, b: Alias)
    requires Connected(aliases, target, a) && b in aliases && Overlap(b, a)
    ensures Connected(aliases, target, b)
  {
    var c :| Chain(aliases, target, c) && c[|c| - 1] == a;
    var longer := c + [b];
    assert Chain(aliases, target, longer) && longer[|longer| - 1] == b;
  }

  /** Address x belongs to the target or to an alias connected to it. */
  ghost predicate Held(aliases: seq<Alias>, target: Alias, x: int) {
    target.start <= x < target.end || exists a :: a in aliases && a.start <= x < a.end && Connected(aliases, target, a)
  }

  /** The window is the target and storage connected to it, without holes. */
  ghost predicate Solid(aliases: seq<Alias>, target: Alias, start: int, end: int) {
    start <= target.start && target.end <= end && forall x :: start <= x < end ==> Held(aliases, target, x)
  }

  /** Every alias the window meets lies in it. */
  ghost predicate Closed(aliases: seq<Alias>, n: int, start: int, end: int) {
    forall i :: 0 <= i < |aliases| && i < n && Meets(aliases[i], start, end) ==>
        start <= aliases[i].start && aliases[i].end <= end
  }

  function Min(a: int, b: int): int { if a < b then a else b }
  function Max(a: int, b: int): int { if a < b then b else a }

  /** An alias that meets a solid window is connected, and stretching the window over it keeps it solid. */
  lemma Stretch(aliases: seq<Alias>, target: Alias, start: int, end: int, a: Alias)
    requires Solid(aliases, target, start, end) && a in aliases && Meets(a, start, end) && a.start < a.end
    requires target.start < target.end
    ensures Connected(aliases, target, a)
    ensures Solid(aliases, target, Min(start, a.start), Max(end, a.end))
  {
    hide Connected;
    var x := Max(start, a.start);
    assert start <= x < end && a.start <= x < a.end;
    assert Held(aliases, target, x);
    if target.start <= x < target.end {
      ConnectFirst(aliases, target, a);
    } else {
      var b :| b in aliases && b.start <= x < b.end && Connected(aliases, target, b);
      ConnectNext(aliases, target, b, a);
    }
    forall y | Min(start, a.start) <= y < Max(end, a.end)
      ensures Held(aliases, target, y)
    {
      assert start <= y < end || a.start <= y < a.end;
    }
  }

  /** How many aliases stick out of the window. */
  ghost function Outside(aliases: seq<Alias>, start: int, end: int): nat {
    if aliases == [] then 0
    else Outside(aliases[1..], start, end) + (if start <= aliases[0].start && aliases[0].end <= end then 0 else 1)
  }

  lemma {:induction false} OutsideShrinks(aliases: seq<Alias>, s: int, e: int, s': int, e': int)
    requires s' <= s && e <= e'
    ensures Outside(aliases, s', e') <= Outside(aliases, s, e)
    ensures (exists a :: a in aliases && !(s <= a.start && a.end <= e) && s' <= a.start && a.end <= e') ==>
              Outside(aliases, s', e') < Outside(aliases, s, e)
  {
    if aliases != [] {
      OutsideShrinks(aliases[1..], s, e, s', e');
      if a :| a in aliases && !(s <= a.start && a.end <= e) && s' <= a.start && a.end <= e' {
        assert a == aliases[0] || a in aliases[1..];
      }
    }
  }

  method List(heap: array<Value>) returns (aliases: seq<Alias>)
    ensures Listed(heap[..], heap.Length, aliases)
  {
    aliases := [];
    for addr := 0 to heap.Length
      invariant Listed(heap[..], addr, aliases)
    {
      ghost var before := aliases;
      if heap[addr].Window? && heap[addr].len > 0 {
        aliases := aliases + [AliasOf(addr, heap[addr])];
        assert forall a :: a in before ==> a in aliases;
      }
      ListedNext(heap[..], addr, before, aliases);
    }
  }

  lemma ListedNext(heap: seq<Value>, n: int, before: seq<Alias>, after: seq<Alias>)
    requires Listed(heap, n, before) && 0 <= n < |heap|
    requires after == if IsAlias(heap[n]) then before + [AliasOf(n, heap[n])] else before
    ensures Listed(heap, n + 1, after)
  {
    forall addr | 0 <= addr < |heap| && addr < n + 1 && IsAlias(heap[addr])
      ensures AliasOf(addr, heap[addr]) in after
    {
      if addr == n {
        assert after[|before|] == AliasOf(n, heap[n]);
      } else {
        assert AliasOf(addr, heap[addr]) in before;
      }
    }
    forall i | 0 <= i < |after|
      ensures IsListed(heap, n + 1, after[i])
    {
      if i < |before| { assert IsListed(heap, n, before[i]); }
    }
    forall i, j | 0 <= i < j < |after|
      ensures after[i].addr < after[j].addr
    {
      assert IsListed(heap, n, before[i]);
    }
  }

  ghost predicate Proper(aliases: seq<Alias>) {
    forall a :: a in aliases ==> a.start < a.end
  }

  /** Grows the window until no alias sticks out of it. */
  method Grow(aliases: seq<Alias>, target: Alias) returns (start: int, end: int)
    requires Proper(aliases) && target.start < target.end
    ensures Solid(aliases, target, start, end) && Closed(aliases, |aliases|, start, end)
  {
    hide Solid, Outside, Held;
    start, end := target.start, target.end;
    TargetSolid(aliases, target);
    while true
      invariant Solid(aliases, target, start, end) && start < end
      decreases Outside(aliases, start, end)
    {
      var previousStart, previousEnd := start, end;
      for i := 0 to |aliases|
        invariant Solid(aliases, target, start, end) && start <= previousStart < previousEnd <= end
        invariant start == previousStart && end == previousEnd ==> Closed(aliases, i, start, end)
        invariant (start == previousStart && end == previousEnd)
                  || (exists a :: a in aliases && Swallowed(a, previousStart, previousEnd, start, end))
      {
        var alias := aliases[i];
        if alias.start >= end || start >= alias.end {
          continue;
        }
        Stretch(aliases, target, start, end, alias);
        assert alias in aliases;
        start, end := Min(start, alias.start), Max(end, alias.end);
        assert start <= alias.start && alias.end <= end;
      }
      if start == previousStart && end == previousEnd {
        break;
      }
      ghost var a :| a in aliases && Swallowed(a, previousStart, previousEnd, start, end);
      OutsideShrinks(aliases, previousStart, previousEnd, start, end);
    }
  }

  /** a stuck out of the old window and lies in the new one. */
  ghost predicate Swallowed(a: Alias, s: int, e: int, s': int, e': int) {
    !(s <= a.start && a.end <= e) && s' <= a.start && a.end <= e'
  }

  lemma TargetSolid(aliases: seq<Alias>, target: Alias)
    ensures Solid(aliases, target, target.start, target.end)
  {
  }

  /** The window a closed, solid growth ends in is exactly the target's connected component. */
  lemma {:induction false} ComponentIs(aliases: seq<Alias>, target: Alias, start: int, end: int, a: Alias)
    requires Proper(aliases) && target.start < target.end && Solid(aliases, target, start, end)
    requires Closed(aliases, |aliases|, start, end)
    requires a in aliases
    ensures Meets(a, start, end) <==> Connected(aliases, target, a)
    ensures Meets(a, start, end) ==> start <= a.start && a.end <= end
  {
    hide Held;
    if Meets(a, start, end) {
      Stretch(aliases, target, start, end, a);
    } else if Connected(aliases, target, a) {
      var c :| Chain(aliases, target, c) && c[|c| - 1] == a;
      ChainInside(aliases, target, start, end, c, |c| - 1);
    }
  }

  lemma {:induction false} ChainInside(aliases: seq<Alias>, target: Alias, start: int, end: int, c: seq<Alias>, i: nat)
    requires Proper(aliases) && target.start < target.end && Solid(aliases, target, start, end)
    requires Closed(aliases, |aliases|, start, end)
    requires Chain(aliases, target, c) && i < |c|
    ensures start <= c[i].start && c[i].end <= end && Meets(c[i], start, end)
  {
    hide Held;
    assert c[i] in aliases;
    var k :| 0 <= k < |aliases| && aliases[k] == c[i];
    if i > 0 {
      ChainInside(aliases, target, start, end, c, i - 1);
      assert c[i - 1] in aliases;
    }
  }

  /** The value at addr is an array connected to the target. */
  ghost predicate InComponent(heap: seq<Value>, aliases: seq<Alias>, target: Alias, addr: int) {
    0 <= addr < |heap| && IsAlias(heap[addr]) && Connected(aliases, target, AliasOf(addr, heap[addr]))
  }

  /** Cells covered by the first n aliases in the window hold what memory holds. */
  ghost predicate Filled(aliases: seq<Alias>, n: int, start: int, end: int, memory: int -> int, backing: seq<int>) {
    && |backing| == end - start
    && forall i, x ::
       0 <= i < |aliases| && i < n && Meets(aliases[i], start, end) && aliases[i].start <= x < aliases[i].end &&
       start <= x < end ==>
         backing[x - start] == memory(x)
  }

  lemma FilledPut(aliases: seq<Alias>, n: int, start: int, end: int, memory: int -> int, backing: seq<int>, x: int)
    requires Filled(aliases, n, start, end, memory, backing) && start <= x < end
    ensures Filled(aliases, n, start, end, memory, backing[x - start := memory(x)])
  {
  }

  lemma FilledNext(aliases: seq<Alias>, n: int, start: int, end: int, memory: int -> int, backing: seq<int>)
    requires Filled(aliases, n, start, end, memory, backing) && 0 <= n < |aliases|
    requires Meets(aliases[n], start, end) ==>
               forall x :: aliases[n].start <= x < aliases[n].end && start <= x < end ==>
                   backing[x - start] == memory(x)
    ensures Filled(aliases, n + 1, start, end, memory, backing)
  {
  }

  /** Copies each alias in the window into the backing store. */
  method Fill(aliases: seq<Alias>, start: int, end: int, memory: int -> int) returns (backing: array<int>)
    requires Proper(aliases) && Closed(aliases, |aliases|, start, end) && start <= end
    ensures fresh(backing) && Filled(aliases, |aliases|, start, end, memory, backing[..])
  {
    hide Filled;
    backing := new int[end - start](_ => 0);
    FilledNone(aliases, start, end, memory, backing[..]);
    for i := 0 to |aliases|
      invariant Filled(aliases, i, start, end, memory, backing[..])
    {
      var alias := aliases[i];
      assert alias in aliases;
      if alias.start < end && start < alias.end {
        for x := alias.start to alias.end
          invariant Filled(aliases, i, start, end, memory, backing[..])
          invariant forall y :: alias.start <= y < x ==> backing[y - start] == memory(y)
        {
          FilledPut(aliases, i, start, end, memory, backing[..], x);
          backing[x - start] := memory(x);
        }
      }
      FilledNext(aliases, i, start, end, memory, backing[..]);
    }
  }

  lemma FilledNone(aliases: seq<Alias>, start: int, end: int, memory: int -> int, backing: seq<int>)
    requires |backing| == end - start
    ensures Filled(aliases, 0, start, end, memory, backing)
  {
  }

  /** Heap value addr after the first n aliases are replaced. */
  ghost function Replaced(heap: seq<Value>, aliases: seq<Alias>, n: int, start: int, end: int, addr: int): Value
    requires 0 <= addr < |heap|
  {
    if IsAlias(heap[addr]) && (exists i :: 0 <= i < |aliases| && i < n && aliases[i] == AliasOf(addr, heap[addr]))
       && Meets(AliasOf(addr, heap[addr]), start, end)
    then Copy(heap[addr].start - start, heap[addr].len)
    else heap[addr]
  }

  /** Points each alias in the window at its place in the copy. */
  method Repoint(heap: array<Value>, aliases: seq<Alias>, start: int, end: int, cloned: set<int>) returns (r: set<int>)
    requires Listed(heap[..], heap.Length, aliases)
    modifies heap
    ensures forall addr ::
      0 <= addr < heap.Length ==> heap[addr] == Replaced(old(heap[..]), aliases, |aliases|, start, end, addr)
    ensures forall addr :: addr in r <==> addr in cloned || (0 <= addr < heap.Length && heap[addr] != old(heap[addr]))
  {
    ghost var before := heap[..];
    r := cloned;
    for i := 0 to |aliases|
      invariant forall addr :: 0 <= addr < heap.Length ==> heap[addr] == Replaced(before, aliases, i, start, end, addr)
      invariant forall addr :: addr in r <==> addr in cloned || (0 <= addr < heap.Length && heap[addr] != before[addr])
    {
      var alias := aliases[i];
      assert IsListed(before, heap.Length, alias);
      ReplacedNext(before, aliases, i, start, end);
      if alias.start >= end || start >= alias.end {
        continue;
      }
      heap[alias.addr] := Copy(alias.start - start, alias.end - alias.start);
      r := r + {alias.addr};
    }
  }

  lemma ReplacedNext(heap: seq<Value>, aliases: seq<Alias>, i: int, start: int, end: int)
    requires Listed(heap, |heap|, aliases) && 0 <= i < |aliases|
    ensures 0 <= aliases[i].addr < |heap| && IsAlias(heap[aliases[i].addr])
    ensures forall addr :: 0 <= addr < |heap| ==>
              Replaced(heap, aliases, i + 1, start, end, addr) ==
                if addr == aliases[i].addr && Meets(aliases[i], start, end)
                    then Copy(aliases[i].start - start, heap[addr].len)
                else Replaced(heap, aliases, i, start, end, addr)
  {
    assert IsListed(heap, |heap|, aliases[i]);
    forall addr | 0 <= addr < |heap|
      ensures Replaced(heap, aliases, i + 1, start, end, addr) ==
                if addr == aliases[i].addr && Meets(aliases[i], start, end)
                    then Copy(aliases[i].start - start, heap[addr].len)
                else Replaced(heap, aliases, i, start, end, addr)
    {
      if addr == aliases[i].addr {
        assert aliases[i] == AliasOf(addr, heap[addr]);
      }
      forall k | 0 <= k < |aliases| && k < i + 1 && IsAlias(heap[addr]) && aliases[k] == AliasOf(addr, heap[addr])
        ensures k < i || addr == aliases[i].addr
      {
      }
    }
  }

  /** Replaces every array in the target's connected component by one over a fresh copy of the component. */
  method CloneAliases(heap: array<Value>, target: Value, memory: int -> int, cloned: set<int>)
    returns (backing: array<int>, r: set<int>, ghost aliases: seq<Alias>)
    requires target.Window?
    modifies heap
    ensures fresh(backing) && Listed(old(heap[..]), heap.Length, aliases)
    ensures var t := AliasOf(0, target);
            forall addr :: 0 <= addr < heap.Length ==>
              if target.len > 0 && InComponent(old(heap[..]), aliases, t, addr)
              then ReadsAs(heap[addr], old(heap[addr]), memory, backing[..])
              else heap[addr] == old(heap[addr])
    ensures forall addr :: addr in r <==>
              addr in cloned || (target.len > 0 && InComponent(old(heap[..]), aliases, AliasOf(0, target), addr))
    ensures SharesAlike(old(heap[..]), heap[..])
  {
    hide Listed, Replaced, Solid, Closed, Filled, Connected, ReadsAs, SharesAlike;
    ghost var before := heap[..];
    aliases := [];
    if target.len == 0 {
      backing := new int[0];
      aliases := List(heap);
      SharesWhenShifted(before, heap[..], 0);
      return backing, cloned, aliases;
    }
    var list := List(heap);
    aliases := list;
    var t := AliasOf(0, target);
    ListedProper(before, list);
    var start, end := Grow(list, t);
    SolidAround(list, t, start, end);
    backing := Fill(list, start, end, memory);
    r := Repoint(heap, list, start, end, cloned);
    forall addr | 0 <= addr < heap.Length
      ensures InComponent(before, list, t, addr) <==> heap[addr] != before[addr]
      ensures InComponent(before, list, t, addr) ==> heap[addr] == Copy(before[addr].start - start, before[addr].len)
                                                     && ReadsAs(heap[addr], before[addr], memory, backing[..])
    {
      CopiedRight(before, list, t, start, end, memory, backing[..], addr);
    }
    SharesWhenShifted(before, heap[..], start);
  }

  lemma CopiedRight(heap: seq<Value>, aliases: seq<Alias>, target: Alias, start: int, end: int, memory: int -> int,
                    backing: seq<int>, addr: int)
    requires Listed(heap, |heap|, aliases) && target.start < target.end && Solid(aliases, target, start, end)
    requires Closed(aliases, |aliases|, start, end) && Filled(aliases, |aliases|, start, end, memory, backing)
    requires 0 <= addr < |heap|
    ensures var v := Replaced(heap, aliases, |aliases|, start, end, addr);
            && (InComponent(heap, aliases, target, addr) <==> v != heap[addr])
            && (InComponent(heap, aliases, target, addr) ==>
                  v == Copy(heap[addr].start - start, heap[addr].len) && ReadsAs(v, heap[addr], memory, backing))
  {
    hide Solid, Closed, Filled, Connected, ReadsAs, Meets;
    ListedProper(heap, aliases);
    if IsAlias(heap[addr]) {
      var a := AliasOf(addr, heap[addr]);
      assert a in aliases;
      var i :| 0 <= i < |aliases| && aliases[i] == a;
      ComponentIs(aliases, target, start, end, a);
      CopyReads(aliases, start, end, memory, backing, a, heap[addr]);
    }
  }

  /** Two replaced arrays share a cell exactly when they did before. */
  ghost predicate SharesAlike(before: seq<Value>, after: seq<Value>) {
    forall a, b, i, j :: Shared(before, after, a, i) && Shared(before, after, b, j) ==>
      (Cell(after[a], i) == Cell(after[b], j) <==> Cell(before[a], i) == Cell(before[b], j))
  }

  lemma SharesWhenShifted(before: seq<Value>, after: seq<Value>, start: int)
    requires |before| == |after|
    requires forall a ::
      0 <= a < |before| && after[a] != before[a] && IsAlias(before[a]) ==>
      after[a] == Copy(before[a].start - start, before[a].len)
    ensures SharesAlike(before, after)
  {
  }

  /** The cell element i of an array occupies. */
  ghost function Cell(v: Value, i: int): int {
    match v case Window(s, _) => s + i case Copy(o, _) => o + i case Other(_) => 0
  }

  /** Element i of the array at a, which was replaced. */
  ghost predicate Shared(before: seq<Value>, after: seq<Value>, a: int, i: int) {
    0 <= a < |before| && |after| == |before| && after[a] != before[a] && IsAlias(before[a]) && 0 <= i < before[a].len
  }

  /** v is a copy of w that reads the same elements from the backing store. */
  ghost predicate ReadsAs(v: Value, w: Value, memory: int -> int, backing: seq<int>) {
    && v.Copy? && w.Window? && v.len == w.len && 0 <= v.offset && v.offset + v.len <= |backing|
    && forall i :: 0 <= i < v.len ==> SameElement(v, w, memory, backing, i)
  }

  ghost predicate SameElement(v: Value, w: Value, memory: int -> int, backing: seq<int>, i: int)
    requires v.Copy? && w.Window? && 0 <= v.offset + i < |backing|
  {
    backing[v.offset + i] == memory(w.start + i)
  }

  lemma ListedProper(heap: seq<Value>, aliases: seq<Alias>)
    requires Listed(heap, |heap|, aliases)
    ensures Proper(aliases)
  {
    forall a | a in aliases
      ensures a.start < a.end
    {
      var i :| 0 <= i < |aliases| && aliases[i] == a;
      assert IsListed(heap, |heap|, aliases[i]);
    }
  }

  lemma SolidAround(aliases: seq<Alias>, target: Alias, start: int, end: int)
    requires Solid(aliases, target, start, end) && target.start < target.end
    ensures start < end
  {
  }

  lemma CopyReads(aliases: seq<Alias>, start: int, end: int, memory: int -> int, backing: seq<int>, a: Alias, v: Value)
    requires Filled(aliases, |aliases|, start, end, memory, backing) && a in aliases && v.Window?
    requires a == AliasOf(a.addr, v)
    requires Meets(a, start, end) ==> start <= a.start && a.end <= end
    ensures Meets(a, start, end) ==> ReadsAs(Copy(v.start - start, v.len), v, memory, backing)
  {
    if Meets(a, start, end) {
      var k :| 0 <= k < |aliases| && aliases[k] == a;
      var copy := Copy(v.start - start, v.len);
      forall i | 0 <= i < v.len
        ensures SameElement(copy, v, memory, backing, i)
      {
        var x := v.start + i;
        assert aliases[k].start <= x < aliases[k].end;
        assert backing[x - start] == memory(x);
      }
    }
  }

  /** Arrays outside the component share no storage with it. */
  lemma OutsideApart(aliases: seq<Alias>, target: Alias, a: Alias, b: Alias)
    requires a in aliases && b in aliases && Connected(aliases, target, a) && !Connected(aliases, target, b)
    ensures !Overlap(a, b) && !Overlap(b, target)
  {
    hide Connected;
    if Overlap(b, a) {
      ConnectNext(aliases, target, a, b);
    }
    if Overlap(b, target) {
      ConnectFirst(aliases, target, b);
    }
  }
}
