/** The edit-and-relink engine: edits are scheduled on a body and applied together. */
module Splicer {
  import opened Bytecode
  import opened Compaction
  import opened Edits

  /** What applying the edits must give: every unedited instruction at its new place, every branch on the
      image of its old target, every edit's text, and handlers moved with their boundaries. */
  ghost predicate Faithful(code: seq<Byte>, hs: seq<Handler>, es: seq<Edit>, s: seq<int>, out: seq<Byte>,
                           hs': seq<Handler>)
    requires Layout(code, s)
  {
    && |out| == To(es, |code|)
    && (forall k :: Unedited(code, es, s, k) ==> Moved(code, es, s, out, k))
    && (forall i :: 0 <= i < |es| ==> TextAt(es, out, i))
    && |hs'| == |hs| && (forall n :: 0 <= n < |hs| ==> hs'[n] == MovedHandler(es, hs[n]))
  }

  ghost predicate Moved(code: seq<Byte>, es: seq<Edit>, s: seq<int>, out: seq<Byte>, k: int)
    requires Layout(code, s) && 0 <= k < |s| - 1
  {
    && InstrAt(code, s[k], out, To(es, s[k]))
    && forall i :: 0 <= i < Arms(code, s[k]) ==> Target(out, To(es, s[k]), i) == To(es, Target(code, s[k], i))
  }

  ghost function MovedHandler(es: seq<Edit>, h: Handler): Handler {
    Handler(To(es, h.start), To(es, h.end), To(es, h.catch), h.depth)
  }

  lemma LinkedIsFaithful(code: seq<Byte>, es: seq<Edit>, s: seq<int>, out: seq<Byte>, k: int)
    requires Layout(code, s) && Linked(code, es, s, out, |s| - 1, 0) && Unedited(code, es, s, k)
    ensures Moved(code, es, s, out, k)
  {
    hide To, Disp, Layout, InstrAt, TextAt;
    LayoutNext(code, s, k);
    assert ArmsSet(code, es, s, out, k, Progress(Arms(code, s[k]), k, |s| - 1, 0));
    InstrStands(code, s[k], out, To(es, s[k]));
    InstrSame(code, s[k], out, To(es, s[k]));
  }

  /** The scheduled ranges are pairwise clear of each other. */
  ghost predicate AllClear(es: seq<Edit>) {
    forall i, j :: 0 <= i < j < |es| ==> Clear(es[i], es[j])
  }

  ghost predicate ByPosition(es: seq<Edit>) {
    forall i, j :: 0 <= i < j < |es| ==> InOrder(es[i], es[j])
  }

  lemma ApartWhenOrdered(es: seq<Edit>, size: int)
    requires ByPosition(es) && Disjoint(es, size)
    ensures Apart(es, size)
  {
  }

  ghost predicate ClearOf(e: Edit, es: seq<Edit>) {
    forall i :: 0 <= i < |es| ==> Clear(e, es[i])
  }

  /** Puts e in its place among edits in order. */
  method Placed(es: seq<Edit>, e: Edit) returns (r: seq<Edit>)
    requires ByPosition(es) && AllClear(es) && ClearOf(e, es)
    ensures ByPosition(r) && AllClear(r) && multiset(r) == multiset(es) + multiset{e}
    ensures forall x :: x in r <==> x in es || x == e
  {
    var at := |es|;
    while at > 0 && !InOrder(es[at - 1], e)
      invariant 0 <= at <= |es| && forall i :: at <= i < |es| ==> InOrder(e, es[i])
    {
      at := at - 1;
    }
    PlacedAt(es, e, at);
    r := es[..at] + [e] + es[at..];
  }

  lemma PlacedAt(es: seq<Edit>, e: Edit, at: int)
    requires ByPosition(es) && AllClear(es) && ClearOf(e, es) && 0 <= at <= |es|
    requires (at > 0 ==> InOrder(es[at - 1], e)) && forall i :: at <= i < |es| ==> InOrder(e, es[i])
    ensures var r := es[..at] + [e] + es[at..];
            && ByPosition(r) && AllClear(r) && multiset(r) == multiset(es) + multiset{e}
            && forall x :: x in r <==> x in es || x == e
  {
    hide InOrder, Clear;
    var r := es[..at] + [e] + es[at..];
    PlacedContents(es, e, at);
    EarlierInOrder(es, e, at);
    var from := i => if i < at then i else i - 1;
    forall i, j | 0 <= i < j < |r|
      ensures InOrder(r[i], r[j]) && Clear(r[i], r[j])
    {
      assert r[i] == if i < at then es[i] else if i == at then e else es[i - 1];
      assert r[j] == if j < at then es[j] else if j == at then e else es[j - 1];
      ClearSymmetric();
      if i != at && j != at {
        assert InOrder(es[from(i)], es[from(j)]);
      }
    }
  }

  lemma PlacedContents(es: seq<Edit>, e: Edit, at: int)
    requires 0 <= at <= |es|
    ensures var r := es[..at] + [e] + es[at..];
            multiset(r) == multiset(es) + multiset{e} && forall x :: x in r <==> x in es || x == e
  {
    assert es == es[..at] + es[at..];
  }

  lemma EarlierInOrder(es: seq<Edit>, e: Edit, at: int)
    requires ByPosition(es) && 0 <= at <= |es| && (at > 0 ==> InOrder(es[at - 1], e))
    ensures forall i :: 0 <= i < at ==> InOrder(es[i], e)
  {
  }

  lemma ClearSymmetric()
    ensures forall a, b :: Clear(a, b) ==> Clear(b, a)
  {
  }

  /** The edits by position. */
  method Sorted(es: seq<Edit>) returns (r: seq<Edit>)
    requires AllClear(es)
    ensures ByPosition(r) && AllClear(r) && multiset(r) == multiset(es)
    ensures forall x :: x in r <==> x in es
  {
    r := [];
    for n := 0 to |es|
      invariant ByPosition(r) && AllClear(r) && multiset(r) == multiset(es[..n])
      invariant forall x :: x in r <==> x in es[..n]
    {
      assert es[..n + 1] == es[..n] + [es[n]];
      forall i | 0 <= i < |r|
        ensures Clear(es[n], r[i])
      {
        assert r[i] in r;
        ClearOfEarlier(es, n, r[i]);
      }
      r := Placed(r, es[n]);
    }
    assert es[..|es|] == es;
  }

  lemma ClearOfEarlier(es: seq<Edit>, n: int, x: Edit)
    requires AllClear(es) && 0 <= n < |es| && x in es[..n]
    ensures Clear(es[n], x)
  {
    var j :| 0 <= j < n && es[j] == x;
    assert Clear(es[j], es[n]);
  }

  ghost predicate InBounds(es: seq<Edit>, s: seq<int>, size: int) {
    forall e :: e in es ==> 0 <= e.start <= e.end <= size && e.start in s && e.end in s
  }

  /** Applies edits to one body. */
  class Rewriter {
    const code: seq<Byte>
    const handlers: seq<Handler>
    var edits: seq<Edit>

    constructor (code: seq<Byte>, handlers: seq<Handler>)
      ensures this.code == code && this.handlers == handlers && edits == []
    {
      this.code := code;
      this.handlers := handlers;
      edits := [];
    }

    method Replace(start: int, end: int, bytes: seq<Byte>)
      modifies this
      ensures edits == old(edits) + [Edit(start, end, bytes)]
    {
      edits := edits + [Edit(start, end, bytes)];
    }

    method Insert(at: int, bytes: seq<Byte>)
      modifies this
      ensures edits == old(edits) + [Edit(at, at, bytes)]
    {
      edits := edits + [Edit(at, at, bytes)];
    }

    /** Edits scheduled so far are disjoint, split no instruction and cover no branch. */
    ghost predicate Schedulable(s: seq<int>)
      reads this
      requires Layout(code, s)
    {
      && AllClear(edits) && InBounds(edits, s, |code|)
      && (forall h :: h in handlers ==> 0 <= h.start <= |code| && 0 <= h.end <= |code| && 0 <= h.catch <= |code|)
      && (forall k, e :: 0 <= k < |s| - 1 && IsBranch(code[s[k]]) && e in edits ==> !(e.start <= s[k] < e.end))
    }

    lemma OrderedIsAligned(es: seq<Edit>, s: seq<int>)
      requires Layout(code, s) && Schedulable(s) && ByPosition(es) && AllClear(es) && forall x ::
        x in es <==> x in edits
      ensures Apart(es, |code|) && EditsAligned(code, es, s)
    {
      hide Layout, Clear;
      assert forall i :: 0 <= i < |es| ==> es[i] in edits;
      ApartWhenOrdered(es, |code|);
    }

    lemma BoundsStay(s: seq<int>)
      requires Layout(code, s) && Schedulable(s)
      ensures forall h :: h in handlers ==> 0 <= h.start <= |code| && 0 <= h.end <= |code| && 0 <= h.catch <= |code|
    {
    }

    method Rehandle(remap: seq<int>, ghost es: seq<Edit>, ghost s: seq<int>) returns (r: seq<Handler>)
      requires Layout(code, s) && Schedulable(s)
      requires |remap| == |code| + 1 && forall x :: 0 <= x <= |code| ==> remap[x] == To(es, x)
      ensures |r| == |handlers| && forall n :: 0 <= n < |handlers| ==> r[n] == MovedHandler(es, handlers[n])
    {
      hide To, Layout, Schedulable;
      r := [];
      BoundsStay(s);
      for n := 0 to |handlers|
        invariant |r| == n && forall j :: 0 <= j < n ==> r[j] == MovedHandler(es, handlers[j])
      {
        var h := handlers[n];
        assert h in handlers;
        r := r + [Handler(remap[h.start], remap[h.end], remap[h.catch], h.depth)];
      }
    }

    /** The edited body. None, with the body untouched, when a branch can no longer reach its target. */
    method Run(ghost s: seq<int>) returns (r: Option<(seq<Byte>, seq<Handler>)>)
      requires Layout(code, s) && Schedulable(s)
      modifies this
      ensures multiset(edits) == multiset(old(edits)) && ByPosition(edits) && Apart(edits, |code|)
      ensures EditsAligned(code, edits, s)
      ensures r.Some? <==> edits == [] || AllFit(code, edits, s, |s| - 1)
      ensures r.Some? && edits != [] ==> Faithful(code, handlers, edits, s, r.value.0, r.value.1)
      ensures r.Some? && edits == [] ==> r.value == (code, handlers)
    {
      hide Layout, EditsAligned, Apart, Linked, To, Spliced, AllFit, Schedulable, Moved, ByPosition, AllClear, TextAt,
           MovedHandler;
      ClearEdits(s);
      var es := Sorted(edits);
      OrderedIsAligned(es, s);
      SameSize(es, edits);
      if |edits| == 0 {
        return Some((code, handlers));
      }
      var out, remap := Build(code, es);
      assert forall x :: 0 <= x <= |code| ==> remap[x] == To(es, x) by { ToIs(es); }
      var linked := Relink(code, out, remap, es, s);
      if linked.None? {
        edits := es;
        return None;
      }
      forall k | Unedited(code, es, s, k)
        ensures Moved(code, es, s, linked.value, k)
      {
        LinkedIsFaithful(code, es, s, linked.value, k);
      }
      LinkedTexts(code, es, s, linked.value);
      var hs := Rehandle(remap, es, s);
      edits := es;
      r := Some((linked.value, hs));
    }

    lemma ClearEdits(s: seq<int>)
      requires Layout(code, s) && Schedulable(s)
      ensures AllClear(edits)
    {
    }
  }

  lemma SameSize(a: seq<Edit>, b: seq<Edit>)
    requires multiset(a) == multiset(b)
    ensures |a| == |b|
    ensures |b| == 0 ==> a == b
  {
    assert |multiset(a)| == |a| && |multiset(b)| == |b|;
  }

  lemma ToIs(es: seq<Edit>)
    ensures forall x :: To(es, x) == Place(es, |es|, x)
  {
  }

  lemma LinkedTexts(code: seq<Byte>, es: seq<Edit>, s: seq<int>, out: seq<Byte>)
    requires Layout(code, s) && Linked(code, es, s, out, |s| - 1, 0)
    ensures |out| == To(es, |code|) && forall i :: 0 <= i < |es| ==> TextAt(es, out, i)
  {
    hide To, TextAt, ArmsSet;
  }

  /** A moved handler covers an unedited offset exactly when it did before. */
  lemma CoversSame(es: seq<Edit>, size: int, h: Handler, x: int)
    requires Apart(es, size) && 0 <= x && !Inside(es, |es|, x) && 0 <= h.start && 0 <= h.end
    ensures h.start <= x < h.end <==> To(es, h.start) <= To(es, x) < To(es, h.end)
  {
    hide Place, Inside;
    OrderAround(es, size, x, h.start);
    OrderAround(es, size, x, h.end);
  }

  lemma OrderAround(es: seq<Edit>, size: int, x: int, t: int)
    requires Apart(es, size) && 0 <= x && !Inside(es, |es|, x) && 0 <= t
    ensures t <= x <==> To(es, t) <= To(es, x)
  {
    hide Place, Inside;
    if t <= x {
      PlaceMonotone(es, size, |es|, t, x);
    } else {
      PlaceMonotone(es, size, |es|, x, t);
    }
  }

  /** New text is covered exactly by the ranges that covered the byte before the edit's end: an insertion
      at the end of a range joins it, one at its start does not. */
  lemma TextCovered(es: seq<Edit>, size: int, h: Handler, i: nat, p: int)
    requires Apart(es, size) && i < |es| && TextStart(es, i) <= p < TextStart(es, i) + |es[i].bytes| && 0 <= h.start
    requires 0 <= h.end
    ensures To(es, h.start) <= p < To(es, h.end) <==> h.start <= es[i].end - 1 < h.end
  {
    TextOrder(es, size, i, p, h.start);
    TextOrder(es, size, i, p, h.end);
  }

  lemma TextOrder(es: seq<Edit>, size: int, i: nat, p: int, t: int)
    requires Apart(es, size) && i < |es| && TextStart(es, i) <= p < TextStart(es, i) + |es[i].bytes| && 0 <= t
    ensures To(es, t) <= p <==> t < es[i].end
  {
    hide Place;
    if es[i].end <= t {
      PlaceAfter(es, size, i, |es|, t);
    } else if es[i].start <= t {
      PlaceWithin(es, size, i, t);
    } else {
      PlaceSettled(es, size, i, |es|, t);
      PlaceMonotone(es, size, i, t, es[i].start);
      PlaceBefore(es, size, i, es[i].start);
    }
  }

  lemma PlaceWithin(es: seq<Edit>, size: int, i: nat, t: int)
    requires Apart(es, size) && i < |es| && es[i].start <= t < es[i].end
    ensures Place(es, |es|, t) == TextStart(es, i)
  {
    PlaceSettled(es, size, i + 1, |es|, t);
    PlaceBefore(es, size, i, t);
  }

  ghost function MovedOption(es: seq<Edit>, h: Option<Handler>): Option<Handler> {
    match h case None => None case Some(v) => Some(MovedHandler(es, v))
  }

  ghost predicate BoundsOk(hs: seq<Handler>) {
    forall h :: h in hs ==> 0 <= h.start && 0 <= h.end
  }

  /** The handler of an unedited offset is its old one, moved. */
  lemma {:induction false} HandlerMoves(es: seq<Edit>, size: int, hs: seq<Handler>, hs': seq<Handler>, x: int)
    requires Apart(es, size) && 0 <= x && !Inside(es, |es|, x) && BoundsOk(hs)
    requires |hs'| == |hs| && forall n :: 0 <= n < |hs| ==> hs'[n] == MovedHandler(es, hs[n])
    ensures HandlerFor(hs', To(es, x)) == MovedOption(es, HandlerFor(hs, x))
  {
    hide To, Inside;
    if hs != [] {
      assert hs[0] in hs;
      CoversSame(es, size, hs[0], x);
      HandlerMoves(es, size, hs[1..], hs'[1..], x);
    }
  }

  /** The handler of new text is that of the byte before the edit's end, moved. */
  lemma {:induction false} TextHandler(es: seq<Edit>, size: int, hs: seq<Handler>, hs': seq<Handler>, i: nat, p: int)
    requires Apart(es, size) && i < |es| && TextStart(es, i) <= p < TextStart(es, i) + |es[i].bytes| && BoundsOk(hs)
    requires |hs'| == |hs| && forall n :: 0 <= n < |hs| ==> hs'[n] == MovedHandler(es, hs[n])
    ensures HandlerFor(hs', p) == MovedOption(es, HandlerFor(hs, es[i].end - 1))
  {
    hide To, TextStart;
    if hs != [] {
      assert hs[0] in hs;
      TextCovered(es, size, hs[0], i, p);
      TextHandler(es, size, hs[1..], hs'[1..], i, p);
    }
  }
}
