/** Instructions as bytes: operands are little-endian, in fields whose widths the opcode fixes. A field may be a
    counted list: a count byte, then that many operands. */
module Codec {
  import opened Bytecode
  import opened Integers

  /** The lowest n bytes of v, least first. */
  function Bytes(v: nat, n: nat): (r: seq<Byte>)
    ensures |r| == n
  {
    if n == 0 then [] else [v % 256] + Bytes(v / 256, n - 1)
  }

  function Read(b: seq<Byte>): nat {
    if b == [] then 0 else b[0] + 256 * Read(b[1..])
  }

  /** What is written in n bytes reads back up to n bytes. */
  lemma {:induction false} ReadsBack(v: nat, n: nat)
    ensures Read(Bytes(v, n)) == LowBits(v, 8 * n)
  {
    hide LowBits;
    if n == 0 {
      LowNext(v, 0);
    } else {
      LowByte(v, n - 1);
      ReadsBack(v / 256, n - 1);
      assert Bytes(v, n)[1..] == Bytes(v / 256, n - 1);
    }
  }

  /** Operand widths an opcode can have; a negative width stands for a counted list. */
  predicate Sound(ws: seq<int>) {
    forall i :: 0 <= i < |ws| ==> Abs(ws[i]) in {1, 2, 4, 8}
  }

  /** The operands an opcode takes from vs. */
  predicate Enough(ws: seq<int>, vs: seq<nat>) {
    ws == [] || (vs != [] && if ws[0] > 0 then Enough(ws[1..], vs[1..])
        else 1 + vs[0] <= |vs| && Enough(ws[1..], vs[1 + vs[0]..]))
  }

  /** n operands of w bytes. */
  function Times(n: nat, w: nat): nat {
    if n == 0 then 0 else w + Times(n - 1, w)
  }

  function ListBytes(vs: seq<nat>, w: nat): (r: seq<Byte>)
    ensures |r| == Times(|vs|, w)
  {
    if vs == [] then [] else Bytes(vs[0], w) + ListBytes(vs[1..], w)
  }

  /** The operand bytes. */
  function Fields(ws: seq<int>, vs: seq<nat>): seq<Byte>
    requires Enough(ws, vs)
  {
    if ws == [] then []
    else if ws[0] > 0 then Bytes(vs[0], ws[0]) + Fields(ws[1..], vs[1..])
    else [vs[0] % 256] + ListBytes(vs[1..1 + vs[0]], -ws[0]) + Fields(ws[1..], vs[1 + vs[0]..])
  }

  /** The values that fit their fields. */
  function Clipped(ws: seq<int>, vs: seq<nat>): seq<nat>
    requires Enough(ws, vs)
  {
    if ws == [] then []
    else if ws[0] > 0 then [LowBits(vs[0], 8 * ws[0])] + Clipped(ws[1..], vs[1..])
    else [vs[0]] + ClippedList(vs[1..1 + vs[0]], -ws[0]) + Clipped(ws[1..], vs[1 + vs[0]..])
  }

  function ClippedList(vs: seq<nat>, w: nat): (r: seq<nat>)
    ensures |r| == |vs| && forall i :: 0 <= i < |vs| ==> r[i] == LowBits(vs[i], 8 * w)
  {
    if vs == [] then [] else [LowBits(vs[0], 8 * w)] + ClippedList(vs[1..], w)
  }

  /** Every counted list has at most 255 elements. */
  predicate Countable(ws: seq<int>, vs: seq<nat>)
    requires Enough(ws, vs)
  {
    ws == [] || if ws[0] > 0 then Countable(ws[1..], vs[1..]) else vs[0] < 256 && Countable(ws[1..], vs[1 + vs[0]..])
  }

  /** Reads n operands of width w. */
  function ReadList(b: seq<Byte>, n: nat, w: nat): (r: seq<nat>)
    requires Times(n, w) <= |b|
    ensures |r| == n
  {
    if n == 0 then [] else [Read(b[..w])] + ReadList(b[w..], n - 1, w)
  }

  /** The operands in the bytes after the opcode. None when they run out. */
  function Operands(ws: seq<int>, b: seq<Byte>): Option<seq<nat>> {
    if ws == [] then Some([])
    else if ws[0] > 0 then
      if |b| < ws[0] then None
      else match Operands(ws[1..], b[ws[0]..])
           case None => None
           case Some(rest) => Some([Read(b[..ws[0]])] + rest)
    else
      if b == [] || |b| < 1 + Times(b[0], -ws[0]) then None
      else
        var n, w: nat := b[0], -ws[0];
        match Operands(ws[1..], b[1 + Times(n, w)..])
        case None => None
        case Some(rest) => Some([n as nat] + ReadList(b[1..], n, w) + rest)
  }

  lemma {:induction false} ListReadsBack(vs: seq<nat>, w: nat, tail: seq<Byte>)
    ensures ReadList(ListBytes(vs, w) + tail, |vs|, w) == ClippedList(vs, w)
  {
    hide LowBits;
    if vs != [] {
      var b := ListBytes(vs, w) + tail;
      assert b[..w] == Bytes(vs[0], w) && b[w..] == ListBytes(vs[1..], w) + tail;
      ReadsBack(vs[0], w);
      ListReadsBack(vs[1..], w, tail);
    }
  }

  lemma {:induction false} ReadListPrefix(a: seq<Byte>, b: seq<Byte>, n: nat, w: nat)
    requires Times(n, w) <= |a| && Times(n, w) <= |b| && a[..Times(n, w)] == b[..Times(n, w)]
    ensures ReadList(a, n, w) == ReadList(b, n, w)
  {
    hide Read;
    if n > 0 {
      assert a[..w] == a[..Times(n, w)][..w] && b[..w] == b[..Times(n, w)][..w];
      assert a[w..][..Times(n - 1, w)] == a[..Times(n, w)][w..] && b[w..][..Times(n - 1, w)] == b[..Times(n, w)][w..];
      ReadListPrefix(a[w..], b[w..], n - 1, w);
    }
  }

  lemma OneField(ws: seq<int>, x: seq<Byte>, rest: seq<Byte>)
    requires ws != [] && ws[0] > 0 && |x| == ws[0]
    ensures Operands(ws, x + rest) ==
      (match Operands(ws[1..], rest) case None => None case Some(r) => Some([Read(x)] + r))
  {
    hide Read, ReadList;
    assert (x + rest)[..ws[0]] == x && (x + rest)[ws[0]..] == rest;
  }

  lemma OneList(ws: seq<int>, n: Byte, list: seq<Byte>, rest: seq<Byte>)
    requires ws != [] && ws[0] <= 0 && |list| == Times(n, -ws[0])
    ensures Operands(ws, [n] + list + rest) ==
              (match Operands(ws[1..],
                  rest) case None => None case Some(r) => Some([n as nat] + ReadList(list, n, -ws[0]) + r))
  {
    hide Read, ReadList;
    var b := [n] + list + rest;
    assert b[0] == n && b[1 + Times(n, -ws[0])..] == rest && b[1..] == list + rest;
    assert (list + rest)[..Times(n, -ws[0])] == list[..Times(n, -ws[0])];
    ReadListPrefix(list + rest, list, n, -ws[0]);
  }

  lemma SoundTail(ws: seq<int>)
    requires Sound(ws) && ws != []
    ensures Sound(ws[1..])
  {
    forall i | 0 <= i < |ws[1..]|
      ensures Abs(ws[1..][i]) in {1, 2, 4, 8}
    {
      assert ws[1..][i] == ws[i + 1];
    }
  }

  lemma FirstFixed(ws: seq<int>, vs: seq<nat>)
    requires Enough(ws, vs) && Countable(ws, vs) && ws != [] && ws[0] > 0
    ensures vs != [] && Enough(ws[1..], vs[1..]) && Countable(ws[1..], vs[1..])
    ensures Fields(ws, vs) == Bytes(vs[0], ws[0]) + Fields(ws[1..], vs[1..])
    ensures Clipped(ws, vs) == [LowBits(vs[0], 8 * ws[0])] + Clipped(ws[1..], vs[1..])
  {
    hide LowBits, Bytes;
  }

  lemma FirstListed(ws: seq<int>, vs: seq<nat>)
    requires Enough(ws, vs) && Countable(ws, vs) && ws != [] && ws[0] <= 0
    ensures vs != [] && vs[0] < 256 && 1 + vs[0] <= |vs| && Enough(ws[1..], vs[1 + vs[0]..])
    ensures Countable(ws[1..], vs[1 + vs[0]..])
  {
  }

  lemma ListedFields(ws: seq<int>, vs: seq<nat>)
    requires Enough(ws, vs) && ws != [] && ws[0] <= 0 && vs != [] && vs[0] < 256 && 1 + vs[0] <= |vs|
    requires Enough(ws[1..], vs[1 + vs[0]..])
    ensures Fields(ws, vs) == [vs[0] as Byte] + ListBytes(vs[1..1 + vs[0]], -ws[0]) + Fields(ws[1..], vs[1 + vs[0]..])
  {
    hide Bytes, ListBytes, Enough, Fields;
    CountedFields(ws, vs);
    assert vs[0] % 256 == vs[0];
  }

  lemma ListedClipped(ws: seq<int>, vs: seq<nat>)
    requires Enough(ws, vs) && ws != [] && ws[0] <= 0 && vs != [] && 1 + vs[0] <= |vs|
    requires Enough(ws[1..], vs[1 + vs[0]..])
    ensures Clipped(ws, vs) == [vs[0]] + ClippedList(vs[1..1 + vs[0]], -ws[0]) + Clipped(ws[1..], vs[1 + vs[0]..])
  {
    hide LowBits, ClippedList, Enough;
  }

  /** An instruction whose lists are short enough reads back as its operands, cut to their fields. */
  lemma {:induction false} ReadsClipped(ws: seq<int>, vs: seq<nat>, tail: seq<Byte>)
    requires Sound(ws) && Enough(ws, vs) && Countable(ws, vs)
    ensures Operands(ws, Fields(ws, vs) + tail) == Some(Clipped(ws, vs))
  {
    if ws == [] {
      NoFields(Fields(ws, vs) + tail);
    } else if ws[0] > 0 {
      SoundTail(ws);
      FirstFixed(ws, vs);
      ReadsClipped(ws[1..], vs[1..], tail);
      FixedBack(ws, vs, tail);
    } else {
      SoundTail(ws);
      FirstListed(ws, vs);
      ReadsClipped(ws[1..], vs[1 + vs[0]..], tail);
      ListedBack(ws, vs, tail);
    }
  }

  lemma FixedBack(ws: seq<int>, vs: seq<nat>, tail: seq<Byte>)
    requires Sound(ws) && Enough(ws, vs) && Countable(ws, vs) && ws != [] && ws[0] > 0 && vs != []
    requires Enough(ws[1..], vs[1..])
    requires Operands(ws[1..], Fields(ws[1..], vs[1..]) + tail) == Some(Clipped(ws[1..], vs[1..]))
    ensures Operands(ws, Fields(ws, vs) + tail) == Some(Clipped(ws, vs))
  {
    hide LowBits, Read, Bytes, Operands, Fields, Clipped, Countable, Sound;
    FirstFixed(ws, vs);
    var x, rest := Bytes(vs[0], ws[0]), Fields(ws[1..], vs[1..]);
    OneField(ws, x, rest + tail);
    assert x + rest + tail == x + (rest + tail);
    ReadsBack(vs[0], ws[0]);
  }

  lemma ListedBack(ws: seq<int>, vs: seq<nat>, tail: seq<Byte>)
    requires Enough(ws, vs) && ws != [] && ws[0] <= 0 && vs != [] && vs[0] < 256 && 1 + vs[0] <= |vs|
    requires Enough(ws[1..], vs[1 + vs[0]..])
    requires Operands(ws[1..], Fields(ws[1..], vs[1 + vs[0]..]) + tail) == Some(Clipped(ws[1..], vs[1 + vs[0]..]))
    ensures Operands(ws, Fields(ws, vs) + tail) == Some(Clipped(ws, vs))
  {
    hide LowBits, Read, Bytes, ListBytes, ReadList, ClippedList, Operands, Fields, Clipped, Enough;
    ListedFields(ws, vs);
    ListedClipped(ws, vs);
    var n, w: nat := vs[0], -ws[0];
    var list, rest := ListBytes(vs[1..1 + n], w), Fields(ws[1..], vs[1 + n..]);
    OneList(ws, n, list, rest + tail);
    assert [n as Byte] + list + rest + tail == [n as Byte] + list + (rest + tail);
    ListReadsBack(vs[1..1 + n], w, []);
    assert list + [] == list;
  }

  lemma NoFields(b: seq<Byte>)
    ensures Operands([], b) == Some([])
  {
  }

  /** A built instruction reads back as its operands, cut to their fields, whatever follows it, exactly when no list
      is longer than its count can say. */
  lemma RoundTrip(ws: seq<int>, vs: seq<nat>, tail: seq<Byte>)
    requires Sound(ws) && Enough(ws, vs)
    ensures Operands(ws, Fields(ws, vs) + tail) == Some(Clipped(ws, vs)) <==> Countable(ws, vs)
  {
    hide Operands, Fields, Clipped, Countable, Enough, Sound;
    if Countable(ws, vs) {
      ReadsClipped(ws, vs, tail);
    } else {
      ReadsOtherwise(ws, vs, tail);
    }
  }

  lemma {:induction false} ReadsOtherwise(ws: seq<int>, vs: seq<nat>, tail: seq<Byte>)
    requires Sound(ws) && Enough(ws, vs) && !Countable(ws, vs)
    ensures Operands(ws, Fields(ws, vs) + tail) != Some(Clipped(ws, vs))
  {
    SoundTail(ws);
    if ws[0] > 0 {
      ReadsOtherwise(ws[1..], vs[1..], tail);
      FixedElse(ws, vs, tail);
    } else if vs[0] < 256 {
      ReadsOtherwise(ws[1..], vs[1 + vs[0]..], tail);
      ListedElse(ws, vs, tail);
    } else {
      CountElse(ws, vs, tail);
    }
  }

  lemma FixedElse(ws: seq<int>, vs: seq<nat>, tail: seq<Byte>)
    requires ws != [] && ws[0] > 0 && Enough(ws, vs) && vs != [] && Enough(ws[1..], vs[1..])
    requires Operands(ws[1..], Fields(ws[1..], vs[1..]) + tail) != Some(Clipped(ws[1..], vs[1..]))
    ensures Operands(ws, Fields(ws, vs) + tail) != Some(Clipped(ws, vs))
  {
    hide LowBits, Read, Bytes, Operands;
    var x, rest := Bytes(vs[0], ws[0]), Fields(ws[1..], vs[1..]);
    OneField(ws, x, rest + tail);
    assert x + rest + tail == x + (rest + tail);
    match Operands(ws[1..], rest + tail)
    case None =>
    case Some(r) => assert ([Read(x)] + r)[1..] == r && Clipped(ws, vs)[1..] == Clipped(ws[1..], vs[1..]);
  }

  lemma ListedElse(ws: seq<int>, vs: seq<nat>, tail: seq<Byte>)
    requires Enough(ws, vs) && ws != [] && ws[0] <= 0 && vs != [] && vs[0] < 256 && 1 + vs[0] <= |vs|
    requires Enough(ws[1..], vs[1 + vs[0]..])
    requires Operands(ws[1..], Fields(ws[1..], vs[1 + vs[0]..]) + tail) != Some(Clipped(ws[1..], vs[1 + vs[0]..]))
    ensures Operands(ws, Fields(ws, vs) + tail) != Some(Clipped(ws, vs))
  {
    hide LowBits, Read, Bytes, ListBytes, ReadList, ClippedList, Operands, Fields, Clipped, Enough;
    ListedFields(ws, vs);
    ListedClipped(ws, vs);
    var n, w: nat := vs[0], -ws[0];
    var list, rest, after := ListBytes(vs[1..1 + n], w), Fields(ws[1..], vs[1 + n..]), Clipped(ws[1..], vs[1 + n..]);
    OneList(ws, n, list, rest + tail);
    assert [n as Byte] + list + rest + tail == [n as Byte] + list + (rest + tail);
    match Operands(ws[1..], rest + tail)
    case None =>
    case Some(r) =>
      assert ([n as nat] + ReadList(list, n, w) + r)[1 + n..] == r;
      assert ([n] + ClippedList(vs[1..1 + n], w) + after)[1 + n..] == after;
  }

  /** The count that is read is a byte. */
  lemma CountElse(ws: seq<int>, vs: seq<nat>, tail: seq<Byte>)
    requires Enough(ws, vs) && ws != [] && ws[0] <= 0 && vs != [] && vs[0] >= 256
    ensures Operands(ws, Fields(ws, vs) + tail) != Some(Clipped(ws, vs))
  {
    hide LowBits, Read, ListBytes, ReadList, ClippedList;
    var b := Fields(ws, vs) + tail;
    assert b[0] == vs[0] % 256;
    if Operands(ws, b).Some? {
      assert Operands(ws, b).value[0] == b[0];
      assert Clipped(ws, vs)[0] == vs[0];
    }
  }

  lemma LastField(b: seq<Byte>)
    requires |b| >= 2
    ensures Operands([2], b) == Some([Read(b[..2])])
  {
    hide Read;
    var ws: seq<int> := [2];
    assert ws[1..] == [];
    NoFields(b[2..]);
    assert [Read(b[..2])] + [] == [Read(b[..2])];
  }

  /** A jump table of 256 cases or more reads back as one of fewer: its cases' number, cut to a byte. */
  lemma LongTablesDoNot(vs: seq<nat>, tail: seq<Byte>)
    requires |vs| > 256
    ensures Enough([-2, 2], [|vs| - 1] + vs) && !Countable([-2, 2], [|vs| - 1] + vs)
    ensures match Operands([-2, 2], Fields([-2, 2], [|vs| - 1] + vs) + tail)
            case None => false
            case Some(r) => r[0] == (|vs| - 1) % 256 && |r| == 2 + (|vs| - 1) % 256
  {
    hide LowBits, Read;
    var n: nat := |vs| - 1;
    var all, c := [n] + vs, n % 256;
    assert [-2, 2][1..] == [2] && [2][1..] == [];
    assert all[0] == n && all[1 + n..] == vs[n..] && |vs[n..]| == 1 && Enough([2], vs[n..]);
    var b := Fields([-2, 2], all) + tail;
    assert b[0] == c;
    TimesIs(n, 2);
    TimesIs(c, 2);
    assert |Fields([2], vs[n..])| == 2 by {
      assert Fields([2], vs[n..]) == Bytes(vs[n..][0], 2) + Fields([], vs[n..][1..]);
    }
    assert Fields([-2, 2], all) == [c] + ListBytes(all[1..1 + n], 2) + Fields([2], vs[n..]);
    var rest := b[1 + Times(c, 2)..];
    LastField(rest);
    assert Operands([-2, 2], b) == Some([c as nat] + ReadList(b[1..], c, 2) + [Read(rest[..2])]);
  }

  /** Where operand `index` stands: offset and width, and whether it is a count. */
  function Slot(ws: seq<int>, b: seq<Byte>, index: nat): Option<(nat, nat, bool)>
    requires Operands(ws, b).Some?
  {
    if ws == [] then None
    else if ws[0] > 0 then
      if index == 0 then Some((0, ws[0], false)) else Later(ws[0], Slot(ws[1..], b[ws[0]..], index - 1))
    else
      var n, w: nat := b[0], -ws[0];
      if index == 0 then Some((0, 1, true))
      else if index <= n then Some((1 + Times(index - 1, w), w, false))
      else Later(1 + Times(n, w), Slot(ws[1..], b[1 + Times(n, w)..], index - 1 - n))
  }

  function Later(n: nat, slot: Option<(nat, nat, bool)>): Option<(nat, nat, bool)> {
    match slot case None => None case Some(s) => Some((n + s.0, s.1, s.2))
  }

  function Patch(b: seq<Byte>, o: nat, v: nat, w: nat): (r: seq<Byte>)
    requires o + w <= |b|
    ensures |r| == |b|
  {
    b[..o] + Bytes(v, w) + b[o + w..]
  }

  /** Exactly the operands have a place, inside the bytes. */
  lemma {:induction false} SlotInside(ws: seq<int>, b: seq<Byte>, index: nat)
    requires Operands(ws, b).Some?
    ensures Slot(ws, b, index).Some? <==> index < |Operands(ws, b).value|
    ensures Slot(ws, b, index).Some? ==> Slot(ws, b, index).value.0 + Slot(ws, b, index).value.1 <= |b|
  {
    hide Read, ReadList;
    if ws != [] {
      if ws[0] > 0 {
        if index > 0 {
          SlotInside(ws[1..], b[ws[0]..], index - 1);
        }
      } else {
        var n, w: nat := b[0], -ws[0];
        if index > n {
          SlotInside(ws[1..], b[1 + Times(n, w)..], index - 1 - n);
        } else if index > 0 {
          Within(index - 1, n, w);
        }
      }
    }
  }

  lemma {:induction false} Within(i: nat, n: nat, w: nat)
    requires i < n
    ensures Times(i, w) + w <= Times(n, w)
  {
    if i + 1 < n {
      Within(i, n - 1, w);
    }
  }

  lemma {:induction false} ListPatched(b: seq<Byte>, n: nat, w: nat, i: nat, v: nat)
    requires Times(n, w) <= |b| && i < n && Times(i, w) + w <= |b|
    ensures ReadList(Patch(b, Times(i, w), v, w), n, w) == ReadList(b, n, w)[i := LowBits(v, 8 * w)]
  {
    hide LowBits, Read, Bytes, Patch, ReadList;
    Within(0, n, w);
    ReadFirst(b, n, w);
    ReadFirst(Patch(b, Times(i, w), v, w), n, w);
    if i == 0 {
      PatchFirst(b, v, w);
      ReadsBack(v, w);
    } else {
      Within(i - 1, n - 1, w);
      PatchLater(b, w, Times(i - 1, w), v);
      ListPatched(b[w..], n - 1, w, i - 1, v);
    }
  }

  lemma ReadFirst(b: seq<Byte>, n: nat, w: nat)
    requires n > 0 && Times(n, w) <= |b|
    ensures w <= |b| && Times(n - 1, w) <= |b| - w && ReadList(b, n, w) == [Read(b[..w])] + ReadList(b[w..], n - 1, w)
  {
    hide Read;
  }

  lemma PatchFirst(b: seq<Byte>, v: nat, w: nat)
    requires w <= |b|
    ensures Patch(b, 0, v, w)[..w] == Bytes(v, w) && Patch(b, 0, v, w)[w..] == b[w..]
  {
    hide Bytes;
  }

  lemma PatchLater(b: seq<Byte>, w: nat, o: nat, v: nat)
    requires w + o + w <= |b|
    ensures Patch(b, w + o, v, w)[..w] == b[..w] && Patch(b, w + o, v, w)[w..] == Patch(b[w..], o, v, w)
  {
    hide Bytes;
  }

  /** Setting an operand that is not a count changes it, cut to its field, and no other. */
  lemma {:induction false} SetReads(ws: seq<int>, b: seq<Byte>, index: nat, v: nat)
    requires Operands(ws, b).Some? && Slot(ws, b, index).Some? && !Slot(ws, b, index).value.2
    requires Slot(ws, b, index).value.0 + Slot(ws, b, index).value.1 <= |b|
    ensures index < |Operands(ws, b).value|
    ensures var s := Slot(ws, b, index).value;
            Operands(ws, Patch(b, s.0, v, s.1)) == Some(Operands(ws, b).value[index := LowBits(v, 8 * s.1)])
    decreases ws, 1
  {
    hide LowBits, Read, Bytes, ReadList, Operands, Slot;
    SlotInside(ws, b, index);
    SlotSome(ws, b, index);
    if ws[0] > 0 {
      SetFixed(ws, b, index, v);
    } else {
      SetListed(ws, b, index, v);
    }
  }

  lemma SlotSome(ws: seq<int>, b: seq<Byte>, index: nat)
    requires Operands(ws, b).Some?
    ensures Slot(ws, b, index).Some? ==> ws != []
  {
  }

  /** The first field and what follows it. */
  lemma SplitFixed(ws: seq<int>, b: seq<Byte>)
    requires Operands(ws, b).Some? && ws != [] && ws[0] > 0
    ensures ws[0] <= |b| && Operands(ws[1..], b[ws[0]..]).Some?
    ensures Operands(ws, b).value == [Read(b[..ws[0]])] + Operands(ws[1..], b[ws[0]..]).value
  {
    hide Read, ReadList;
  }

  lemma ListFits(ws: seq<int>, b: seq<Byte>)
    requires Operands(ws, b).Some? && ws != [] && ws[0] <= 0
    ensures b != [] && 1 + Times(b[0], -ws[0]) <= |b|
  {
    hide Read, ReadList, Times;
  }

  lemma SplitListed(ws: seq<int>, b: seq<Byte>) returns (list: seq<Byte>, rest: seq<Byte>)
    requires Operands(ws, b).Some? && ws != [] && ws[0] <= 0
    ensures b != [] && |list| == Times(b[0], -ws[0]) && b == [b[0]] + list + rest && rest == b[1 + |list|..]
    ensures Operands(ws[1..], rest).Some?
    ensures Operands(ws, b).value == [b[0] as nat] + ReadList(list, b[0], -ws[0]) + Operands(ws[1..], rest).value
  {
    hide Read, ReadList, Operands, Times;
    ListFits(ws, b);
    var size := Times(b[0], -ws[0]);
    list, rest := b[1..1 + size], b[1 + size..];
    assert b == [b[0]] + list + rest;
    OneList(ws, b[0], list, rest);
  }

  lemma {:induction false} SetFixed(ws: seq<int>, b: seq<Byte>, index: nat, v: nat)
    requires ws != [] && ws[0] > 0 && Operands(ws, b).Some? && Slot(ws, b, index).Some? && !Slot(ws, b, index).value.2
    requires Slot(ws, b, index).value.0 + Slot(ws, b, index).value.1 <= |b| && index < |Operands(ws, b).value|
    ensures var s := Slot(ws, b, index).value;
            Operands(ws, Patch(b, s.0, v, s.1)) == Some(Operands(ws, b).value[index := LowBits(v, 8 * s.1)])
    decreases ws, 0
  {
    hide LowBits, Read, Bytes, ReadList, Operands;
    SplitFixed(ws, b);
    var s := Slot(ws, b, index).value;
    var b', x, rest := Patch(b, s.0, v, s.1), b[..ws[0]], b[ws[0]..];
    if index == 0 {
      assert b' == Bytes(v, ws[0]) + rest;
      OneField(ws, Bytes(v, ws[0]), rest);
      ReadsBack(v, ws[0]);
      UpdateLeft([Read(x)], Operands(ws[1..], rest).value, 0, LowBits(v, 8 * s.1));
      assert [Read(x)][0 := LowBits(v, 8 * s.1)] == [LowBits(v, 8 * s.1)];
    } else {
      SlotInside(ws[1..], rest, index - 1);
      var o := Slot(ws[1..], rest, index - 1).value.0;
      assert b' == x + Patch(rest, o, v, s.1);
      OneField(ws, x, Patch(rest, o, v, s.1));
      SetReads(ws[1..], rest, index - 1, v);
      UpdateRight([Read(x)], Operands(ws[1..], rest).value, index, LowBits(v, 8 * s.1));
    }
  }

  lemma {:induction false} SetListed(ws: seq<int>, b: seq<Byte>, index: nat, v: nat)
    requires ws != [] && ws[0] <= 0 && Operands(ws, b).Some? && Slot(ws, b, index).Some? && !Slot(ws, b, index).value.2
    requires Slot(ws, b, index).value.0 + Slot(ws, b, index).value.1 <= |b| && index < |Operands(ws, b).value|
    ensures var s := Slot(ws, b, index).value;
            Operands(ws, Patch(b, s.0, v, s.1)) == Some(Operands(ws, b).value[index := LowBits(v, 8 * s.1)])
    decreases ws, 0
  {
    hide LowBits, Read, Bytes, ReadList, Operands;
    var list, rest := SplitListed(ws, b);
    var n, w: nat := b[0], -ws[0];
    var more := Operands(ws[1..], rest).value;
    if index <= n {
      Within(index - 1, n, w);
      SetInList(ws, n, list, rest, index, v, more);
      PatchList(b, list, rest, Times(index - 1, w), v, w);
    } else {
      var s := Slot(ws[1..], rest, index - 1 - n).value;
      SlotInside(ws[1..], rest, index - 1 - n);
      SetReads(ws[1..], rest, index - 1 - n, v);
      SetAfterList(ws, n, list, rest, index, LowBits(v, 8 * s.1), more, Patch(rest, s.0, v, s.1));
      PatchRest(b, list, rest, s.0, v, s.1);
    }
  }

  lemma SetInList(ws: seq<int>, n: Byte, list: seq<Byte>, rest: seq<Byte>, index: nat, v: nat, more: seq<nat>)
    requires ws != [] && ws[0] <= 0 && |list| == Times(n, -ws[0]) && 0 < index <= n
    requires Operands(ws[1..], rest) == Some(more)
    requires Times(index - 1, -ws[0]) + -ws[0] <= |list|
    ensures Operands(ws, [n] + Patch(list, Times(index - 1, -ws[0]), v, -ws[0]) + rest) ==
              Some(([n as nat] + ReadList(list, n, -ws[0]) + more)[index := LowBits(v, 8 * -ws[0])])
  {
    hide LowBits, Read, Bytes, ReadList, Operands, Patch;
    var w: nat := -ws[0];
    OneList(ws, n, Patch(list, Times(index - 1, w), v, w), rest);
    ListPatched(list, n, w, index - 1, v);
    UpdateRight([n as nat], ReadList(list, n, w), index, LowBits(v, 8 * w));
    UpdateLeft([n as nat] + ReadList(list, n, w), more, index, LowBits(v, 8 * w));
  }

  lemma SetAfterList(ws: seq<int>, n: Byte, list: seq<Byte>, rest: seq<Byte>, index: nat, v: nat, more: seq<nat>,
                     rest': seq<Byte>)
    requires ws != [] && ws[0] <= 0 && |list| == Times(n, -ws[0]) && n < index < 1 + n + |more|
    requires Operands(ws[1..], rest) == Some(more)
    requires Operands(ws[1..], rest') == Some(more[index - 1 - n := v])
    ensures Operands(ws, [n] + list + rest') == Some(([n as nat] + ReadList(list, n, -ws[0]) + more)[index := v])
  {
    hide LowBits, Read, Bytes, ReadList, Operands, Patch;
    OneList(ws, n, list, rest');
    UpdateRight([n as nat] + ReadList(list, n, -ws[0]), more, index, v);
  }

  lemma PatchList(b: seq<Byte>, list: seq<Byte>, rest: seq<Byte>, o: nat, v: nat, w: nat)
    requires b != [] && b == [b[0]] + list + rest && o + w <= |list|
    ensures Patch(b, 1 + o, v, w) == [b[0]] + Patch(list, o, v, w) + rest
  {
  }

  lemma PatchRest(b: seq<Byte>, list: seq<Byte>, rest: seq<Byte>, o: nat, v: nat, w: nat)
    requires b != [] && b == [b[0]] + list + rest && o + w <= |rest|
    ensures Patch(b, 1 + |list| + o, v, w) == [b[0]] + list + Patch(rest, o, v, w)
  {
  }

  lemma UpdateRight(p: seq<nat>, r: seq<nat>, i: nat, v: nat)
    requires |p| <= i < |p| + |r|
    ensures (p + r)[i := v] == p + r[i - |p| := v]
  {
  }

  lemma UpdateLeft(p: seq<nat>, r: seq<nat>, i: nat, v: nat)
    requires i < |p|
    ensures (p + r)[i := v] == p[i := v] + r
  {
  }

  lemma {:induction false} TimesIs(n: nat, w: nat)
    ensures Times(n, w) == n * w
  {
    if n > 0 {
      TimesIs(n - 1, w);
      assert n * w == w + (n - 1) * w;
    }
  }

  /** Field k, and the operand bytes from it on. */
  lemma FieldsAt(ws: seq<int>, vs: seq<nat>, k: nat, idx: nat)
    requires k < |ws| && idx <= |vs| && Enough(ws[k..], vs[idx..])
    ensures idx < |vs|
    ensures ws[k] > 0 ==>
              && Enough(ws[k + 1..], vs[idx + 1..])
              && Fields(ws[k..], vs[idx..]) == ListBytes(vs[idx..idx + 1], ws[k]) + Fields(ws[k + 1..], vs[idx + 1..])
    ensures ws[k] <= 0 ==>
              var n := vs[idx];
              && idx + 1 + n <= |vs| && Enough(ws[k + 1..], vs[idx + 1 + n..])
              && Fields(ws[k..], vs[idx..]) ==
                 [n % 256] + ListBytes(vs[idx + 1..idx + 1 + n], -ws[k]) + Fields(ws[k + 1..], vs[idx + 1 + n..])
  {
    hide Bytes, ListBytes, Fields, Enough;
    FirstEnough(ws[k..], vs[idx..]);
    assert ws[k..][1..] == ws[k + 1..];
    if ws[k] > 0 {
      assert vs[idx..][1..] == vs[idx + 1..];
      FixedFields(ws[k..], vs[idx..]);
      OneBytes(vs, idx, ws[k]);
    } else {
      var n := vs[idx];
      assert vs[idx..][1..1 + n] == vs[idx + 1..idx + 1 + n] && vs[idx..][1 + n..] == vs[idx + 1 + n..];
      CountedFields(ws[k..], vs[idx..]);
    }
  }

  lemma FirstEnough(ws: seq<int>, vs: seq<nat>)
    requires Enough(ws, vs) && ws != []
    ensures vs != [] && (ws[0] > 0 ==> Enough(ws[1..], vs[1..]))
    ensures ws[0] <= 0 ==> 1 + vs[0] <= |vs| && Enough(ws[1..], vs[1 + vs[0]..])
  {
  }

  lemma FixedFields(ws: seq<int>, vs: seq<nat>)
    requires Enough(ws, vs) && ws != [] && ws[0] > 0 && vs != [] && Enough(ws[1..], vs[1..])
    ensures Fields(ws, vs) == Bytes(vs[0], ws[0]) + Fields(ws[1..], vs[1..])
  {
    hide Bytes, ListBytes, Enough;
  }

  lemma CountedFields(ws: seq<int>, vs: seq<nat>)
    requires Enough(ws, vs) && ws != [] && ws[0] <= 0 && vs != [] && 1 + vs[0] <= |vs|
    requires Enough(ws[1..], vs[1 + vs[0]..])
    ensures Fields(ws, vs) ==
              [vs[0] % 256] + ListBytes(vs[1..1 + vs[0]], -ws[0]) + Fields(ws[1..], vs[1 + vs[0]..])
  {
    hide Bytes, ListBytes, Enough;
  }

  lemma OneBytes(vs: seq<nat>, idx: nat, w: nat)
    requires idx < |vs|
    ensures ListBytes(vs[idx..idx + 1], w) == Bytes(vs[idx], w)
  {
    hide Bytes;
    assert vs[idx..idx + 1] == [vs[idx]];
    assert ListBytes([vs[idx]], w) == Bytes(vs[idx], w) + ListBytes([], w);
  }

  /** Writes an operand. */
  method Put(code: array<Byte>, offset: nat, v: nat, w: nat)
    requires offset + w <= code.Length
    modifies code
    ensures code[..] == old(code[..offset]) + Bytes(v, w) + old(code[offset + w..])
  {
    var rest := v;
    for i := 0 to w
      invariant code[..offset] == old(code[..offset]) && code[offset + i..] == old(code[offset + i..])
      invariant code[offset..offset + i] + Bytes(rest, w - i) == Bytes(v, w)
    {
      ghost var before := code[offset..offset + i];
      code[offset + i] := rest % 256;
      assert code[offset..offset + i + 1] == before + [rest % 256];
      rest := rest / 256;
    }
    assert code[..] == code[..offset] + code[offset..offset + w] + code[offset + w..];
  }

  /** The bytes an instruction takes. */
  method Measure(ws: seq<int>, vs: seq<nat>) returns (width: nat)
    requires Sound(ws) && Enough(ws, vs)
    ensures width == 1 + |Fields(ws, vs)|
  {
    hide ListBytes, Fields, Enough;
    var idx := 0;
    width := 1;
    assert ws[0..] == ws && vs[0..] == vs;
    for k := 0 to |ws|
      invariant 0 <= idx <= |vs| && Enough(ws[k..], vs[idx..])
      invariant width + |Fields(ws[k..], vs[idx..])| == 1 + |Fields(ws, vs)|
    {
      FieldsAt(ws, vs, k, idx);
      var w := ws[k];
      if w > 0 {
        TimesIs(1, w);
        width, idx := width + w, idx + 1;
      } else {
        var count := vs[idx];
        TimesIs(count, -w);
        width, idx := width + 1 + count * -w, idx + count + 1;
      }
    }
    NothingLeft(ws, vs, idx);
  }

  lemma NothingLeft(ws: seq<int>, vs: seq<nat>, idx: nat)
    requires idx <= |vs| && Enough(ws[|ws|..], vs[idx..])
    ensures Fields(ws[|ws|..], vs[idx..]) == []
  {
  }

  /** Writes operands idx to count - 1, each of w bytes. */
  method PutList(code: array<Byte>, start: nat, vs: seq<nat>, first: nat, count: nat, w: nat) returns (offset: nat)
    requires first <= count <= |vs| && start + |ListBytes(vs[first..count], w)| <= code.Length
    modifies code
    ensures offset == start + |ListBytes(vs[first..count], w)|
    ensures code[..offset] == old(code[..start]) + ListBytes(vs[first..count], w)
  {
    hide Bytes, ListBytes;
    offset := start;
    var idx := first;
    while idx < count
      invariant first <= idx <= count && start <= offset <= code.Length
      invariant offset + |ListBytes(vs[idx..count], w)| <= code.Length
      invariant code[..offset] + ListBytes(vs[idx..count], w) == old(code[..start]) + ListBytes(vs[first..count], w)
    {
      NextBytes(vs, idx, count, w);
      ghost var before := code[..offset];
      Put(code, offset, vs[idx], w);
      assert code[..offset + w] == before + Bytes(vs[idx], w);
      offset, idx := offset + w, idx + 1;
    }
    NoBytes(vs, count, w);
  }

  /** Builds an instruction. */
  method New(op: Byte, ws: seq<int>, vs: seq<nat>) returns (code: array<Byte>)
    requires Sound(ws) && Enough(ws, vs)
    ensures fresh(code) && code[..] == [op] + Fields(ws, vs)
  {
    hide Fields, Enough, Bytes, ListBytes;
    var width := Measure(ws, vs);
    code := new Byte[width](_ => 0);
    code[0] := op;
    var offset, idx := 1, 0;
    assert ws[0..] == ws && vs[0..] == vs && code[..1] == [op];
    for k := 0 to |ws|
      invariant 0 <= idx <= |vs| && Enough(ws[k..], vs[idx..]) && 1 <= offset <= code.Length == width
      invariant code[..offset] + Fields(ws[k..], vs[idx..]) == [op] + Fields(ws, vs)
    {
      FieldsAt(ws, vs, k, idx);
      var w, count := ws[k], idx + 1;
      ghost var before := code[..offset];
      if w < 0 {
        code[offset] := vs[idx] % 256;
        assert code[..offset + 1] == before + [vs[idx] % 256];
        count := count + vs[idx];
        w := -w;
        offset, idx := offset + 1, idx + 1;
      }
      offset := PutList(code, offset, vs, idx, count, w);
      idx := count;
    }
    NothingLeft(ws, vs, idx);
    assert code[..offset] == code[..];
  }

  lemma NextBytes(vs: seq<nat>, idx: nat, count: nat, w: nat)
    requires idx < count <= |vs|
    ensures ListBytes(vs[idx..count], w) == Bytes(vs[idx], w) + ListBytes(vs[idx + 1..count], w)
  {
    hide Bytes;
    assert vs[idx..count][1..] == vs[idx + 1..count];
  }

  lemma NoBytes(vs: seq<nat>, count: nat, w: nat)
    requires count <= |vs|
    ensures ListBytes(vs[count..count], w) == []
  {
  }

  /** Field k of an instruction's operand bytes b, from byte `at` on. */
  lemma OperandsAt(ws: seq<int>, b: seq<Byte>, k: nat, at: nat)
    requires k < |ws| && at <= |b| && Operands(ws[k..], b[at..]).Some?
    ensures ws[k] > 0 ==>
              && at + ws[k] <= |b| && Operands(ws[k + 1..], b[at + ws[k]..]).Some?
              && Operands(ws[k..], b[at..]).value ==
                 ReadList(b[at..], 1, ws[k]) + Operands(ws[k + 1..], b[at + ws[k]..]).value
    ensures ws[k] <= 0 ==>
              && at < |b| && at + 1 + Times(b[at], -ws[k]) <= |b|
              && Operands(ws[k + 1..], b[at + 1 + Times(b[at], -ws[k])..]).Some?
              && Operands(ws[k..], b[at..]).value ==
                   [b[at] as nat] + ReadList(b[at + 1..], b[at], -ws[k]) + Operands(ws[k + 1..],
                       b[at + 1 + Times(b[at], -ws[k])..]).value
  {
    hide Read;
    assert ws[k..][1..] == ws[k + 1..];
    if ws[k] > 0 {
      assert b[at..][ws[k]..] == b[at + ws[k]..];
      OneRead(b[at..], ws[k]);
    } else {
      assert b[at..][1..] == b[at + 1..] && b[at..][1 + Times(b[at], -ws[k])..] == b[at + 1 + Times(b[at], -ws[k])..];
    }
  }

  lemma OneRead(b: seq<Byte>, w: nat)
    requires w <= |b|
    ensures Times(1, w) == w && ReadList(b, 1, w) == [Read(b[..w])]
  {
    hide Read;
  }

  /** Reads n operands of w bytes from byte `start` on. */
  method ReadSome(b: seq<Byte>, start: nat, n: nat, w: nat) returns (r: seq<nat>, at: nat)
    requires start <= |b| && start + Times(n, w) <= |b|
    ensures r == ReadList(b[start..], n, w) && at == start + Times(n, w)
  {
    hide Read;
    r, at := [], start;
    for i := 0 to n
      invariant start <= at && at + Times(n - i, w) == start + Times(n, w)
      invariant r + ReadList(b[at..], n - i, w) == ReadList(b[start..], n, w)
    {
      assert b[at..][w..] == b[at + w..] && b[at..][..w] == b[at..at + w];
      r := r + [Read(b[at..at + w])];
      at := at + w;
    }
  }

  /** An instruction's operands. */
  method OperandsOf(inst: seq<Byte>, ws: seq<int>) returns (r: seq<nat>)
    requires Sound(ws) && inst != [] && Operands(ws, inst[1..]).Some?
    ensures r == Operands(ws, inst[1..]).value
  {
    hide Read, ReadList, Operands, Times;
    var b := inst[1..];
    var at: nat := 0;
    r := [];
    assert ws[0..] == ws && b[0..] == b;
    for k := 0 to |ws|
      invariant at <= |b| && Operands(ws[k..], b[at..]).Some?
      invariant r + Operands(ws[k..], b[at..]).value == Operands(ws, b).value
    {
      OperandsAt(ws, b, k, at);
      var w, count := ws[k], 1;
      if w < 0 {
        r := r + [b[at]];
        count := b[at];
        w := -w;
        at := at + 1;
      } else {
        OneRead(b[at..], w);
      }
      var list;
      list, at := ReadSome(b, at, count, w);
      r := r + list;
    }
    assert ws[|ws|..] == [];
    NoFields(b[at..]);
  }

  /** The operand with this number, in the fields from k on. */
  lemma SlotAt(ws: seq<int>, b: seq<Byte>, k: nat, at: nat, d: nat)
    requires k < |ws| && at <= |b| && Operands(ws[k..], b[at..]).Some?
    ensures ws[k] > 0 ==>
              && at + ws[k] <= |b| && Operands(ws[k + 1..], b[at + ws[k]..]).Some?
              && Slot(ws[k..], b[at..], d) ==
                   if d == 0 then Some((0, ws[k], false)) else Later(ws[k], Slot(ws[k + 1..], b[at + ws[k]..], d - 1))
    ensures ws[k] <= 0 ==>
              && at < |b| && at + 1 + Times(b[at], -ws[k]) <= |b|
              && var n, w: nat := b[at], -ws[k];
                 && Operands(ws[k + 1..], b[at + 1 + Times(n, w)..]).Some?
                 && Slot(ws[k..], b[at..], d) ==
                      if d == 0 then Some((0, 1, true))
                      else if d <= n then Some((1 + Times(d - 1, w), w, false))
                      else Later(1 + Times(n, w), Slot(ws[k + 1..], b[at + 1 + Times(n, w)..], d - 1 - n))
  {
    hide Operands;
    OperandsAt(ws, b, k, at);
    assert ws[k..][1..] == ws[k + 1..];
    if ws[k] > 0 {
      assert b[at..][ws[k]..] == b[at + ws[k]..];
    } else {
      assert b[at..][1 + Times(b[at], -ws[k])..] == b[at + 1 + Times(b[at], -ws[k])..];
    }
  }

  lemma LaterTwice(m: nat, n: nat, slot: Option<(nat, nat, bool)>)
    ensures Later(m, Later(n, slot)) == Later(m + n, slot) && Later(0, slot) == slot
  {
  }

  /** Overwrites operand bytes. */
  method Write(i: array<Byte>, o: nat, v: nat, w: nat)
    requires 1 + o + w <= i.Length
    modifies i
    ensures i[0] == old(i[0]) && i[1..] == Patch(old(i[1..]), o, v, w)
  {
    hide Bytes;
    Put(i, 1 + o, v, w);
    assert i[..][0] == old(i[..1 + o])[0];
    assert i[1..] == i[..][1..];
  }

  ghost predicate SlotFits(slot: Option<(nat, nat, bool)>, size: nat) {
    slot.Some? ==> slot.value.0 + slot.value.1 <= size
  }

  lemma LaterIs(n: nat, o: nat, w: nat, c: bool)
    ensures Later(n, Some((o, w, c))) == Some((n + o, w, c))
  {
  }

  /** Overwrites operand `index` if it is in field k. */
  method SetIn(i: array<Byte>, ws: seq<int>, k: nat, start: nat, first: nat, index: nat, value: nat)
               returns (done: bool, at: nat, idx: nat)
    requires Sound(ws) && i.Length > 0 && Operands(ws, i[1..]).Some? && k < |ws| && start < i.Length
    requires Operands(ws[k..], i[1..][start..]).Some? && first <= index
    requires Slot(ws, i[1..], index) == Later(start, Slot(ws[k..], i[1..][start..], index - first))
    requires SlotFits(Slot(ws, i[1..], index), |i[1..]|)
    modifies i
    ensures i[0] == old(i[0])
    ensures done ==>
              var b := old(i[1..]); var s := Slot(ws, b, index);
              s.Some? && s.value.0 + s.value.1 <= |b| && i[1..] == Patch(b, s.value.0, value, s.value.1)
    ensures !done ==>
              && i[..] == old(i[..]) && at < i.Length && Operands(ws[k + 1..], i[1..][at..]).Some? && idx <= index
              && Slot(ws, i[1..], index) == Later(at, Slot(ws[k + 1..], i[1..][at..], index - idx))
  {
    hide Operands, Slot, Bytes, Times, Patch, Later;
    ghost var b := i[1..];
    SlotAt(ws, b, k, start, index - first);
    at, idx, done := start, first, true;
    var w, count := ws[k], first + 1;
    if w < 0 {
      LaterIs(start, 0, 1, true);
      if index == first {
        Write(i, at, value, 1);
        return;
      }
      assert i[1 + at] == b[at];
      count := count + i[1 + at] as nat;
      w := -w;
      at, idx := at + 1, idx + 1;
    }
    if index < count {
      HereIs(ws[k], w, start, at, index - first, index - idx);
      Write(i, at + (index - idx) * w, value, w);
      return;
    }
    PastIs(ws[k], w, start, at, count - idx);
    PastField(ws, b, k, start, index - first);
    done := false;
    at := at + w * (count - idx);
    idx := count;
    assert i[1..] == b;
  }

  lemma PastIs(width: int, w: nat, start: nat, at: nat, n: nat)
    requires if width > 0 then w == width && at == start && n == 1 else w == -width && at == start + 1
    ensures at + w * n == if width > 0 then start + width else start + 1 + Times(n, -width)
  {
    hide Times;
    TimesIs(n, w);
  }

  /** Where operand e of a field of width w stands. */
  lemma HereIs(width: int, w: nat, start: nat, at: nat, d: nat, e: nat)
    requires if width > 0 then w == width && at == start && d == 0 == e
      else w == -width && at == start + 1 && d == e + 1
    ensures if width > 0 then Later(start, Some((0, w, false))) == Some((at + e * w, w, false))
            else Later(start, Some((1 + Times(d - 1, w), w, false))) == Some((at + e * w, w, false))
  {
    hide Times;
    TimesIs(e, w);
  }

  /** The operands after field k. */
  lemma PastField(ws: seq<int>, b: seq<Byte>, k: nat, at: nat, d: nat)
    requires k < |ws| && at <= |b| && Operands(ws[k..], b[at..]).Some?
    ensures ws[k] > 0 && d > 0 ==>
              && Times(1, ws[k]) == ws[k] && at + ws[k] <= |b| && Operands(ws[k + 1..], b[at + ws[k]..]).Some?
              && Later(at, Slot(ws[k..], b[at..], d)) == Later(at + ws[k], Slot(ws[k + 1..], b[at + ws[k]..], d - 1))
    ensures ws[k] <= 0 && at < |b| && d > b[at] ==>
              && at + 1 + Times(b[at], -ws[k]) <= |b| && Operands(ws[k + 1..], b[at + 1 + Times(b[at], -ws[k])..]).Some?
              && Later(at, Slot(ws[k..], b[at..], d)) ==
                   Later(at + 1 + Times(b[at], -ws[k]),
                       Slot(ws[k + 1..], b[at + 1 + Times(b[at], -ws[k])..], d - 1 - b[at]))
  {
    hide Operands, Slot;
    SlotAt(ws, b, k, at, d);
    if ws[k] > 0 && d > 0 {
      TimesIs(1, ws[k]);
      LaterTwice(at, ws[k], Slot(ws[k + 1..], b[at + ws[k]..], d - 1));
    } else if ws[k] <= 0 && d > b[at] {
      LaterTwice(at, 1 + Times(b[at], -ws[k]), Slot(ws[k + 1..], b[at + 1 + Times(b[at], -ws[k])..], d - 1 - b[at]));
    }
  }

  /** Overwrites one operand of an instruction; does nothing when there is none with this number. */
  method SetOperand(i: array<Byte>, ws: seq<int>, index: nat, value: nat)
    requires Sound(ws) && i.Length > 0 && Operands(ws, i[1..]).Some?
    modifies i
    ensures i[0] == old(i[0])
    ensures match Slot(ws, old(i[1..]), index)
            case None => i[1..] == old(i[1..])
            case Some(s) => s.0 + s.1 <= |old(i[1..])| && i[1..] == Patch(old(i[1..]), s.0, value, s.1)
  {
    hide Operands, Slot, Bytes, Times, Patch, Later;
    var at: nat, idx: nat := 0, 0;
    assert ws[0..] == ws && i[1..][0..] == i[1..];
    SlotInside(ws, i[1..], index);
    LaterTwice(0, 0, Slot(ws, i[1..], index));
    for k := 0 to |ws|
      invariant i[..] == old(i[..]) && at < i.Length && Operands(ws[k..], i[1..][at..]).Some?
      invariant idx <= index && Slot(ws, i[1..], index) == Later(at, Slot(ws[k..], i[1..][at..], index - idx))
    {
      var done;
      assert i[1..] == i[..][1..] && i[1..] == old(i[1..]);
      done, at, idx := SetIn(i, ws, k, at, idx, index, value);
      if done {
        return;
      }
    }
    assert ws[|ws|..] == [];
    NoSlot(i[1..][at..], index - idx, at);
    assert i[1..] == i[..][1..];
  }

  lemma NoSlot(b: seq<Byte>, index: nat, at: nat)
    ensures Operands([], b).Some? && Later(at, Slot([], b, index)) == None
  {
  }
}
