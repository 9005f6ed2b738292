/** The assembler's last stage: encoding with branch relaxation to a fixpoint. */
module Assembly {
  import opened Arm64

  type Labels = map<int, int>

  /** Every label is bound to an instruction or to the end. */
  ghost predicate Bound(insts: seq<Inst>, labels: Labels) {
    forall l :: l in labels ==> 0 <= labels[l] <= |insts|
  }

  /** The byte offset of instruction i. */
  ghost function Offset(insts: seq<Inst>, i: nat): nat
    requires i <= |insts|
  {
    if i == 0 then 0 else Offset(insts, i - 1) + (if insts[i - 1].op.Use? then 0 else 4)
  }

  lemma {:induction false} OffsetMonotone(insts: seq<Inst>, i: nat, j: nat)
    requires i <= j <= |insts|
    ensures Offset(insts, i) <= Offset(insts, j) && Offset(insts, i) % 4 == 0
    ensures i < j && !insts[i].op.Use? ==> Offset(insts, i) + 4 <= Offset(insts, j)
    decreases j
  {
    if i < j {
      OffsetMonotone(insts, i, j - 1);
    } else if i > 0 {
      OffsetMonotone(insts, i - 1, i - 1);
    }
  }

  ghost predicate Measured(insts: seq<Inst>, offsets: seq<int>) {
    |offsets| == |insts| + 1 && forall i :: 0 <= i <= |insts| ==> offsets[i] == Offset(insts, i)
  }

  /** Label operands read as zero while widths are measured. */
  function Placeholder(i: Inst): Inst {
    if i.src2.Label? then i.(src2 := Imm(0)) else i
  }

  ghost predicate Drafts(insts: seq<Inst>, n: int) {
    forall i :: 0 <= i < |insts| && i < n && !insts[i].op.Use? ==> Encode(Placeholder(insts[i])).Some?
  }

  ghost predicate DraftOf(insts: seq<Inst>, draft: seq<seq<Byte>>) {
    && |draft| == |insts|
    && forall i :: 0 <= i < |insts| ==>
         draft[i] == if insts[i].op.Use? then []
             else (match Encode(Placeholder(insts[i])) case Some(b) => b case None => [])
  }

  method Draft(insts: seq<Inst>) returns (ok: bool, draft: seq<seq<Byte>>, offsets: seq<int>)
    ensures ok <==> Drafts(insts, |insts|)
    ensures ok ==> DraftOf(insts, draft) && Measured(insts, offsets)
  {
    hide Encode;
    draft, offsets := [], [0];
    for i := 0 to |insts|
      invariant |draft| == i && |offsets| == i + 1 && Drafts(insts, i)
      invariant forall j :: 0 <= j <= i ==> offsets[j] == Offset(insts, j)
      invariant forall j :: 0 <= j < i ==>
                  draft[j] == if insts[j].op.Use? then []
                      else (match Encode(Placeholder(insts[j])) case Some(b) => b case None => [])
    {
      if insts[i].op.Use? {
        draft, offsets := draft + [[]], offsets + [offsets[i]];
        continue;
      }
      var bytes := Encode(Placeholder(insts[i]));
      if bytes.None? {
        return false, draft, offsets;
      }
      draft, offsets := draft + [bytes.value], offsets + [offsets[i] + |bytes.value|];
    }
    ok := true;
  }

  /** The distance from instruction i to its label. */
  ghost function Distance(insts: seq<Inst>, labels: Labels, i: int): int
    requires Bound(insts, labels) && 0 <= i < |insts| && insts[i].src2.Label? && insts[i].src2.id in labels
  {
    Offset(insts, labels[insts[i].src2.id]) - Offset(insts, i)
  }

  /** What relaxation would put in place of instruction i. */
  ghost function Pick(insts: seq<Inst>, labels: Labels, i: int): Option<seq<Inst>>
    requires Bound(insts, labels) && 0 <= i < |insts|
  {
    if insts[i].src2.Label? && insts[i].src2.id in labels then Relax(insts[i], Distance(insts, labels, i)) else None
  }

  /** at and repl are the picks among the first n instructions, in order. */
  ghost predicate Collected(insts: seq<Inst>, labels: Labels, n: int, at: seq<int>, repl: seq<seq<Inst>>)
    requires Bound(insts, labels)
  {
    && |at| == |repl|
    && (forall k :: 0 <= k < |at| ==> 0 <= at[k] < |insts| && at[k] < n && Pick(insts, labels, at[k]) == Some(repl[k]))
    && (forall j, k :: 0 <= j < k < |at| ==> at[j] < at[k])
    && (forall i :: 0 <= i < |insts| && i < n && Pick(insts, labels, i).Some? ==> i in at)
  }

  method Collect(insts: seq<Inst>, labels: Labels, offsets: seq<int>) returns (at: seq<int>, repl: seq<seq<Inst>>)
    requires Bound(insts, labels) && Measured(insts, offsets)
    ensures Collected(insts, labels, |insts|, at, repl)
  {
    hide Relax, Offset;
    at, repl := [], [];
    for i := 0 to |insts|
      invariant Collected(insts, labels, i, at, repl)
    {
      ghost var before := at;
      if insts[i].src2.Label? && insts[i].src2.id in labels {
        var r := Relax(insts[i], offsets[labels[insts[i].src2.id]] - offsets[i]);
        assert r == Pick(insts, labels, i);
        if r.Some? {
          at, repl := at + [i], repl + [r.value];
        }
      }
      assert forall x :: x in before ==> x in at;
      assert Pick(insts, labels, i).Some? ==> i in at;
    }
  }

  /** The first n instructions with every pick spliced in. */
  ghost function Expand(insts: seq<Inst>, labels: Labels, n: nat): seq<Inst>
    requires Bound(insts, labels) && n <= |insts|
  {
    if n == 0 then []
    else Expand(insts, labels, n - 1) +
         (match Pick(insts, labels, n - 1) case Some(r) => r case None => [insts[n - 1]])
  }

  /** Where instruction i goes. */
  ghost function Place(insts: seq<Inst>, labels: Labels, i: nat): nat
    requires Bound(insts, labels) && i <= |insts|
  {
    |Expand(insts, labels, i)|
  }

  lemma {:induction false} ExpandPrefix(insts: seq<Inst>, labels: Labels, i: nat, n: nat)
    requires Bound(insts, labels) && i <= n <= |insts|
    ensures Place(insts, labels, i) <= Place(insts, labels, n)
    ensures Expand(insts, labels, n)[..Place(insts, labels, i)] == Expand(insts, labels, i)
    decreases n
  {
    if i < n {
      ExpandPrefix(insts, labels, i, n - 1);
      var m, all := Place(insts, labels, i), Expand(insts, labels, n);
      assert all[..m] == Expand(insts, labels, n - 1)[..m];
    }
  }

  /** Extra instructions before instruction n. */
  ghost function Extra(insts: seq<Inst>, labels: Labels, n: nat): int
    requires Bound(insts, labels) && n <= |insts|
  {
    Place(insts, labels, n) - n
  }

  /** How far each instruction moves. */
  method Shifts(insts: seq<Inst>, labels: Labels, at: seq<int>, repl: seq<seq<Inst>>) returns (shift: seq<int>)
    requires Bound(insts, labels) && Collected(insts, labels, |insts|, at, repl)
    ensures |shift| == |insts| + 1 && forall i :: 0 <= i <= |insts| ==> shift[i] == Extra(insts, labels, i)
  {
    hide Pick, Expand;
    var s := seq(|insts| + 1, _ => 0);
    for k := 0 to |at|
      invariant |s| == |insts| + 1
      invariant forall i :: 0 <= i <= |insts| ==> s[i] == 0 || i - 1 in at[..k]
      invariant forall j :: 0 <= j < k ==> s[at[j] + 1] == |repl[j]| - 1
    {
      s := s[at[k] + 1 := |repl[k]| - 1];
      assert at[..k + 1] == at[..k] + [at[k]];
    }
    assert at[..|at|] == at;
    ShiftsAre(insts, labels, at, repl, s);
    ExtraNone(insts, labels);
    for i := 0 to |insts|
      invariant |s| == |insts| + 1
      invariant forall j :: 0 <= j <= i ==> s[j] == Extra(insts, labels, j)
      invariant forall j :: i < j <= |insts| ==> s[j] == Grown(insts, labels, j - 1)
    {
      ExtraNext(insts, labels, i);
      s := s[i + 1 := s[i + 1] + s[i]];
    }
    shift := s;
  }

  lemma ExtraNone(insts: seq<Inst>, labels: Labels)
    requires Bound(insts, labels)
    ensures Extra(insts, labels, 0) == 0
  {
  }

  lemma ExtraNext(insts: seq<Inst>, labels: Labels, i: nat)
    requires Bound(insts, labels) && i < |insts|
    ensures Extra(insts, labels, i + 1) == Extra(insts, labels, i) + Grown(insts, labels, i)
  {
    hide Pick;
  }

  /** Rebuilds the list with the picks spliced in, and rebases the labels. */
  method Splice(insts: seq<Inst>, labels: Labels, at: seq<int>, repl: seq<seq<Inst>>)
                returns (out: seq<Inst>, rebased: Labels)
    requires Bound(insts, labels) && Collected(insts, labels, |insts|, at, repl)
    ensures out == Expand(insts, labels, |insts|)
    ensures rebased.Keys == labels.Keys && forall l :: l in labels ==> rebased[l] == Place(insts, labels, labels[l])
  {
    hide Pick, Collected;
    var shift := Shifts(insts, labels, at, repl);
    SizesMatch(insts, labels, at, repl);
    out := [];
    var k := 0;
    for i := 0 to |insts|
      invariant 0 <= k <= |at| && out == Expand(insts, labels, i)
      invariant (forall j :: 0 <= j < k ==> at[j] < i) && forall j :: k <= j < |at| ==> at[j] >= i
    {
      NextPick(insts, labels, at, repl, k, i);
      if k < |at| && at[k] == i {
        out := out + repl[k];
        k := k + 1;
      } else {
        out := out + [insts[i]];
      }
    }
    rebased := map l | l in labels :: labels[l] + shift[labels[l]];
  }

  lemma SizesMatch(insts: seq<Inst>, labels: Labels, at: seq<int>, repl: seq<seq<Inst>>)
    requires Bound(insts, labels) && Collected(insts, labels, |insts|, at, repl)
    ensures |at| == |repl| && forall k :: 0 <= k < |at| ==> 0 <= at[k] < |insts|
  {
    hide Pick;
  }

  /** How much instruction i grows. */
  ghost function Grown(insts: seq<Inst>, labels: Labels, i: int): int
    requires Bound(insts, labels) && 0 <= i < |insts|
  {
    match Pick(insts, labels, i) case Some(r) => |r| - 1 case None => 0
  }

  lemma ShiftsAre(insts: seq<Inst>, labels: Labels, at: seq<int>, repl: seq<seq<Inst>>, shift: seq<int>)
    requires Bound(insts, labels) && Collected(insts, labels, |insts|, at, repl) && |shift| == |insts| + 1
    requires forall i :: 0 <= i <= |insts| ==> shift[i] == 0 || i - 1 in at
    requires forall j :: 0 <= j < |at| ==> shift[at[j] + 1] == |repl[j]| - 1
    ensures shift[0] == 0 && forall i :: 0 < i <= |insts| ==> shift[i] == Grown(insts, labels, i - 1)
  {
    hide Pick;
    forall i | 0 < i <= |insts|
      ensures shift[i] == Grown(insts, labels, i - 1)
    {
      if i - 1 in at {
        var j :| 0 <= j < |at| && at[j] == i - 1;
        assert shift[at[j] + 1] == |repl[j]| - 1;
      } else {
        assert Pick(insts, labels, i - 1).None?;
      }
    }
    assert -1 !in at;
  }

  lemma NextPick(insts: seq<Inst>, labels: Labels, at: seq<int>, repl: seq<seq<Inst>>, k: int, i: int)
    requires Bound(insts, labels) && Collected(insts, labels, |insts|, at, repl) && 0 <= k <= |at| && 0 <= i < |insts|
    requires (forall j :: 0 <= j < k ==> at[j] < i) && forall j :: k <= j < |at| ==> at[j] >= i
    ensures if k < |at| && at[k] == i then Pick(insts, labels, i) == Some(repl[k]) else Pick(insts, labels, i) == None
    ensures forall j :: (if k < |at| && at[k] == i then k + 1 else k) <= j < |at| ==> at[j] > i
  {
    hide Pick;
    if !(k < |at| && at[k] == i) {
      forall j | 0 <= j < |at|
        ensures at[j] != i
      {
        assert j > k ==> at[k] < at[j];
      }
      assert i !in at;
    }
  }

  /** r is an inverted branch over an unconditional one to the same label. */
  predicate Pair(a: Inst, x: Inst, y: Inst) {
    && Inverts(a.op) && a.src2.Label?
    && x == Inst(Inverted(a.op), if a.op.Cond? then None else a.reg, Imm(8)) && y == Inst(B, None, a.src2)
  }

  /** Instruction i of a stands in b at p, itself or as a pair. */
  ghost predicate StandsAt(a: Inst, b: seq<Inst>, p: int, q: int) {
    || (q == p + 1 && 0 <= p < |b| && b[p] == a)
    || (q == p + 2 && 0 <= p && p + 1 < |b| && Pair(a, b[p], b[p + 1]))
  }

  /** b is a with some label branches relaxed: instruction i went to to[i]. */
  ghost predicate Follows(a: seq<Inst>, la: Labels, b: seq<Inst>, lb: Labels, to: seq<int>) {
    && Bound(a, la) && Bound(b, lb) && |to| == |a| + 1 && to[0] == 0 && to[|a|] == |b|
    && (forall i :: 0 <= i < |a| ==> StandsAt(a[i], b, to[i], to[i + 1]))
    && la.Keys == lb.Keys && (forall l :: l in la ==> lb[l] == to[la[l]])
  }

  ghost function Identity(n: nat): (r: seq<int>)
    ensures |r| == n + 1 && forall i :: 0 <= i <= n ==> r[i] == i
  {
    seq(n + 1, i => i)
  }

  lemma FollowsItself(a: seq<Inst>, la: Labels)
    requires Bound(a, la)
    ensures Follows(a, la, a, la, Identity(|a|))
  {
  }

  ghost function Places(insts: seq<Inst>, labels: Labels): (r: seq<int>)
    requires Bound(insts, labels)
    ensures |r| == |insts| + 1 && forall i :: 0 <= i <= |insts| ==> r[i] == Place(insts, labels, i)
  {
    seq(|insts| + 1, i requires 0 <= i <= |insts| => Place(insts, labels, i))
  }

  lemma ExpandedStands(insts: seq<Inst>, labels: Labels, i: nat)
    requires Bound(insts, labels) && i < |insts|
    ensures StandsAt(insts[i], Expand(insts, labels, |insts|), Place(insts, labels, i), Place(insts, labels, i + 1))
  {
    hide Distance, Reaches;
    var all, next := Expand(insts, labels, |insts|), Expand(insts, labels, i + 1);
    ExpandPrefix(insts, labels, i + 1, |insts|);
    assert forall j :: 0 <= j < |next| ==> all[j] == next[j];
  }

  lemma SplicedFollows(insts: seq<Inst>, labels: Labels, out: seq<Inst>, rebased: Labels)
    requires Bound(insts, labels) && out == Expand(insts, labels, |insts|)
    requires rebased.Keys == labels.Keys && forall l :: l in labels ==> rebased[l] == Place(insts, labels, labels[l])
    ensures Follows(insts, labels, out, rebased, Places(insts, labels))
  {
    hide StandsAt, Expand;
    forall i | 0 <= i <= |insts|
      ensures Place(insts, labels, i) <= |out|
    {
      ExpandPrefix(insts, labels, i, |insts|);
    }
    forall i | 0 <= i < |insts|
      ensures StandsAt(insts[i], out, Place(insts, labels, i), Place(insts, labels, i + 1))
    {
      ExpandedStands(insts, labels, i);
    }
    ExtraNone(insts, labels);
  }

  ghost function Composed(to: seq<int>, via: seq<int>): (r: seq<int>)
    requires forall i :: 0 <= i < |to| ==> 0 <= to[i] < |via|
    ensures |r| == |to| && forall i :: 0 <= i < |to| ==> r[i] == via[to[i]]
  {
    seq(|to|, i requires 0 <= i < |to| => via[to[i]])
  }

  /** A relaxed pair is never touched again. */
  lemma StandsThrough(a: Inst, b: seq<Inst>, lb: Labels, c: seq<Inst>, lc: Labels, p: int, q: int, via: seq<int>)
    requires StandsAt(a, b, p, q) && Follows(b, lb, c, lc, via)
    ensures 0 <= p < |via| && 0 <= q < |via| && StandsAt(a, c, via[p], via[q])
  {
    if q == p + 1 {
      assert StandsAt(b[p], c, via[p], via[p + 1]);
    } else {
      assert StandsAt(b[p], c, via[p], via[p + 1]);
      assert StandsAt(b[p + 1], c, via[p + 1], via[p + 1 + 1]);
    }
  }

  lemma FollowsThrough(a: seq<Inst>, la: Labels, b: seq<Inst>, lb: Labels, c: seq<Inst>, lc: Labels, to: seq<int>,
                       via: seq<int>)
    requires Follows(a, la, b, lb, to) && Follows(b, lb, c, lc, via)
    ensures forall i :: 0 <= i < |to| ==> 0 <= to[i] < |via|
    ensures Follows(a, la, c, lc, Composed(to, via))
  {
    hide StandsAt;
    ToInside(a, la, b, lb, to);
    forall i | 0 <= i < |a|
      ensures StandsAt(a[i], c, via[to[i]], via[to[i + 1]])
    {
      StandsThrough(a[i], b, lb, c, lc, to[i], to[i + 1], via);
    }
  }

  lemma ToInside(a: seq<Inst>, la: Labels, b: seq<Inst>, lb: Labels, to: seq<int>)
    requires Follows(a, la, b, lb, to)
    ensures forall i :: 0 <= i < |to| ==> 0 <= to[i] <= |b|
  {
    forall i | 0 <= i < |to|
      ensures 0 <= to[i] <= |b|
    {
      if i < |a| { assert StandsAt(a[i], b, to[i], to[i + 1]); }
    }
  }

  /** Label branches that relaxation can still rewrite. */
  ghost function Relaxable(insts: seq<Inst>): nat {
    if insts == [] then 0
    else Relaxable(insts[..|insts| - 1]) + (if Inverts(insts[|insts| - 1].op) && insts[|insts| - 1].src2.Label? then 1
        else 0)
  }

  predicate CanRelax(i: Inst) {
    Inverts(i.op) && i.src2.Label?
  }

  lemma RelaxableSnoc(s: seq<Inst>, x: Inst)
    ensures Relaxable(s + [x]) == Relaxable(s) + (if CanRelax(x) then 1 else 0)
  {
    assert (s + [x])[..|s|] == s;
  }

  /** A pick replaces a relaxable branch by two that are not. */
  lemma PickIs(insts: seq<Inst>, labels: Labels, i: int)
    requires Bound(insts, labels) && 0 <= i < |insts| && Pick(insts, labels, i).Some?
    ensures var r := Pick(insts, labels, i).value;
            |r| == 2 && r == [r[0]] + [r[1]] && !CanRelax(r[0]) && !CanRelax(r[1]) && CanRelax(insts[i])
  {
    hide Distance, Reaches;
  }

  /** Each pick uses up a relaxable branch. */
  lemma {:induction false} ExpandUses(insts: seq<Inst>, labels: Labels, n: nat)
    requires Bound(insts, labels) && n <= |insts|
    ensures Relaxable(Expand(insts, labels, n)) <= Relaxable(insts[..n])
    ensures (exists i :: 0 <= i < n && Pick(insts, labels, i).Some?) ==>
      Relaxable(Expand(insts, labels, n)) < Relaxable(insts[..n])
  {
    hide Pick, Relaxable, CanRelax;
    if n > 0 {
      ExpandUses(insts, labels, n - 1);
      assert insts[..n] == insts[..n - 1] + [insts[n - 1]];
      RelaxableSnoc(insts[..n - 1], insts[n - 1]);
      var before := Expand(insts, labels, n - 1);
      match Pick(insts, labels, n - 1)
      case None =>
        RelaxableSnoc(before, insts[n - 1]);
      case Some(r) =>
        PickIs(insts, labels, n - 1);
        RelaxableSnoc(before, r[0]);
        RelaxableSnoc(before + [r[0]], r[1]);
        assert before + r == (before + [r[0]]) + [r[1]];
    }
  }

  /** Instruction i with its label resolved. */
  ghost function Resolved(insts: seq<Inst>, labels: Labels, i: int): Inst
    requires Bound(insts, labels) && 0 <= i < |insts|
  {
    if insts[i].src2.Label? && insts[i].src2.id in labels then insts[i].(src2 := Imm(Distance(insts, labels, i)))
        else insts[i]
  }

  /** What stands for instruction i in the output. None when its label is unbound or it cannot be encoded. */
  ghost function Emitted(insts: seq<Inst>, labels: Labels, i: int): Option<seq<Byte>>
    requires Bound(insts, labels) && 0 <= i < |insts|
  {
    if insts[i].src2.Label? && insts[i].src2.id !in labels then None
    else if !insts[i].src2.Label? && insts[i].op.Use? then Some([])
    else Encode(Resolved(insts, labels, i))
  }

  /** out is the encoding of the first n instructions. */
  ghost predicate Assembled(insts: seq<Inst>, labels: Labels, n: int, out: seq<Byte>)
    requires Bound(insts, labels)
  {
    && 0 <= n <= |insts| && |out| == Offset(insts, n)
    && forall i :: 0 <= i < n ==> EmittedAt(insts, labels, i, out)
  }

  ghost predicate EmittedAt(insts: seq<Inst>, labels: Labels, i: int, out: seq<Byte>)
    requires Bound(insts, labels) && 0 <= i < |insts|
  {
    var e := Emitted(insts, labels, i);
    e.Some? && Offset(insts, i) + |e.value| <= |out| && out[Offset(insts, i)..Offset(insts, i) + |e.value|] == e.value
    && |e.value| == Offset(insts, i + 1) - Offset(insts, i)
  }

  /** Pseudo-instructions carry no label. */
  ghost predicate UsesPlain(insts: seq<Inst>) {
    forall i :: 0 <= i < |insts| && insts[i].op.Use? ==> !insts[i].src2.Label?
  }

  lemma EmitNext(insts: seq<Inst>, labels: Labels, n: nat, out: seq<Byte>)
    requires Bound(insts, labels) && n < |insts| && Assembled(insts, labels, n, out) && UsesPlain(insts)
    requires Emitted(insts, labels, n).Some?
    ensures Assembled(insts, labels, n + 1, out + Emitted(insts, labels, n).value)
  {
    hide Distance;
    var e := Emitted(insts, labels, n).value;
    var next := out + e;
    forall i | 0 <= i < n + 1
      ensures EmittedAt(insts, labels, i, next)
    {
      if i < n {
        assert EmittedAt(insts, labels, i, out);
        var ei := Emitted(insts, labels, i).value;
        assert next[Offset(insts, i)..Offset(insts, i) + |ei|] == out[Offset(insts, i)..Offset(insts, i) + |ei|];
      } else {
        assert next[|out|..|out| + |e|] == e;
      }
    }
  }

  /** Concatenates the encodings, with every label branch re-encoded at its resolved distance. */
  method Resolve(insts: seq<Inst>, draft: seq<seq<Byte>>, offsets: seq<int>, labels: Labels)
                 returns (r: Option<seq<Byte>>)
    requires Bound(insts, labels) && DraftOf(insts, draft) && Drafts(insts, |insts|) && Measured(insts, offsets)
    requires UsesPlain(insts)
    ensures r.Some? <==> forall i :: 0 <= i < |insts| ==> Emitted(insts, labels, i).Some?
    ensures r.Some? ==> Assembled(insts, labels, |insts|, r.value)
  {
    hide Encode, Distance, Assembled, Offset;
    var out := [];
    Assembled0(insts, labels);
    for i := 0 to |insts|
      invariant Assembled(insts, labels, i, out) && forall j :: 0 <= j < i ==> Emitted(insts, labels, j).Some?
    {
      if !insts[i].src2.Label? {
        DraftEmits(insts, labels, draft, i);
        EmitNext(insts, labels, i, out);
        out := out + draft[i];
        continue;
      }
      if insts[i].src2.id !in labels {
        assert Emitted(insts, labels, i).None?;
        return None;
      }
      var inst := insts[i].(src2 := Imm(offsets[labels[insts[i].src2.id]] - offsets[i]));
      assert inst == Resolved(insts, labels, i) by { DistanceIs(insts, labels, i); }
      var bytes := Encode(inst);
      assert Emitted(insts, labels, i) == bytes;
      if bytes.None? {
        return None;
      }
      EmitNext(insts, labels, i, out);
      out := out + bytes.value;
    }
    r := Some(out);
  }

  lemma Assembled0(insts: seq<Inst>, labels: Labels)
    requires Bound(insts, labels)
    ensures Assembled(insts, labels, 0, [])
  {
  }

  lemma DistanceIs(insts: seq<Inst>, labels: Labels, i: int)
    requires Bound(insts, labels) && 0 <= i < |insts| && insts[i].src2.Label? && insts[i].src2.id in labels
    ensures Distance(insts, labels, i) == Offset(insts, labels[insts[i].src2.id]) - Offset(insts, i)
  {
  }

  lemma DraftEmits(insts: seq<Inst>, labels: Labels, draft: seq<seq<Byte>>, i: int)
    requires Bound(insts, labels) && DraftOf(insts, draft) && Drafts(insts, |insts|) && 0 <= i < |insts|
    requires !insts[i].src2.Label?
    ensures Emitted(insts, labels, i) == Some(draft[i])
  {
    hide Encode;
    assert insts[i].op.Use? || Encode(Placeholder(insts[i])).Some?;
  }

  /** Nothing is left to relax. */
  ghost predicate Settled(insts: seq<Inst>, labels: Labels)
    requires Bound(insts, labels)
  {
    forall i :: 0 <= i < |insts| ==> Pick(insts, labels, i).None?
  }

  /** Encodes the instructions, relaxing label branches until none is left to relax. The encoded list follows
      the given one with some branches relaxed. */
  method Build(insts: seq<Inst>, labels: Labels)
               returns (r: Option<seq<Byte>>, ghost list: seq<Inst>, ghost at: Labels, ghost to: seq<int>)
    requires Bound(insts, labels) && UsesPlain(insts)
    ensures Follows(insts, labels, list, at, to)
    ensures r.Some? ==> Settled(list, at) && Assembled(list, at, |list|, r.value)
    ensures r.None? ==>
      !Drafts(list, |list|) || (Settled(list, at) && exists i :: 0 <= i < |list| && Emitted(list, at, i).None?)
  {
    hide Drafts, DraftOf, Measured, Collected, Follows, Assembled, Pick, Expand, UsesPlain, Relaxable, Emitted;
    var current, bound := insts, labels;
    to := Identity(|insts|);
    FollowsItself(insts, labels);
    while true
      invariant Bound(current, bound) && UsesPlain(current) && Follows(insts, labels, current, bound, to)
      decreases Relaxable(current)
    {
      list, at := current, bound;
      var ok, draft, offsets := Draft(current);
      if !ok {
        return None, list, at, to;
      }
      var picks, repl := Collect(current, bound, offsets);
      if |picks| == 0 {
        NothingPicked(current, bound, picks, repl);
        r := Resolve(current, draft, offsets, bound);
        return;
      }
      SomethingPicked(current, bound, picks, repl);
      ExpandUses(current, bound, |current|);
      assert current[..|current|] == current;
      var next, rebased := Splice(current, bound, picks, repl);
      SplicedFollows(current, bound, next, rebased);
      FollowsThrough(insts, labels, current, bound, next, rebased, to, Places(current, bound));
      to := Composed(to, Places(current, bound));
      FollowsBound(insts, labels, next, rebased, to);
      current, bound := next, rebased;
    }
  }

  lemma NothingPicked(insts: seq<Inst>, labels: Labels, at: seq<int>, repl: seq<seq<Inst>>)
    requires Bound(insts, labels) && Collected(insts, labels, |insts|, at, repl) && at == []
    ensures Settled(insts, labels)
  {
    hide Pick;
  }

  lemma SomethingPicked(insts: seq<Inst>, labels: Labels, at: seq<int>, repl: seq<seq<Inst>>)
    requires Bound(insts, labels) && Collected(insts, labels, |insts|, at, repl) && |at| > 0
    ensures exists i :: 0 <= i < |insts| && Pick(insts, labels, i).Some?
  {
    hide Pick;
    assert Pick(insts, labels, at[0]) == Some(repl[0]);
  }

  lemma FollowsBound(a: seq<Inst>, la: Labels, b: seq<Inst>, lb: Labels, to: seq<int>)
    requires Follows(a, la, b, lb, to) && UsesPlain(a)
    ensures Bound(b, lb) && UsesPlain(b)
  {
    hide StandsAt;
    forall p | 0 <= p < |b| && b[p].op.Use?
      ensures !b[p].src2.Label?
    {
      var i := Origin(a, la, b, lb, to, p);
      StandsUse(a[i], b, to[i], to[i + 1], p);
    }
  }

  lemma StandsUse(a: Inst, b: seq<Inst>, p: int, q: int, x: int)
    requires StandsAt(a, b, p, q) && p <= x < q && b[x].op.Use?
    ensures b[x] == a
  {
  }

  /** Which original instruction gave position p. */
  lemma Origin(a: seq<Inst>, la: Labels, b: seq<Inst>, lb: Labels, to: seq<int>, p: int) returns (i: int)
    requires Follows(a, la, b, lb, to) && 0 <= p < |b|
    ensures 0 <= i < |a| && to[i] <= p < to[i + 1]
  {
    hide StandsAt;
    i := 0;
    while i < |a| && to[i + 1] <= p
      invariant 0 <= i <= |a| && to[i] <= p
    {
      i := i + 1;
    }
  }

  /** Where control goes from instruction i: to the label, to the instruction at the immediate distance, or on. */
  ghost predicate Goes(insts: seq<Inst>, labels: Labels, i: int, j: int, flags: Flags, regs: Reg -> int)
    requires Bound(insts, labels)
  {
    && 0 <= i < |insts| && 0 <= j <= |insts|
    && if Taken(insts[i].op, insts[i].reg, flags, regs) then
         match insts[i].src2
         case Label(l) => l in labels && j == labels[l]
         case Imm(v) => Offset(insts, j) == Offset(insts, i) + v
         case Nothing => false
       else j == i + 1
  }

  /** Reachable in one step, or in two through p. */
  ghost predicate GoesSoon(insts: seq<Inst>, labels: Labels, i: int, j: int, flags: Flags, regs: Reg -> int)
    requires Bound(insts, labels)
  {
    Goes(insts, labels, i, j, flags, regs)
    || exists p :: Goes(insts, labels, i, p, flags, regs) && Goes(insts, labels, p, j, flags, regs)
  }

  /** Relaxing keeps control transfer: a branch still leads to its label when taken, and on otherwise. */
  lemma TransfersSame(a: seq<Inst>, la: Labels, b: seq<Inst>, lb: Labels, to: seq<int>, i: int, j: int, flags: Flags,
                      regs: Reg -> int)
    requires Follows(a, la, b, lb, to) && Goes(a, la, i, j, flags, regs) && WellFormed(a[i])
    requires Inverts(a[i].op) || a[i].op == B || a[i].op == BL ==> a[i].src2.Label?
    requires a[i].op == CBZ || a[i].op == CBNZ ==> a[i].reg.Some?
    ensures GoesSoon(b, lb, to[i], to[j], flags, regs)
  {
    assert StandsAt(a[i], b, to[i], to[i + 1]);
    var p := to[i];
    ToInside(a, la, b, lb, to);
    if to[i + 1] == p + 1 {
      assert Goes(b, lb, p, to[j], flags, regs);
    } else {
      var x, y := b[p], b[p + 1];
      InvertedNegates(a[i].op, a[i].reg, flags, regs);
      SameTaken(a[i], x, flags, regs);
      PairOffsets(b, p);
      if Taken(a[i].op, a[i].reg, flags, regs) {
        assert Goes(b, lb, p, p + 1, flags, regs);
        assert Goes(b, lb, p + 1, to[j], flags, regs);
      } else {
        assert Goes(b, lb, p, p + 2, flags, regs);
      }
    }
  }

  lemma SameTaken(a: Inst, x: Inst, flags: Flags, regs: Reg -> int)
    requires Inverts(a.op) && WellFormed(a) && x.op == Inverted(a.op) && x.reg == (if a.op.Cond? then None else a.reg)
    ensures Taken(x.op, x.reg, flags, regs) <==> Taken(Inverted(a.op), a.reg, flags, regs)
  {
  }

  lemma PairOffsets(b: seq<Inst>, p: nat)
    requires p + 1 < |b| && !b[p].op.Use? && !b[p + 1].op.Use?
    ensures Offset(b, p + 2) == Offset(b, p) + 8
  {
    assert Offset(b, p + 1) == Offset(b, p) + 4;
  }

  const REACH26 := 0x800_0000

  /** Once nothing is left to relax, no label branch of a stream under 128 MiB is out of range. */
  lemma SmallStreamsReach(insts: seq<Inst>, labels: Labels, i: nat)
    requires Bound(insts, labels) && Settled(insts, labels) && Offset(insts, |insts|) < REACH26
    requires i < |insts| && insts[i].src2.Label? && insts[i].src2.id in labels && IsBranch(insts[i].op)
    requires insts[i].op == CBZ || insts[i].op == CBNZ ==> insts[i].reg.Some?
    ensures Emitted(insts, labels, i).Some?
    ensures Reaches(Distance(insts, labels, i), if insts[i].op == B || insts[i].op == BL then HALF26 else HALF19)
  {
    hide Offset, Encode, Reaches, Resolved;
    var target := labels[insts[i].src2.id];
    OffsetMonotone(insts, i, |insts|);
    OffsetMonotone(insts, target, |insts|);
    OffsetMonotone(insts, 0, target);
    OffsetMonotone(insts, 0, i);
    OffsetZero(insts);
    var d := Distance(insts, labels, i);
    assert -REACH26 + 4 < d < REACH26 && d % 4 == 0;
    Near(d);
    assert Pick(insts, labels, i).None?;
    ResolvedIs(insts, labels, i);
    EncodesIff(Resolved(insts, labels, i));
  }

  lemma ResolvedIs(insts: seq<Inst>, labels: Labels, i: nat)
    requires Bound(insts, labels) && i < |insts| && insts[i].src2.Label? && insts[i].src2.id in labels
    ensures Resolved(insts, labels, i) == insts[i].(src2 := Imm(Distance(insts, labels, i)))
    ensures Emitted(insts, labels, i) == Encode(Resolved(insts, labels, i))
  {
    hide Encode, Distance;
  }

  lemma OffsetZero(insts: seq<Inst>)
    ensures Offset(insts, 0) == 0
  {
  }

  lemma Near(d: int)
    requires -REACH26 + 4 < d < REACH26 && d % 4 == 0
    ensures Reaches(d, HALF26) && Reaches(if d < 0 then d - 4 else d, HALF26)
  {
  }

  /** A label branch of the output reads back as the byte distance to its label. */
  lemma BranchEncodesDistance(insts: seq<Inst>, labels: Labels, out: seq<Byte>, i: nat)
    requires Bound(insts, labels) && Assembled(insts, labels, |insts|, out)
    requires i < |insts| && insts[i].src2.Label? && IsBranch(insts[i].op) && WellFormed(insts[i])
    ensures insts[i].src2.id in labels && Offset(insts, i) + 4 <= |out|
    ensures var d := Decode(WordOf(out[Offset(insts, i)..Offset(insts, i) + 4]));
            d.Some? && d.value.op == insts[i].op && d.value.src2 == Imm(Distance(insts, labels, i))
  {
    hide Decode, WordOf, Distance, Offset;
    assert EmittedAt(insts, labels, i, out);
    EncodeDecodes(Resolved(insts, labels, i));
  }
}
