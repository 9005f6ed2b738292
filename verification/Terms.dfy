/** What the operand stack holds, as expressions over leaves and locals, operands in the order the code pushes them. */
module Terms {
  import opened Bytecode
  import opened Stacks
  import opened Numbering
  import Blocks

  /** The expression whose value an entry holds. */
  datatype Term = Unknown | LocalTerm(slot: int) | LeafTerm(core: seq<Byte>) | OpTerm(op: Byte, args: seq<Term>)

  /** An operation on known operands. */
  function Compose(op: Byte, args: seq<Term>): Term {
    if Unknown in args then Unknown else OpTerm(op, args)
  }

  function Unknowns(n: nat): (r: seq<Term>)
    ensures |r| == n && forall i :: 0 <= i < n ==> r[i] == Unknown
  {
    seq(n, _ => Unknown)
  }

  function Under(b: seq<Term>, n: nat): seq<Term> {
    if n <= |b| then b[..|b| - n] else []
  }

  /** What the instruction at ip makes of the entries on top of the stack. */
  ghost function TermStep(stable: seq<bool>, code: seq<Byte>, ip: int, b: seq<Term>): seq<Term>
    requires 0 <= ip < |code|
  {
    var op, n := code[ip], |b|;
    if Opaque(op) then []
    else if op == NOP || op == UNREACHABLE || op == BR || op == LOCAL_TEE || op == GLOBAL_TEE then b
    else if Takes(op) then Under(b, 1)
    else if op == LOCAL_GET || IsLeaf(op) || op == GLOBAL_GET || op == UPVAL_GET then b + [LoadTerm(stable, code, ip)]
    else if op == DUP then (if n == 0 then [] else b + [b[n - 1]])
    else if op == SWAP then (if n < 2 then [] else b[..n - 2] + [b[n - 1], b[n - 2]])
    else if op == SELECT then Under(b, 3) + [Unknown]
    else if IsPure(op) && 0 < Pops(op) <= n then b[..n - Pops(op)] + [Compose(op, b[n - Pops(op)..])]
    else Under(b, Pops(op)) + Unknowns(Pushes(op))
  }

  ghost function LoadTerm(stable: seq<bool>, code: seq<Byte>, ip: int): Term
    requires 0 <= ip < |code|
  {
    if code[ip] == LOCAL_GET && Operand(code, ip) < |stable| && stable[Operand(code, ip)]
        then LocalTerm(Operand(code, ip))
    else if IsLeaf(code[ip]) then LeafTerm(Core(code, ip))
    else Unknown
  }

  /** The entries before instruction k: none at the start of a block, else what the one before it left. */
  ghost function TermsBefore(code: seq<Byte>, s: seq<int>, blocks: seq<Blocks.Block>, stable: seq<bool>,
                             k: nat): seq<Term>
    requires Layout(code, s) && k < |s|
    decreases k, 0
  {
    if k == 0 || StartsBlock(blocks, s[k]) then [] else TermsAfter(code, s, blocks, stable, k - 1)
  }

  ghost function TermsAfter(code: seq<Byte>, s: seq<int>, blocks: seq<Blocks.Block>, stable: seq<bool>,
                            k: nat): seq<Term>
    requires Layout(code, s) && k < |s| - 1
    decreases k, 1
  {
    TermStep(stable, code, s[k], TermsBefore(code, s, blocks, stable, k))
  }

  /** t computes group g: it is the group's key, spelled out, up to the order of exchangeable operands. */
  ghost predicate Spells(names: seq<Key>, g: int, t: Term)
    decreases t
  {
    0 <= g < |names| &&
    match t
    case Unknown => false
    case LocalTerm(slot) => names[g] == LocalKey(slot)
    case LeafTerm(core) => names[g] == LeafKey(core)
    case OpTerm(op, args) =>
      names[g].OpKey? && names[g].op == op && |names[g].ids| == |args| &&
      (AllSpell(names, names[g].ids, args) ||
       (Commutes(op) && |args| == 2 &&
        Spells(names, names[g].ids[0], args[1]) && Spells(names, names[g].ids[1], args[0])))
  }

  ghost predicate AllSpell(names: seq<Key>, ids: seq<int>, args: seq<Term>)
    requires |ids| == |args|
    decreases args
  {
    forall i :: 0 <= i < |args| ==> Spells(names, ids[i], args[i])
  }

  /** Equal up to the order of exchangeable operands. */
  ghost predicate Akin(a: Term, b: Term)
    decreases a
  {
    match a
    case OpTerm(op, args) =>
      b.OpTerm? && b.op == op && |b.args| == |args| &&
      (AllAkin(args, b.args) || (Commutes(op) && |args| == 2 && Akin(args[0], b.args[1]) && Akin(args[1], b.args[0])))
    case _ => a == b
  }

  ghost predicate AllAkin(xs: seq<Term>, ys: seq<Term>)
    requires |xs| == |ys|
    decreases xs
  {
    forall i :: 0 <= i < |xs| ==> Akin(xs[i], ys[i])
  }

  /** Expressions of one group differ in the order of exchangeable operands only. */
  lemma {:induction false} OneGroup(names: seq<Key>, g: int, a: Term, b: Term)
    requires Spells(names, g, a) && Spells(names, g, b)
    ensures Akin(a, b)
    decreases a
  {
    if a.OpTerm? {
      var ids := names[g].ids;
      assert b.OpTerm?;
      if AllSpell(names, ids, a.args) {
        if AllSpell(names, ids, b.args) {
          forall i | 0 <= i < |a.args|
            ensures Akin(a.args[i], b.args[i])
          {
            OneGroup(names, ids[i], a.args[i], b.args[i]);
          }
        } else {
          OneGroup(names, ids[0], a.args[0], b.args[1]);
          OneGroup(names, ids[1], a.args[1], b.args[0]);
        }
      } else if AllSpell(names, ids, b.args) {
        OneGroup(names, ids[1], a.args[0], b.args[1]);
        OneGroup(names, ids[0], a.args[1], b.args[0]);
      } else {
        OneGroup(names, ids[1], a.args[0], b.args[0]);
        OneGroup(names, ids[0], a.args[1], b.args[1]);
        assert AllAkin(a.args, b.args);
      }
    }
  }

  /** An entry has a group exactly when its expression is known, and then the expression computes the group. */
  ghost predicate EntrySpelled(names: seq<Key>, x: GSlot, t: Term) {
    if x.gid == -1 then t == Unknown else Spells(names, x.gid, t)
  }

  ghost predicate Spelled(names: seq<Key>, b: seq<GSlot>, ts: seq<Term>) {
    |b| == |ts| && forall i :: 0 <= i < |b| ==> EntrySpelled(names, b[i], ts[i])
  }

  lemma SpelledPrefix(names: seq<Key>, b: seq<GSlot>, ts: seq<Term>, n: nat)
    requires Spelled(names, b, ts) && n <= |b|
    ensures Spelled(names, b[..n], ts[..n]) && Spelled(names, b[n..], ts[n..])
  {
    hide EntrySpelled;
    forall i | 0 <= i < |b| - n
      ensures EntrySpelled(names, b[n..][i], ts[n..][i])
    {
      assert EntrySpelled(names, b[n + i], ts[n + i]);
    }
  }

  lemma SpelledSnoc(names: seq<Key>, b: seq<GSlot>, ts: seq<Term>, x: GSlot, t: Term)
    requires Spelled(names, b, ts) && EntrySpelled(names, x, t)
    ensures Spelled(names, b + [x], ts + [t])
  {
    hide EntrySpelled;
  }

  /** An operation on spelled operands computes its group. */
  lemma OperationSpelled(names: seq<Key>, op: Byte, args: seq<GSlot>, ts: seq<Term>, g: int)
    requires Spelled(names, args, ts) && Grouped(args) && Named(names, g, OpKey(op, Canonical(op, Gids(args))))
    ensures Unknown !in ts && Spells(names, g, OpTerm(op, ts))
  {
    hide Commutes;
    forall i | 0 <= i < |args|
      ensures ts[i] != Unknown && Spells(names, Gids(args)[i], ts[i])
    {
      assert EntrySpelled(names, args[i], ts[i]);
    }
    var ids := Canonical(op, Gids(args));
    if ids == Gids(args) {
      assert AllSpell(names, ids, ts);
    } else {
      assert Spells(names, ids[0], ts[1]) && Spells(names, ids[1], ts[0]);
    }
  }

  lemma SomeUnknown(names: seq<Key>, args: seq<GSlot>, ts: seq<Term>)
    requires Spelled(names, args, ts) && !Grouped(args)
    ensures Unknown in ts
  {
    var i :| 0 <= i < |args| && args[i].gid < 0;
    assert EntrySpelled(names, args[i], ts[i]);
    assert ts[i] == Unknown;
  }

  lemma PureSpelled(names: seq<Key>, op: Byte, ip: int, end: int, b: seq<GSlot>, a: seq<GSlot>, ts: seq<Term>,
                    base: nat)
    requires base < |b| && Spelled(names, b, ts) && PureStep(names, op, ip, end, b, a, base)
    ensures base <= |ts| && Spelled(names, a, ts[..base] + [Compose(op, ts[base..])])
  {
    hide Contiguous, Canonical, Spells, Spelled;
    SpelledSize(names, b, ts);
    SpelledPrefix(names, b, ts, base);
    var args, us := b[base..], ts[base..];
    if Grouped(args) {
      OperationSpelled(names, op, args, us, a[base].gid);
    } else {
      SomeUnknown(names, args, us);
    }
    SpelledSnoc(names, b[..base], ts[..base], a[base], Compose(op, us));
    assert a == b[..base] + [a[base]];
  }

  lemma SpelledSize(names: seq<Key>, b: seq<GSlot>, ts: seq<Term>)
    requires Spelled(names, b, ts)
    ensures |b| == |ts|
  {
  }

  /** Entries above the untouched ones have no group. */
  lemma UngroupedSpelled(names: seq<Key>, b: seq<GSlot>, a: seq<GSlot>, ts: seq<Term>, pops: nat, pushes: nat)
    requires Spelled(names, b, ts) && pops <= |b| && |a| == |b| - pops + pushes
    requires a[..|b| - pops] == b[..|b| - pops] && forall i :: |b| - pops <= i < |a| ==> a[i].gid == -1
    ensures Spelled(names, a, Under(ts, pops) + Unknowns(pushes))
  {
    hide Spells;
    var us := Under(ts, pops) + Unknowns(pushes);
    forall i | 0 <= i < |a|
      ensures EntrySpelled(names, a[i], us[i])
    {
      if i < |b| - pops {
        assert a[i] == a[..|b| - pops][i] == b[i];
        assert EntrySpelled(names, b[i], ts[i]);
      }
    }
  }

  lemma SwapSpelled(names: seq<Key>, b: seq<GSlot>, a: seq<GSlot>, ts: seq<Term>)
    requires Spelled(names, b, ts) && |b| >= 2 && |a| == |b| && a[..|b| - 2] == b[..|b| - 2]
    requires a[|b| - 1].gid == b[|b| - 2].gid && a[|b| - 2].gid == b[|b| - 1].gid
    ensures |ts| == |b| && Spelled(names, a, ts[..|b| - 2] + [ts[|b| - 1], ts[|b| - 2]])
  {
    hide Spells;
    var n := |b|;
    var us := ts[..n - 2] + [ts[n - 1], ts[n - 2]];
    forall i | 0 <= i < n
      ensures EntrySpelled(names, a[i], us[i])
    {
      var j := if i < n - 2 then i else 2 * n - 3 - i;
      assert EntrySpelled(names, b[j], ts[j]);
      assert i < n - 2 ==> a[i] == a[..n - 2][i] == b[i];
    }
  }

  /** Numbering an instruction groups exactly the entries whose expressions are known. */
  lemma StepSpelled(names: seq<Key>, stable: seq<bool>, code: seq<Byte>, ip: int, b: seq<GSlot>, a: seq<GSlot>,
                    ts: seq<Term>)
    requires 0 <= ip < |code| && Steps(names, stable, code, ip, b, a) && Spelled(names, b, ts)
    ensures Spelled(names, a, TermStep(stable, code, ip, ts))
  {
    hide Opaque, IsPure, IsLeaf, Takes, Pops, Pushes, Operand, Core, Width, Spells, PureStep, Spelled, EntrySpelled;
    var op, n := code[ip], |b|;
    SpelledSize(names, b, ts);
    if op == NOP || op == UNREACHABLE || op == BR || op == LOCAL_TEE || op == GLOBAL_TEE {
      Numbering.NotTakes(op);
    } else if Takes(op) {
      if n > 0 {
        SpelledPrefix(names, b, ts, n - 1);
      }
    } else if op == LOCAL_GET || IsLeaf(op) || op == GLOBAL_GET || op == UPVAL_GET {
      LoadSpelled(names, stable, code, ip, a[n]);
      SpelledSnoc(names, b, ts, a[n], LoadTerm(stable, code, ip));
      assert a == b + [a[n]];
    } else if op == DUP {
      SameEntry(names, b, ts, n - 1, a[n]);
      SpelledSnoc(names, b, ts, a[n], ts[n - 1]);
      assert a == b + [a[n]];
    } else if op == SWAP {
      SwapSpelled(names, b, a, ts);
    } else if op == SELECT {
      UngroupedSpelled(names, b, a, ts, 3, 1);
      assert Unknowns(1) == [Unknown];
    } else if IsPure(op) {
      PureSpelled(names, op, ip, ip + Width(code, ip), b, a, ts, n - Pops(op));
    } else {
      UngroupedSpelled(names, b, a, ts, Pops(op), Pushes(op));
    }
  }

  lemma SameEntry(names: seq<Key>, b: seq<GSlot>, ts: seq<Term>, i: nat, x: GSlot)
    requires Spelled(names, b, ts) && i < |b| && x.gid == b[i].gid
    ensures EntrySpelled(names, x, ts[i])
  {
    hide Spells;
    assert EntrySpelled(names, b[i], ts[i]);
  }

  lemma LoadSpelled(names: seq<Key>, stable: seq<bool>, code: seq<Byte>, ip: int, x: GSlot)
    requires 0 <= ip < |code|
    requires var op := code[ip];
      if op == LOCAL_GET && Operand(code, ip) < |stable| && stable[Operand(code, ip)]
      then Named(names, x.gid, LocalKey(Operand(code, ip)))
      else if IsLeaf(op) then Named(names, x.gid, LeafKey(Core(code, ip))) else x.gid == -1
    ensures EntrySpelled(names, x, LoadTerm(stable, code, ip))
  {
    hide Operand, Core, IsLeaf;
  }

  /** The expressions of the numbered entries after instruction k. */
  lemma {:induction false} AfterSpelled(code: seq<Byte>, s: seq<int>, blocks: seq<Blocks.Block>, stable: seq<bool>,
                                        names: seq<Key>, after: seq<Option<seq<GSlot>>>, gen: Gen, k: nat)
    requires Layout(code, s) && Numbered(code, s, blocks, stable, names, after, gen)
    requires k < |s| - 1 && after[k].Some?
    ensures Spelled(names, after[k].value, TermsAfter(code, s, blocks, stable, k))
  {
    hide Layout, Steps, StartsBlock, GenOk, WellNamed, Spelled, TermStep;
    assert StepAt(code, s, blocks, stable, names, after, k);
    if StartsBlock(blocks, s[k]) {
      assert Spelled(names, [], []) by { NothingSpelled(names); }
    } else {
      AfterSpelled(code, s, blocks, stable, names, after, gen, k - 1);
    }
    StepSpelled(names, stable, code, s[k], BeforeOf(s, blocks, after, k).value, after[k].value,
                TermsBefore(code, s, blocks, stable, k));
  }

  lemma NothingSpelled(names: seq<Key>)
    ensures Spelled(names, [], [])
  {
  }
}
