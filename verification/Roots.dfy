/** The external references of a running interpreter: operand stack, frames and everything else. */
module Roots {
  import Bytecode

  /** A stack slot. */
  datatype Boxed = Scalar(bits: int) | Ref(addr: int)

  /** An activation: its function reference when it owns one, and its coroutine handle or 0. */
  datatype Frame = Frame(addr: int, ref: int, release: bool, coro: int, ip: int, bp: int)

  /** A protected range of one function and where it lands. */
  type Handler = Bytecode.Handler

  datatype Option<T> = None | Some(value: T)

  ghost function Only(held: bool, addr: int): multiset<int> {
    if held then multiset{addr} else multiset{}
  }

  /** What a slot owns; null is not counted. */
  ghost function BoxRefs(v: Boxed): multiset<int> {
    Only(v.Ref? && v.addr != 0, if v.Ref? then v.addr else 0)
  }

  ghost function StackRefs(s: seq<Boxed>): multiset<int> {
    if s == [] then multiset{} else StackRefs(s[..|s| - 1]) + BoxRefs(s[|s| - 1])
  }

  ghost function FrameRefs(f: Frame): multiset<int> {
    Only(f.release, f.ref) + Only(f.coro != 0, f.coro)
  }

  ghost function CallRefs(fs: seq<Frame>): multiset<int> {
    if fs == [] then multiset{} else CallRefs(fs[..|fs| - 1]) + FrameRefs(fs[|fs| - 1])
  }

  predicate Covers(h: Handler, ip: int) {
    h.start <= ip < h.end
  }

  /** h is the first entry of the table that covers ip: the innermost one. */
  ghost predicate FirstCovering(table: seq<Handler>, ip: int, h: Handler) {
    exists j :: 0 <= j < |table| && table[j] == h && Covers(h, ip) && forall k :: 0 <= k < j ==> !Covers(table[k], ip)
  }

  ghost predicate Uncovered(table: seq<Handler>, ip: int) {
    forall j :: 0 <= j < |table| ==> !Covers(table[j], ip)
  }

  /** The entry in charge is the one a single body's machine goes by. */
  lemma {:induction false} InCharge(table: seq<Handler>, ip: int)
    ensures match Bytecode.HandlerFor(table, ip)
            case Some(h) => FirstCovering(table, ip, h) && forall g :: FirstCovering(table, ip, g) ==> g == h
            case None => Uncovered(table, ip)
  {
    if table != [] && !Covers(table[0], ip) {
      InCharge(table[1..], ip);
      var rest := table[1..];
      match Bytecode.HandlerFor(rest, ip)
      case Some(h) =>
        var j :| 0 <= j < |rest| && rest[j] == h && Covers(h, ip) && forall k :: 0 <= k < j ==> !Covers(rest[k], ip);
        assert table[j + 1] == h && forall k :: 0 <= k < j + 1 ==> !Covers(table[k], ip) by {
          assert forall k :: 1 <= k < j + 1 ==> table[k] == rest[k - 1];
        }
      case None =>
        assert forall k :: 1 <= k < |table| ==> table[k] == rest[k - 1];
    }
  }

  /** What each of a frame's two releases finds and leaves. */
  lemma FrameOwes(f: Frame, ext: multiset<int>)
    requires FrameRefs(f) <= ext
    ensures var mid := ext - Only(f.release, f.ref);
            && mid - Only(f.coro != 0, f.coro) == ext - FrameRefs(f) <= mid
            && (f.release ==> ext[f.ref] > 0)
            && (f.coro != 0 ==> mid[f.coro] > 0)
  {
    assert f.release ==> f.ref in FrameRefs(f);
    assert f.coro != 0 ==> FrameRefs(f)[f.coro] == Only(f.release, f.ref)[f.coro] + 1;
  }

  lemma StackPrefix(s: seq<Boxed>, n: nat)
    requires n < |s|
    ensures StackRefs(s[..n + 1]) == StackRefs(s[..n]) + BoxRefs(s[n])
  {
    assert s[..n + 1][..n] == s[..n];
  }

  lemma CallUnfold(fs: seq<Frame>, n: nat)
    requires n + 1 == |fs|
    ensures CallRefs(fs) == CallRefs(fs[..n]) + FrameRefs(fs[n])
  {
  }

  lemma CallPrefix(fs: seq<Frame>, n: nat)
    requires n < |fs|
    ensures CallRefs(fs[..n + 1]) == CallRefs(fs[..n]) + FrameRefs(fs[n])
  {
    hide CallRefs, FrameRefs;
    CallUnfold(fs[..n + 1], n);
    assert fs[..n + 1][..n] == fs[..n];
  }

  /** Moving a frame's ip changes no reference. */
  lemma {:induction false} CallJump(fs: seq<Frame>, k: nat, ip: int)
    requires k < |fs|
    ensures CallRefs(fs[k := fs[k].(ip := ip)]) == CallRefs(fs)
  {
    hide CallRefs, FrameRefs;
    var gs, n := fs[k := fs[k].(ip := ip)], |fs| - 1;
    CallUnfold(fs, n);
    CallUnfold(gs, n);
    if k < n {
      assert gs[..n] == fs[..n][k := fs[k].(ip := ip)];
      CallJump(fs[..n], k, ip);
    } else {
      assert gs[..n] == fs[..n];
      JumpKeepsRefs(fs[k], ip);
    }
  }

  lemma JumpKeepsRefs(f: Frame, ip: int)
    ensures FrameRefs(f.(ip := ip)) == FrameRefs(f)
  {
  }

  lemma {:induction false} CallFewer(fs: seq<Frame>, m: nat, n: nat)
    requires m <= n <= |fs|
    ensures CallRefs(fs[..m]) <= CallRefs(fs[..n])
  {
    hide CallRefs, FrameRefs;
    if m < n {
      CallFewer(fs, m, n - 1);
      CallPrefix(fs, n - 1);
    }
  }

  lemma {:induction false} StackFewer(s: seq<Boxed>, m: nat, n: nat)
    requires m <= n <= |s|
    ensures StackRefs(s[..m]) <= StackRefs(s[..n])
  {
    hide StackRefs, BoxRefs;
    if m < n {
      StackFewer(s, m, n - 1);
      StackPrefix(s, n - 1);
    }
  }

  /** Dropping frame n - 1 from the references of the machine. */
  lemma DropFrame(fs: seq<Frame>, m: nat, n: nat, keep: multiset<int>)
    requires m < n <= |fs|
    ensures FrameRefs(fs[n - 1]) <= CallRefs(fs[..n]) + keep
    ensures CallRefs(fs[..n]) + keep - FrameRefs(fs[n - 1]) == CallRefs(fs[..n - 1]) + keep
    ensures CallRefs(fs[..m]) <= CallRefs(fs[..n - 1])
  {
    hide CallRefs, FrameRefs;
    CallPrefix(fs, n - 1);
    CallFewer(fs, m, n - 1);
  }

  /** Dropping slot n - 1 from the references of the machine. */
  lemma DropSlot(s: seq<Boxed>, m: nat, n: nat, keep: multiset<int>)
    requires m < n <= |s|
    ensures BoxRefs(s[n - 1]) <= StackRefs(s[..n]) + keep
    ensures StackRefs(s[..n]) + keep - BoxRefs(s[n - 1]) == StackRefs(s[..n - 1]) + keep
    ensures StackRefs(s[..m]) <= StackRefs(s[..n - 1])
  {
    hide StackRefs, BoxRefs;
    StackPrefix(s, n - 1);
    StackFewer(s, m, n - 1);
  }

  /** The machine's references after landing. */
  lemma LandDone(fs: seq<Frame>, s: seq<Boxed>, at: nat, floor: nat, exc: Boxed, catch: int, other: multiset<int>)
    requires 0 < at <= |fs| && floor < |s|
    ensures var fs', s' := fs[at - 1 := fs[at - 1].(ip := catch)], s[floor := exc];
            CallRefs(fs'[..at]) + StackRefs(s'[..floor + 1]) + other
            == CallRefs(fs[..at]) + (StackRefs(s[..floor]) + (BoxRefs(exc) + other))
            == StackRefs(s[..floor]) + (CallRefs(fs[..at]) + (BoxRefs(exc) + other))
  {
    hide CallRefs, FrameRefs, StackRefs, BoxRefs;
    CallJump(fs[..at], at - 1, catch);
    assert fs[at - 1 := fs[at - 1].(ip := catch)][..at] == fs[..at][at - 1 := fs[at - 1].(ip := catch)];
    StackPrefix(s[floor := exc], floor);
    assert s[floor := exc][..floor] == s[..floor];
  }
}
