/** Linear-scan register allocation with spilling: one forward pass over an instruction list. */
module Rewrites {
  import opened Machine
  import opened AllocFacts
  import opened Pressure

  const MAX_SPILL_SLOTS := 512
  const BANK_SIZE := 64

  /** The register banks of an architecture. Scratch names integer registers only a pin may claim. */
  datatype RegInfo = RegInfo(numInt: nat, numFloat: nat, intReserved: set<int>, floatReserved: set<int>,
      scratch: set<int>) {
    predicate Valid(p: PReg) {
      var count := if p.bank == IntBank then numInt else numFloat;
      count <= BANK_SIZE && 0 <= p.id < count && !p.width.Undefined?
      && p.id !in (if p.bank == IntBank then intReserved else floatReserved)
    }

    /** A bank holds no more than BANK_SIZE registers, however many are claimed for it. */
    function Available(): set<Slot> {
      (set id | 0 <= id < BANK_SIZE && id < numInt && id !in intReserved :: Slot(IntBank, id))
      + (set id | 0 <= id < BANK_SIZE && id < numFloat && id !in floatReserved :: Slot(FloatBank, id))
    }

    /** What automatic allocation may hand out. */
    function Allocatable(): set<Slot> {
      Available() - (set id | id in scratch :: Slot(IntBank, id))
    }
  }

  /** A register the compiled code must leave to others: one the architecture does not have, one it reserves, or an
      integer register kept for pins. */
  ghost predicate Spared(info: RegInfo, s: Slot) {
    match s.bank
    case IntBank => !(0 <= s.id < info.numInt && s.id < 64) || s.id in info.intReserved || s.id in info.scratch
    case FloatBank => !(0 <= s.id < info.numFloat && s.id < 64) || s.id in info.floatReserved
  }

  /** Automatic allocation hands out exactly the registers that need not be spared, and a pin may name those and the
      scratch ones. */
  lemma PoolIs(info: RegInfo, s: Slot)
    ensures s in info.Allocatable() <==> !Spared(info, s)
    ensures info.numInt <= 64 && info.numFloat <= 64 ==>
              (info.Valid(PReg(s.id, s.bank, W64)) <==> !Spared(info.(scratch := {}), s))
  {
  }

  /** The ARM64 banks: the platform's and the runtime's registers are reserved, the machine's own are for pins. */
  const ARM64: RegInfo := RegInfo(31, 32, {18, 27, 28, 29, 30}, {8, 9, 10, 11, 12, 13, 14, 15},
    {0, 1, 10, 11, 12, 13, 14, 15, 26})

  lemma Arm64Pool(id: int)
    ensures Slot(IntBank, id) in ARM64.Allocatable() <==> 2 <= id <= 9 || 16 <= id <= 17 || 19 <= id <= 25
    ensures Slot(FloatBank, id) in ARM64.Allocatable() <==> 0 <= id <= 7 || 16 <= id <= 31
  {
    PoolIs(ARM64, Slot(IntBank, id));
    PoolIs(ARM64, Slot(FloatBank, id));
  }

  /** The instruction is to change s: it names s itself, or a register pinned there. */
  ghost predicate Writes(fs: seq<Fixed>, inst: Instruction, s: Slot) {
    match inst.dst
    case P(p) => SlotOf(p) == s
    case V(v) => 0 <= v.id < |fs| && fs[v.id].pin.Some? && SlotOf(fs[v.id].pin.value) == s
    case _ => false
  }

  ghost predicate WrittenBy(fs: seq<Fixed>, insts: seq<Instruction>, s: Slot) {
    exists i :: 0 <= i < |insts| && Writes(fs, insts[i], s)
  }

  /** Whatever state out starts in, s ends with the value it had. */
  ghost predicate Keeps(sem: Semantics, out: seq<Emitted>, s: Slot) {
    forall p :: Get(RunP(sem, out, p).pregs, s) == Get(p.pregs, s)
  }

  lemma {:induction false} UnwrittenKept(sem: Semantics, fs: seq<Fixed>, insts: seq<Instruction>, s: Slot, v: VState)
    requires !WrittenBy(fs, insts, s)
    ensures Get(RunV(sem, fs, insts, v).pregs, s) == Get(v.pregs, s)
  {
    if insts != [] {
      var n := |insts| - 1;
      assert !Writes(fs, insts[n], s);
      forall i | 0 <= i < n
        ensures !Writes(fs, insts[..n][i], s)
      {
        assert insts[..n][i] == insts[i];
      }
      UnwrittenKept(sem, fs, insts[..n], s, v);
    }
  }

  /** Code for a list that leaves a spared register alone leaves it alone. */
  lemma SparedKept(sem: Semantics, info: RegInfo, fs: seq<Fixed>, insts: seq<Instruction>, tables: seq<seq<Info>>,
                   moved: seq<int>, out: seq<Emitted>, s: Slot)
    requires Rewritten(sem, info.Allocatable(), fs, insts, tables, moved, out)
    requires Spared(info, s) && !WrittenBy(fs, insts, s)
    ensures Keeps(sem, out, s)
  {
    hide Emits, TableOk, Spared, WrittenBy, RunV, RunP;
    PoolIs(info, s);
    var n := |insts|;
    assert insts[..n] == insts && out[..|out|] == out;
    assert SimulatesFrom(sem, info.Allocatable(), fs, insts[..n], tables[n], out[..moved[n]]);
    forall p: PState
      ensures Get(RunP(sem, out, p).pregs, s) == Get(p.pregs, s)
    {
      var v := VState(map[], p.pregs, p.world);
      assert Agree(info.Allocatable(), v, p);
      assert Sim(tables[n], info.Allocatable(), -1, RunV(sem, fs, insts, v), RunP(sem, out, p));
      UnwrittenKept(sem, fs, insts, s, v);
    }
  }

  /** No register that must be spared stands for an unpinned virtual one. */
  ghost predicate Spares(info: RegInfo, table: seq<Info>) {
    forall k :: 0 <= k < |table| && table[k].mapped && table[k].fix.pin.None? ==> !Spared(info, SlotOf(table[k].reg))
  }

  lemma TableSpares(info: RegInfo, table: seq<Info>)
    requires TableOk(table, info.Allocatable())
    ensures Spares(info, table)
  {
    hide OwnersOk, SlotsOk, Spared;
    forall k | 0 <= k < |table| && table[k].mapped && table[k].fix.pin.None?
      ensures !Spared(info, SlotOf(table[k].reg))
    {
      assert Fits(table[k], info.Allocatable());
      PoolIs(info, SlotOf(table[k].reg));
    }
  }

  lemma RunSpares(sem: Semantics, info: RegInfo, fs: seq<Fixed>, insts: seq<Instruction>, tables: seq<seq<Info>>,
                  moved: seq<int>, out: seq<Emitted>)
    requires Rewritten(sem, info.Allocatable(), fs, insts, tables, moved, out)
    ensures forall i :: 0 <= i < |tables| ==> Spares(info, tables[i])
    ensures forall s :: Spared(info, s) && !WrittenBy(fs, insts, s) ==> Keeps(sem, out, s)
  {
    hide Emits, TableOk, Spared, WrittenBy, Keeps, Spares, SimulatesFrom;
    forall i | 0 <= i < |tables|
      ensures Spares(info, tables[i])
    {
      TableSpares(info, tables[i]);
    }
    forall s | Spared(info, s) && !WrittenBy(fs, insts, s)
      ensures Keeps(sem, out, s)
    {
      SparedKept(sem, info, fs, insts, tables, moved, out, s);
    }
  }

  /** Which pins leave automatic allocation alone: exactly the scratch integer registers. */
  lemma HarmlessPins(info: RegInfo, pin: PReg)
    requires info.Valid(pin)
    ensures SlotOf(pin) !in info.Allocatable() <==> pin.bank == IntBank && pin.id in info.scratch
  {
    assert SlotOf(pin) in info.Available() by {
      assert SlotOf(pin) == Slot(pin.bank, pin.id);
    }
    if pin.bank == IntBank && pin.id in info.scratch {
      assert SlotOf(pin) in (set id | id in info.scratch :: Slot(IntBank, id));
    }
  }

  /** The instructions an architecture injects around a spill area. */
  datatype Frame = Frame(enter: nat -> seq<Emitted>, leave: nat -> seq<Emitted>, resume: nat -> seq<Emitted>,
                         isReturn: int -> bool, isCall: int -> bool)

  /** What one emitted instruction becomes in a framed stream: a return gives the spill area back first,
      a call to a label of the same stream takes it again afterwards. */
  function Framed(f: Frame, slots: nat, labels: map<int, int>, e: Emitted): seq<Emitted> {
    Before(f, slots, e) + [e] + After(f, slots, labels, e)
  }

  function Before(f: Frame, slots: nat, e: Emitted): seq<Emitted> {
    if e.Body? && f.isReturn(e.inst.op) then f.leave(slots) else []
  }

  function After(f: Frame, slots: nat, labels: map<int, int>, e: Emitted): seq<Emitted> {
    if e.Body? && e.inst.src2.Lbl? && f.isCall(e.inst.op) && e.inst.src2.target in labels then f.resume(slots) else []
  }

  function Flatten(f: Frame, slots: nat, labels: map<int, int>, body: seq<Emitted>): seq<Emitted> {
    if body == [] then []
    else Flatten(f, slots, labels, body[..|body| - 1]) + Framed(f, slots, labels, body[|body| - 1])
  }

  /** Where emitted instruction i's piece of the framed stream starts. */
  ghost function PieceAt(f: Frame, slots: nat, labels: map<int, int>, out: seq<Emitted>, i: int): int
    requires 0 <= i <= |out|
  {
    |f.enter(slots)| + |Flatten(f, slots, labels, out[..i])|
  }

  /** The framed stream, and labels on the starts of pieces. */
  ghost predicate Framing(f: Frame, slots: nat, labels: map<int, int>, out: seq<Emitted>, final: seq<Emitted>,
                          rebased: map<int, int>) {
    && final == f.enter(slots) + Flatten(f, slots, labels, out) && rebased.Keys == labels.Keys
    && forall l :: l in rebased ==> exists i :: 0 <= i <= |out| && rebased[l] == PieceAt(f, slots, labels, out, i)
  }

  lemma FlattenNext(f: Frame, slots: nat, labels: map<int, int>, body: seq<Emitted>, n: nat)
    requires n < |body|
    ensures Flatten(f, slots, labels, body[..n + 1]) ==
      Flatten(f, slots, labels, body[..n]) + Framed(f, slots, labels, body[n])
  {
    assert body[..n + 1][..n] == body[..n];
  }

  lemma {:induction false} FlattenPrefix(f: Frame, slots: nat, labels: map<int, int>, body: seq<Emitted>, m: nat,
                                         n: nat)
    requires m <= n <= |body|
    ensures Flatten(f, slots, labels, body[..m]) <= Flatten(f, slots, labels, body[..n])
  {
    if m < n {
      FlattenPrefix(f, slots, labels, body, m, n - 1);
      FlattenNext(f, slots, labels, body, n - 1);
    }
  }

  /** Appending piece by piece is appending the whole. */
  lemma Joined(enter: seq<Emitted>, flat: seq<Emitted>, f: Frame, slots: nat, labels: map<int, int>, e: Emitted)
    ensures var a := if e.Body? && f.isReturn(e.inst.op) then (enter + flat) + f.leave(slots) else enter + flat;
            var b := a + [e];
            enter + (flat + Framed(f, slots, labels, e)) ==
            if e.Body? && e.inst.src2.Lbl? && f.isCall(e.inst.op) && e.inst.src2.target in labels
                then b + f.resume(slots) else b
  {
    var a := if e.Body? && f.isReturn(e.inst.op) then (enter + flat) + f.leave(slots) else enter + flat;
    assert a == enter + flat + Before(f, slots, e);
    assert a + [e] + After(f, slots, labels, e) == enter + (flat + Framed(f, slots, labels, e));
  }

  lemma FlattenNothing(f: Frame, slots: nat, labels: map<int, int>)
    ensures Flatten(f, slots, labels, []) == []
  {
  }

  lemma MovedInside(sem: Semantics, alloc: set<Slot>, fs: seq<Fixed>, insts: seq<Instruction>, tables: seq<seq<Info>>,
                    moved: seq<int>, out: seq<Emitted>)
    requires Rewritten(sem, alloc, fs, insts, tables, moved, out)
    ensures |moved| == |insts| + 1 && forall i :: 0 <= i < |moved| ==> 0 <= moved[i] <= |out|
  {
    hide Emits, SimulatesFrom, TableOk;
  }

  /** The register table for insts: the last mention and first declared width of every register, then
      the pins. None is an invalid operand. */
  method Prepare(info: RegInfo, insts: seq<Instruction>, pins: map<int, PReg>, banks: seq<Bank>)
                 returns (regs: Option<seq<Info>>)
    ensures regs.None? <==>
              || (exists i, u :: 0 <= i < |insts| && u in Refs(insts[i]) && !(0 <= u.id < |banks|))
              || (exists id :: id in pins && !(0 <= id < |banks| && info.Valid(pins[id])))
    ensures regs.Some? ==>
              && |regs.value| == |banks|
              && forall id :: 0 <= id < |banks| ==>
                   var r := regs.value[id];
                   && r == Info(r.fix, r.reg, -1, -1, false, false, false)
                   && r.fix.bank == banks[id] && LastMention(insts, id, r.fix.last)
                   && r.fix.pin == (if id in pins then Some(pins[id]) else None)
                   && r.fix.width == if id in pins then pins[id].width else FirstWidth(AllRefs(insts), id)
  {
    hide Refs, AllRefs, LastMention, FirstWidth, Noted, Scanned;
    var table := seq(|banks|, id requires 0 <= id < |banks| => Fixed(banks[id], None, Undefined, -1));
    ScannedNothing(insts, table);
    for i := 0 to |insts|
      invariant |table| == |banks| && Scanned(insts, i, table)
      invariant forall id :: 0 <= id < |banks| ==> table[id].bank == banks[id] && table[id].pin == None
      invariant forall k, u :: 0 <= k < i && u in Refs(insts[k]) ==> 0 <= u.id < |banks|
    {
      var rs := Refs(insts[i]);
      NotedStart(insts, i, table);
      for j := 0 to |rs|
        invariant |table| == |banks| && Noted(insts, i, j, table)
        invariant forall id :: 0 <= id < |banks| ==> table[id].bank == banks[id] && table[id].pin == None
        invariant forall k :: 0 <= k < j ==> 0 <= rs[k].id < |banks|
      {
        var u := rs[j];
        if !(0 <= u.id < |banks|) {
          return None;
        }
        var f := table[u.id].(last := i);
        if f.width == Undefined {
          f := f.(width := u.width);
        }
        NotedNext(insts, i, j, table, f);
        table := table[u.id := f];
      }
      NotedDone(insts, i, table);
    }
    assert insts[..|insts|] == insts;
    ScannedAll(insts, table);
    ghost var scanned := table;
    var keys := pins.Keys;
    while keys != {}
      invariant keys <= pins.Keys && |table| == |banks|
      invariant forall id :: id in pins.Keys - keys ==> 0 <= id < |banks| && info.Valid(pins[id])
      invariant forall id :: 0 <= id < |banks| ==>
                  table[id] == if id in pins.Keys - keys
                      then scanned[id].(pin := Some(pins[id]), width := pins[id].width)
                               else scanned[id]
      decreases keys
    {
      HasMember(keys);
      var id :| id in keys;
      keys := keys - {id};
      if !(0 <= id < |banks|) || !info.Valid(pins[id]) {
        return None;
      }
      table := table[id := table[id].(pin := Some(pins[id]), width := pins[id].width)];
    }
    regs := Some(seq(|table|,
        id requires 0 <= id < |table| => Info(table[id], PReg(0, table[id].bank, Undefined), -1, -1, false, false,
        false)));
  }

  lemma ScannedNothing(insts: seq<Instruction>, table: seq<Fixed>)
    requires forall id :: 0 <= id < |table| ==> table[id].width == Undefined && table[id].last == -1
    ensures Scanned(insts, 0, table)
  {
  }

  lemma ScannedAll(insts: seq<Instruction>, table: seq<Fixed>)
    requires Scanned(insts, |insts|, table)
    ensures forall id :: 0 <= id < |table| ==>
              table[id].width == FirstWidth(AllRefs(insts), id) && LastMention(insts, id, table[id].last)
  {
    assert insts[..|insts|] == insts;
  }

  /** The first n instructions are rewritten: one after the other, each as Emits says, computing together what the
      prefix of the list computes. */
  ghost predicate RewrittenTo(sem: Semantics, alloc: set<Slot>, fs: seq<Fixed>, insts: seq<Instruction>,
                              tables: seq<seq<Info>>, moved: seq<int>, out: seq<Emitted>, n: nat) {
    && n <= |insts| && |moved| == n + 1 && |tables| == n + 1 && moved[0] == 0 && moved[n] == |out|
    && (forall i :: 0 <= i < n ==> Emits(sem, alloc, insts, tables, moved, out, i))
    && (forall i ::
       0 <= i <= n ==> 0 <= moved[i] <= |out| && SimulatesFrom(sem, alloc, fs, insts[..i], tables[i], out[..moved[i]]))
    && (forall i :: 0 <= i <= n ==> TableOk(tables[i], alloc) && Fixes(tables[i]) == fs)
  }

  ghost predicate Rewritten(sem: Semantics, alloc: set<Slot>, fs: seq<Fixed>, insts: seq<Instruction>,
                            tables: seq<seq<Info>>, moved: seq<int>, out: seq<Emitted>) {
    RewrittenTo(sem, alloc, fs, insts, tables, moved, out, |insts|)
  }

  lemma RewrittenNext(sem: Semantics, alloc: set<Slot>, fs: seq<Fixed>, insts: seq<Instruction>, tables: seq<seq<Info>>,
                      moved: seq<int>, o0: seq<Emitted>, out: seq<Emitted>, n: nat, regs: seq<Info>)
    requires n < |insts| && RewrittenTo(sem, alloc, fs, insts, tables, moved, o0, n) && o0 < out
    requires Becomes(insts[n], out[|o0|..]) && Executes(sem, alloc, tables[n], regs, insts[n], out[|o0|..])
    requires SimulatesFrom(sem, alloc, fs, insts[..n + 1], regs, out) && TableOk(regs, alloc) && Fixes(regs) == fs
    ensures RewrittenTo(sem, alloc, fs, insts, tables + [regs], moved + [|out|], out, n + 1)
  {
    hide Becomes, Executes, SimulatesFrom, TableOk;
    var ts, ms := tables + [regs], moved + [|out|];
    assert out[..|out|] == out;
    forall i | 0 <= i < n + 1
      ensures Emits(sem, alloc, insts, ts, ms, out, i)
    {
      if i < n {
        assert Emits(sem, alloc, insts, tables, moved, o0, i);
        assert o0[moved[i]..moved[i + 1]] == out[moved[i]..moved[i + 1]];
      } else {
        assert out[moved[n]..|out|] == out[|o0|..];
      }
    }
    forall i | 0 <= i <= n + 1
      ensures 0 <= ms[i] <= |out| && SimulatesFrom(sem, alloc, fs, insts[..i], ts[i], out[..ms[i]])
    {
      if i <= n {
        assert o0[..moved[i]] == out[..moved[i]];
      }
    }
  }

  ghost predicate Lands(final: seq<Emitted>, at: int, text: seq<Emitted>) {
    0 <= at && at + |text| <= |final| && final[at..at + |text|] == text
  }

  lemma {:induction false} FlattenJoins(f: Frame, slots: nat, labels: map<int, int>, a: seq<Emitted>, b: seq<Emitted>)
    ensures Flatten(f, slots, labels, a + b) == Flatten(f, slots, labels, a) + Flatten(f, slots, labels, b)
  {
    hide Framed;
    if b == [] {
      assert a + b == a;
    } else {
      var n := |b| - 1;
      assert (a + b)[..|a + b| - 1] == a + b[..n];
      FlattenJoins(f, slots, labels, a, b[..n]);
    }
  }

  /** Where stretch m..n of a stream stands once it is framed. */
  lemma StretchLands(f: Frame, slots: nat, labels: map<int, int>, body: seq<Emitted>, m: nat, n: nat)
    requires m <= n <= |body|
    ensures Lands(f.enter(slots) + Flatten(f, slots, labels, body),
      |f.enter(slots)| + |Flatten(f, slots, labels, body[..m])|,
                  Flatten(f, slots, labels, body[m..n]))
  {
    hide Flatten;
    assert body == body[..m] + body[m..n] + body[n..];
    FlattenJoins(f, slots, labels, body[..m] + body[m..n], body[n..]);
    FlattenJoins(f, slots, labels, body[..m], body[m..n]);
  }

  /** Framing leaves spill traffic as it is. */
  lemma {:induction false} TrafficFlat(f: Frame, slots: nat, labels: map<int, int>, e: seq<Emitted>)
    requires Traffic(e)
    ensures Flatten(f, slots, labels, e) == e
  {
    if e != [] {
      var n := |e| - 1;
      TrafficFlat(f, slots, labels, e[..n]);
      assert e == e[..n] + [e[n]];
    }
  }

  /** What instruction inst became, e, as it stands in a framed stream: the traffic, then the frame's own instructions
      around the instruction. */
  lemma BecomesFramed(f: Frame, slots: nat, labels: map<int, int>, inst: Instruction, e: seq<Emitted>)
    requires Becomes(inst, e)
    ensures Flatten(f, slots, labels, e) == e[..|e| - 1] + Framed(f, slots, labels, e[|e| - 1])
  {
    hide Framed, Traffic;
    TrafficFlat(f, slots, labels, e[..|e| - 1]);
  }

  class Rewriter {
    var frame: Option<Frame>
    var regs: seq<Info>
    var owners: map<Slot, int>
    var avail: set<Slot>
    const allocatable: set<Slot>
    var slots: nat
    var freed: seq<int>
    var out: seq<Emitted>
    ghost const info: RegInfo
    ghost const sem: Semantics

    ghost predicate Valid()
      reads `frame, `regs, `owners, `avail, `slots, `freed
    {
      && (forall k :: 0 <= k < |regs| ==>
            Fits(regs[k], allocatable) && (regs[k].spilled ==> frame.Some? && regs[k].fix.bank == IntBank))
      && OwnersOk(regs, owners, avail, allocatable)
      && SlotsOk(regs, slots, freed)
      && slots <= MAX_SPILL_SLOTS && (slots > 0 ==> frame.Some?)
      && (forall s :: s in allocatable ==> 0 <= s.id < BANK_SIZE)
    }

    /** A rewriter over a prepared table. Pins name only registers automatic allocation leaves alone. */
    constructor (info: RegInfo, frame: Option<Frame>, regs: seq<Info>, ghost sem: Semantics)
      requires forall k :: 0 <= k < |regs| ==> regs[k] == Info(regs[k].fix, regs[k].reg, -1, -1, false, false, false)
      requires forall k :: 0 <= k < |regs| && regs[k].fix.pin.Some? ==>
                 var pin := regs[k].fix.pin.value; pin.bank == regs[k].fix.bank && SlotOf(pin) !in info.Allocatable()
      ensures Unstarted() && this.frame == frame && this.regs == regs && this.sem == sem && this.info == info
      ensures avail == info.Available()
    {
      this.frame := frame;
      this.regs := regs;
      owners := map[];
      avail := info.Available();
      allocatable := info.Allocatable();
      slots := 0;
      freed := [];
      out := [];
      this.sem := sem;
      this.info := info;
    }

    /** Returns id's bank slot to the pool; the recorded assignment stays for the instruction being emitted. */
    method Free(id: int)
      requires Valid() && 0 <= id < |regs|
      modifies `regs, `owners, `avail
      ensures Valid() && regs == old(regs)[id := old(regs)[id].(bound := false)]
      ensures old(regs)[id].bound ==> SlotOf(old(regs)[id].reg) in avail && SlotOf(old(regs)[id].reg) !in owners
      ensures !old(regs)[id].bound ==> owners == old(owners) && avail == old(avail)
    {
      hide OwnersOk, SlotsOk;
      if !regs[id].bound {
        return;
      }
      OwnersFree(regs, owners, avail, allocatable, id);
      var s := SlotOf(regs[id].reg);
      SlotsSame(regs, regs[id := regs[id].(bound := false)], slots, freed);
      owners := owners - {s};
      avail := avail + {s};
      regs := regs[id := regs[id].(bound := false)];
    }

    /** Records that id holds preg. */
    method Own(id: int, preg: PReg)
      requires Valid() && 0 <= id < |regs| && !regs[id].bound && SlotOf(preg) !in owners
      requires preg.bank == regs[id].fix.bank
      requires match regs[id].fix.pin case Some(pin) => SlotOf(preg) ==
        SlotOf(pin) case None => SlotOf(preg) in allocatable
      modifies `regs, `owners, `avail
      ensures Valid() && regs == old(regs)[id := old(regs)[id].(reg := preg, mapped := true, bound := true)]
    {
      hide OwnersOk, SlotsOk;
      Free(id);
      assert regs == old(regs);
      var r := regs[id].(reg := preg, mapped := true, bound := true);
      SlotsSame(regs, regs[id := r], slots, freed);
      OwnersTake(regs, owners, avail, allocatable, id, preg);
      avail := avail - {SlotOf(preg)};
      regs := regs[id := r];
      owners := owners[SlotOf(preg) := id];
    }

    /** Hands id its pin, unbinding whichever other register is pinned there and holds it. */
    method Reserve(id: int, preg: PReg)
      requires Valid() && 0 <= id < |regs| && !regs[id].bound && regs[id].fix.pin == Some(preg)
      modifies `regs, `owners, `avail
      ensures Valid() && |regs| == old(|regs|)
      ensures regs[id] == old(regs)[id].(reg := preg, mapped := true, bound := true)
      ensures forall k :: 0 <= k < |regs| && k != id ==>
                regs[k] == old(regs)[k] || (regs[k].fix.pin.Some? && regs[k] == old(regs)[k].(bound := false))
    {
      hide SlotsOk;
      var s := SlotOf(preg);
      if s in owners && owners[s] != id {
        Free(owners[s]);
      }
      avail := avail - {s};
      Own(id, preg);
    }

    /** The lowest register of the bank in the mask, if there is one. */
    method First(bank: Bank, mask: set<Slot>) returns (id: Option<int>)
      ensures id.Some? ==> 0 <= id.value < BANK_SIZE && Slot(bank, id.value) in mask
                           && forall k :: 0 <= k < id.value ==> Slot(bank, k) !in mask
      ensures id.None? ==> forall k :: 0 <= k < BANK_SIZE ==> Slot(bank, k) !in mask
    {
      for k := 0 to BANK_SIZE
        invariant forall j :: 0 <= j < k ==> Slot(bank, j) !in mask
      {
        if Slot(bank, k) in mask {
          return Some(k);
        }
      }
      id := None;
    }

    /** preg is the first register of its bank that is free for automatic allocation. */
    ghost predicate LowestFree(free: set<Slot>, preg: PReg) {
      && SlotOf(preg) in free && SlotOf(preg) in allocatable
      && forall k :: 0 <= k < preg.id ==> Slot(preg.bank, k) !in free || Slot(preg.bank, k) !in allocatable
    }

    /** Claims the lowest free register of v's bank. */
    method Alloc(v: VReg) returns (ok: bool)
      requires Valid() && Typed(regs, v) && !regs[v.id].bound && regs[v.id].fix.pin.None?
      modifies `regs, `owners, `avail
      ensures Valid() && |regs| == old(|regs|)
      ensures ok ==> regs == old(regs)[v.id := old(regs)[v.id].(reg := regs[v.id].reg, mapped := true, bound := true)]
      ensures ok ==> LowestFree(old(avail), regs[v.id].reg)
      ensures ok ==> regs[v.id].reg.bank == v.bank && regs[v.id].reg.width == v.width
      ensures !ok ==> unchanged(this) && forall s :: s in avail && s in allocatable ==> s.bank != v.bank
    {
      hide SlotsOk;
      var id := First(v.bank, avail * allocatable);
      if id.None? {
        return false;
      }
      var preg := PReg(id.value, v.bank, v.width);
      Own(v.id, preg);
      ok := true;
    }

    /** The integer slot below `bound` holds a register the instruction at `at` may evict. */
    ghost predicate Evictable(s: Slot, at: int, bound: int)
      requires OwnersOk(regs, owners, avail, allocatable) && s in owners
      reads this
    {
      s.bank == IntBank && 0 <= s.id < bound && regs[owners[s]].fix.pin.None? && regs[owners[s]].guard != at
    }

    /** best may be evicted at instruction `at`, and of all that may its last use lies farthest ahead. */
    ghost predicate Farthest(best: int, at: int)
      reads this
    {
      && OwnersOk(regs, owners, avail, allocatable) && 0 <= best < |regs|
      && SlotOf(regs[best].reg) in owners && Evictable(SlotOf(regs[best].reg), at, BANK_SIZE)
      && owners[SlotOf(regs[best].reg)] == best
      && forall s :: s in owners && Evictable(s, at, BANK_SIZE) ==> regs[owners[s]].fix.last <= regs[best].fix.last
    }

    /** The bound integer register whose last use lies farthest ahead, leaving out pinned ones and
        everything the instruction at `at` touches. */
    method Victim(at: int) returns (best: int)
      requires Valid()
      ensures best == -1 || (0 <= best < |regs| && regs[best].bound && regs[best].reg.bank == IntBank
                             && regs[best].fix.pin.None? && regs[best].guard != at
                             && SlotOf(regs[best].reg) in allocatable && regs[best].fix.bank == IntBank)
      ensures forall s :: s in owners && Evictable(s, at, BANK_SIZE) ==>
                regs[owners[s]].fix.last <= if best == -1 then -1 else regs[best].fix.last
      ensures best != -1 ==> Farthest(best, at)
    {
      hide SlotsOk;
      best := -1;
      var last := -1;
      for id := 0 to BANK_SIZE
        invariant best == -1 || (0 <= best < |regs| && regs[best].bound && regs[best].reg.bank == IntBank
                                 && regs[best].fix.pin.None? && regs[best].guard != at
                                 && SlotOf(regs[best].reg) in allocatable && regs[best].fix.bank == IntBank)
        invariant last == if best == -1 then -1 else regs[best].fix.last
        invariant forall s :: s in owners && Evictable(s, at, id) ==> regs[owners[s]].fix.last <= last
      {
        if Slot(IntBank, id) in owners {
          var k := owners[Slot(IntBank, id)];
          var r := regs[k];
          if !(r.fix.pin.Some? || r.guard == at || r.fix.last <= last) {
            last := r.fix.last;
            best := k;
          }
        }
      }
    }

    /** A spill slot: one a dead register gave back, or else a new one below the cap. */
    method ReserveSlot(ghost id: int, ghost r: Info) returns (slot: int)
      requires SlotsOk(regs, slots, freed) && slots <= MAX_SPILL_SLOTS && 0 <= id < |regs| && regs[id].slot < 0
      modifies `slots, `freed
      ensures slot == -1 ==> unchanged(this) && freed == [] && slots == MAX_SPILL_SLOTS
      ensures slot != -1 ==>
                && slot >= 0 && old(slots) <= slots <= MAX_SPILL_SLOTS
                && SlotsOk(regs[id := r.(slot := slot)], slots, freed)
                && forall k :: 0 <= k < |regs| && k != id && regs[k].slot >= 0 ==> regs[k].slot != slot
    {
      if |freed| > 0 {
        slot := freed[|freed| - 1];
        SlotsTake(regs, slots, freed, id, r.(slot := slot));
        freed := freed[..|freed| - 1];
        return;
      }
      if slots >= MAX_SPILL_SLOTS {
        return -1;
      }
      SlotsTake(regs, slots, freed, id, r.(slot := slots));
      slots := slots + 1;
      slot := slots - 1;
    }

    /** Writes id's live value to its spill slot and returns its register to the pool. */
    method Spill(id: int) returns (ok: bool)
      requires Valid() && frame.Some? && 0 <= id < |regs|
      requires regs[id].bound && !regs[id].spilled && regs[id].fix.pin.None? && regs[id].fix.bank == IntBank
      modifies `regs, `owners, `avail, `slots, `freed, `out
      ensures ok ==>
                && Valid() && |regs| == old(|regs|)
                && regs == old(regs)[id := old(regs)[id].(bound := false, spilled := true, slot := regs[id].slot)]
                && out == old(out) + [Store(regs[id].slot, old(regs)[id].reg)]
                && SlotOf(old(regs)[id].reg) in avail && old(slots) <= slots
                && forall x :: x != id ==>
                     Carries(sem, allocatable, old(regs), x, regs, x, [Store(regs[id].slot, old(regs)[id].reg)])
      ensures !ok ==> unchanged(this) && freed == [] && slots == MAX_SPILL_SLOTS && regs[id].slot < 0
    {
      hide OwnersOk, SlotsOk, Carries;
      ghost var r0 := regs;
      var s := regs[id];
      if s.slot < 0 {
        var slot := ReserveSlot(id, s);
        if slot == -1 {
          return false;
        }
        s := s.(slot := slot);
        OwnersSame(regs, regs[id := s], owners, avail, allocatable);
        regs := regs[id := s];
      } else {
        OtherSlots(regs, slots, freed, id);
      }
      out := out + [Store(s.slot, s.reg)];
      Free(id);
      TableSame(regs, regs[id := regs[id].(spilled := true)], owners, avail, allocatable, slots, freed);
      regs := regs[id := regs[id].(spilled := true)];
      assert regs == r0[id := r0[id].(bound := false, spilled := true, slot := s.slot)];
      forall x | x != id
        ensures Carries(sem, allocatable, r0, x, regs, x, [Store(s.slot, r0[id].reg)])
      {
        CarriesSpill(sem, allocatable, r0, x, id, s.slot);
      }
      ok := true;
    }

    /** Nothing can be had for the bank at instruction `at`: no register of it is free, and spilling is off, or
        finds nothing to evict, or has no slot left. */
    ghost predicate NoRegister(bank: Bank, at: int)
      reads this
    {
      && OwnersOk(regs, owners, avail, allocatable)
      && (forall s :: s in avail && s in allocatable ==> s.bank != bank)
      && (frame.None? || bank != IntBank || (freed == [] && slots == MAX_SPILL_SLOTS)
          || forall s :: s in owners && Evictable(s, at, BANK_SIZE) ==> regs[owners[s]].fix.last < 0)
    }

    /** Some bank is exhausted at instruction `at`. */
    ghost predicate Full(at: int)
      reads this
    {
      exists bank :: NoRegister(bank, at)
    }

    /** Registers have been bound as the rules say; what fails or spills does so for want of room. */
    ghost predicate Progress(ok: bool, r: seq<Info>, slots0: nat, out0: seq<Emitted>, at: int, was: seq<Info>,
                             names: set<int>)
      reads this
    {
      && (ok ==> Within(was, regs, at, names, allocatable) && slots0 <= slots)
      && (ok && out == out0 ==> Still(r, regs))
      && (!ok || out != out0 || slots != slots0 ==> Tight(was, names, allocatable))
      && (!ok ==> Squeezed(frame.Some?, was, names, allocatable) || |was| > MAX_SPILL_SLOTS)
    }

    lemma NoneToEvict(at: int, was: seq<Info>, names: set<int>)
      requires Valid() && Within(was, regs, at, names, allocatable) && Mentioned(was, names)
      requires forall s :: s in owners && Evictable(s, at, BANK_SIZE) ==> regs[owners[s]].fix.last < 0
      ensures forall s :: s in Room(allocatable, IntBank) && s in owners ==> regs[owners[s]].guard == at
    {
      hide Within, Mentioned, SlotsOk;
      OwnersTouched(was, regs, owners, avail, allocatable, at, names);
    }

    /** Draws a register for v, spilling the value whose last use is farthest when the bank is full. */
    method Obtain(v: VReg, at: int, ghost was: seq<Info>, ghost names: set<int>) returns (ok: bool)
      requires Valid() && Clean(regs, v.id) && Typed(regs, v)
      requires !regs[v.id].bound && regs[v.id].fix.pin.None? && regs[v.id].guard == at
      requires Within(was, regs, at, names, allocatable) && Mentioned(was, names) && v.id in names
      modifies `regs, `owners, `avail, `slots, `freed, `out
      ensures ok ==>
                && Valid() && |regs| == old(|regs|) && old(out) <= out
                && regs[v.id] == old(regs)[v.id].(reg := regs[v.id].reg, mapped := true, bound := true)
                && (forall k :: 0 <= k < |regs| && k != v.id ==> Kept(old(regs)[k], regs[k], at))
                && Carries(sem, allocatable, old(regs), -1, regs, Unknown(old(regs), v.id), out[|old(out)|..])
                && Traffic(out[|old(out)|..])
      ensures ok ==> if out == old(out) then LowestFree(old(avail), regs[v.id].reg) else
                && (forall s :: s in old(avail) && s in allocatable ==> s.bank != v.bank)
                && exists k :: old(Farthest(k, at)) && 0 <= k < |regs| && !regs[k].bound && regs[k].spilled
                     && out == old(out) + [Store(regs[k].slot, old(regs)[k].reg)]
      ensures ok && out != old(out) ==> !SamePlaces(old(regs), regs)
      ensures !ok ==> Full(at)
      ensures Progress(ok, old(regs), old(slots), old(out), at, was, names)
    {
      hide OwnersOk, SlotsOk, Carries, Fits, Evictable, Within, Tight, Squeezed, Mentioned, Still;
      ghost var r0, x := regs, Unknown(regs, v.id);
      ok := Alloc(v);
      if ok {
        CarriesWeaken(sem, allocatable, r0, -1, regs, x);
        assert out[|old(out)|..] == [];
        WithinKept(was, r0, regs, at, names, allocatable, v.id);
        assert Still(r0, regs) by { StillBut(r0, regs, v.id); }
        return;
      }
      TakenJams(was, regs, owners, avail, allocatable, at, names, v.bank, v.id);
      if frame.None? || v.bank != IntBank {
        assert NoRegister(v.bank, at);
        SqueezedBy(frame.Some?, was, names, allocatable, v.bank);
        return false;
      }
      var victim := Victim(at);
      if victim == -1 {
        assert NoRegister(v.bank, at);
        NoneToEvict(at, was, names);
        TouchedSqueezes(was, regs, owners, avail, allocatable, at, names, v.id);
        SqueezedBy(true, was, names, allocatable, IntBank);
        return false;
      }
      var spilled := Spill(victim);
      if !spilled {
        assert NoRegister(v.bank, at);
        SlotsBelong(regs, slots, freed, victim);
        WithinSize(was, regs, at, names, allocatable);
        return false;
      }
      ghost var r1, e := regs, [Store(regs[victim].slot, r0[victim].reg)];
      ok := Alloc(v);
      if !ok {
        assert false;
      }
      CarriesWeaken(sem, allocatable, r1, -1, regs, x);
      CarriesTrans(sem, allocatable, r0, -1, r1, -1, regs, x, e, []);
      assert out[|old(out)|..] == e + [];
      assert !SamePlace(r0[victim], regs[victim]);
      WithinKept(was, r0, regs, at, names, allocatable, v.id);
    }

    /** Gives an unbound register its pin or a register of its bank. */
    method Place(v: VReg, at: int, ghost was: seq<Info>, ghost names: set<int>) returns (ok: bool)
      requires Valid() && Clean(regs, v.id) && Typed(regs, v) && !regs[v.id].bound && regs[v.id].guard == at
      requires Within(was, regs, at, names, allocatable) && Mentioned(was, names) && v.id in names
      modifies `regs, `owners, `avail, `slots, `freed, `out
      ensures ok ==>
                && Valid() && |regs| == old(|regs|) && old(out) <= out
                && regs[v.id] == old(regs)[v.id].(reg := regs[v.id].reg, mapped := true, bound := true)
                && (forall k :: 0 <= k < |regs| && k != v.id ==> Kept(old(regs)[k], regs[k], at))
                && Carries(sem, allocatable, old(regs), -1, regs, Unknown(old(regs), v.id), out[|old(out)|..])
      ensures ok ==> Traffic(out[|old(out)|..])
      ensures !ok ==> Full(at)
      ensures Progress(ok, old(regs), old(slots), old(out), at, was, names)
    {
      hide Full, NoRegister, OwnersOk, SlotsOk, Carries, Fits, Within, Tight, Squeezed, Mentioned, Still;
      if regs[v.id].fix.pin.Some? {
        Reserve(v.id, regs[v.id].fix.pin.value);
        CarriesWeaken(sem, allocatable, old(regs), -1, regs, -1);
        assert out[|old(out)|..] == [];
        WithinKept(was, old(regs), regs, at, names, allocatable, v.id);
        PinnedStill(old(regs), regs, v.id);
        return true;
      }
      ok := Obtain(v, at, was, names);
    }

    /** Makes v hold a register and keeps it off-limits to eviction during the instruction at `at`. */
    method Bind(v: VReg, at: int, ghost was: seq<Info>, ghost names: set<int>) returns (ok: bool)
      requires Valid() && Clean(regs, -1) && Typed(regs, v)
      requires Within(was, regs, at, names, allocatable) && Mentioned(was, names) && v.id in names
      modifies `regs, `owners, `avail, `slots, `freed, `out
      ensures ok ==>
                && Valid() && |regs| == old(|regs|) && old(out) <= out
                && regs[v.id] == old(regs)[v.id].(reg := regs[v.id].reg, guard := at, mapped := true, bound := true)
                && (old(regs)[v.id].bound ==> regs[v.id].reg == old(regs)[v.id].reg)
                && (forall k :: 0 <= k < |regs| && k != v.id ==> Kept(old(regs)[k], regs[k], at))
                && Carries(sem, allocatable, old(regs), -1, regs, Unknown(old(regs), v.id), out[|old(out)|..])
      ensures ok ==> Traffic(out[|old(out)|..])
      ensures !ok ==> Full(at)
      ensures Progress(ok, old(regs), old(slots), old(out), at, was, names)
    {
      hide Full, NoRegister, OwnersOk, SlotsOk, Carries, Within, Tight, Squeezed, Mentioned, Still;
      ghost var r0, x := regs, Unknown(regs, v.id);
      TableSame(regs, regs[v.id := regs[v.id].(guard := at)], owners, avail, allocatable, slots, freed);
      regs := regs[v.id := regs[v.id].(guard := at)];
      ghost var r1 := regs;
      WithinKept(was, r0, r1, at, names, allocatable, v.id);
      assert Still(r0, r1) by { StillMarked(r0, r1, v.id); }
      CarriesWeaken(sem, allocatable, r0, -1, r1, -1);
      ok := true;
      if !regs[v.id].bound {
        ok := Place(v, at, was, names);
        if ok {
          CarriesTrans(sem, allocatable, r0, -1, r1, -1, regs, x, [], out[|old(out)|..]);
          if out == old(out) {
            StillTrans(r0, r1, regs);
          }
        }
      }
      assert ok ==> [] + out[|old(out)|..] == out[|old(out)|..];
    }

    /** Clears v's spilled mark, after a reload when its value is only in the spill slot. */
    method Refresh(v: VReg, reload: bool)
      requires Valid() && Clean(regs, v.id) && Typed(regs, v) && regs[v.id].bound && reload == regs[v.id].spilled
      modifies `regs, `out
      ensures Valid() && Clean(regs, -1) && old(out) <= out
      ensures regs == old(regs)[v.id := old(regs)[v.id].(spilled := false)]
      ensures Carries(sem, allocatable, old(regs), -1, regs, -1, out[|old(out)|..])
      ensures Traffic(out[|old(out)|..]) && (!reload ==> out == old(out))
    {
      hide OwnersOk, SlotsOk, Carries;
      ghost var r2 := regs[v.id := regs[v.id].(spilled := false)];
      TableSame(regs, r2, owners, avail, allocatable, slots, freed);
      OwnersInjective(regs, owners, avail, allocatable);
      if reload {
        CarriesReload(sem, allocatable, regs, v.id);
        out := out + [Reload(regs[v.id].reg, regs[v.id].slot)];
      } else {
        CarriesWeaken(sem, allocatable, regs, -1, r2, -1);
        assert out[|old(out)|..] == [];
      }
      regs := regs[v.id := regs[v.id].(spilled := false)];
    }

    /** Makes v readable from a register, reloading it when it was spilled. */
    method Use(v: VReg, at: int, ghost was: seq<Info>, ghost names: set<int>) returns (ok: bool)
      requires Valid() && Clean(regs, -1) && Typed(regs, v) && (regs[v.id].fix.pin.None? ==> Alive(regs[v.id]))
      requires Within(was, regs, at, names, allocatable) && Mentioned(was, names) && v.id in names
      modifies `regs, `owners, `avail, `slots, `freed, `out
      ensures ok ==>
                && Valid() && Clean(regs, -1) && old(out) <= out
                && Touched(old(regs), regs, at) && Ready(regs[v.id], at)
                && Carries(sem, allocatable, old(regs), -1, regs, -1, out[|old(out)|..])
      ensures ok ==> Traffic(out[|old(out)|..])
      ensures !ok ==> Full(at)
      ensures Progress(ok, old(regs), old(slots), old(out), at, was, names)
    {
      hide Full, NoRegister, OwnersOk, SlotsOk, Carries, Fits, Tight, Squeezed, Mentioned, Still, Within;
      ghost var r0, o0 := regs, out;
      var reload := regs[v.id].spilled && !regs[v.id].bound;
      ok := Bind(v, at, was, names);
      if !ok {
        return;
      }
      ghost var r1, o1 := regs, out;
      Refresh(v, reload);
      if reload {
        SpilledTight(was, r0, at, names, allocatable, v.id);
      }
      WithinKept(was, r1, regs, at, names, allocatable, v.id);
      assert Still(r1, regs) by { StillMarked(r1, regs, v.id); }
      CarriesTrans(sem, allocatable, r0, -1, r1, -1, regs, -1, o1[|o0|..], out[|o1|..]);
      TrafficJoins(o1[|o0|..], out[|o1|..]);
      assert out[|o0|..] == o1[|o0|..] + out[|o1|..];
      if out == o0 {
        StillTrans(r0, r1, regs);
      }
    }

    /** Returns id's register and spill slot. */
    method Release(id: int)
      requires Valid() && Clean(regs, -1) && 0 <= id < |regs|
      modifies `regs, `owners, `avail, `freed
      ensures Valid() && Clean(regs, -1) && |regs| == old(|regs|)
      ensures regs == old(regs)[id := old(regs)[id].(bound := false, spilled := false, slot := regs[id].slot)]
      ensures Carries(sem, allocatable, old(regs), -1, regs, -1, [])
    {
      hide OwnersOk, SlotsOk, Carries;
      ghost var r0 := regs;
      Free(id);
      ghost var r1 := regs;
      var s := regs[id].(spilled := false);
      if s.slot >= 0 {
        SlotsGive(regs, slots, freed, id, s.(slot := -1));
        freed := freed + [s.slot];
        s := s.(slot := -1);
      } else {
        SlotsSame(regs, regs[id := s], slots, freed);
      }
      OwnersSame(regs, regs[id := s], owners, avail, allocatable);
      regs := regs[id := s];
      CarriesWeaken(sem, allocatable, r0, -1, regs, -1);
    }

    /** Binds every register the instruction reads. */
    method UseAll(uses: seq<VReg>, at: int, ghost was: seq<Info>, ghost names: set<int>) returns (ok: bool)
      requires Valid() && Clean(regs, -1)
      requires forall u :: u in uses ==> Typed(regs, u) && (regs[u.id].fix.pin.None? ==> Alive(regs[u.id]))
      requires Within(was, regs, at, names, allocatable) && Mentioned(was, names)
      requires forall u :: u in uses ==> u.id in names
      modifies `regs, `owners, `avail, `slots, `freed, `out
      ensures ok ==>
                && Valid() && Clean(regs, -1) && old(out) <= out
                && Touched(old(regs), regs, at)
                && (forall u :: u in uses ==> Typed(regs, u) && Ready(regs[u.id], at))
                && Carries(sem, allocatable, old(regs), -1, regs, -1, out[|old(out)|..])
      ensures ok ==> Traffic(out[|old(out)|..])
      ensures !ok ==> Full(at)
      ensures Progress(ok, old(regs), old(slots), old(out), at, was, names)
    {
      hide Full, NoRegister, OwnersOk, SlotsOk, Carries, Fits, Valid, Clean, Ready, Tight, Squeezed, Mentioned,
           Still, Within;
      CarriesNothing(sem, allocatable, regs, -1);
      assert out[|old(out)|..] == [];
      StillHere(regs);
      for j := 0 to |uses|
        invariant Valid() && Clean(regs, -1) && old(out) <= out && Touched(old(regs), regs, at)
        invariant forall u :: u in uses[..j] ==> Typed(regs, u) && Ready(regs[u.id], at)
        invariant Carries(sem, allocatable, old(regs), -1, regs, -1, out[|old(out)|..]) && Traffic(out[|old(out)|..])
        invariant Progress(true, old(regs), old(slots), old(out), at, was, names)
      {
        ghost var r, o := regs, out;
        ok := Use(uses[j], at, was, names);
        if !ok {
          return;
        }
        TouchedTrans(old(regs), r, regs, at);
        if out == old(out) {
          StillTrans(old(regs), r, regs);
        }
        TouchedReady(r, regs, at, uses[..j]);
        assert uses[..j + 1] == uses[..j] + [uses[j]];
        CarriesTrans(sem, allocatable, old(regs), -1, r, -1, regs, -1, o[|old(out)|..], out[|o|..]);
        TrafficJoins(o[|old(out)|..], out[|o|..]);
        assert out[|old(out)|..] == o[|old(out)|..] + out[|o|..];
      }
      assert uses[..|uses|] == uses;
      ok := true;
    }

    /** A table stays valid when a register is no longer marked as spilled. */
    lemma Unspills(id: int)
      requires Valid() && 0 <= id < |regs|
      ensures var r := regs[id := regs[id].(spilled := false)];
              && (forall k :: 0 <= k < |r| ==>
                    Fits(r[k], allocatable) && (r[k].spilled ==> frame.Some? && r[k].fix.bank == IntBank))
              && OwnersOk(r, owners, avail, allocatable) && SlotsOk(r, slots, freed)
    {
      hide OwnersOk, SlotsOk;
      TableSame(regs, regs[id := regs[id].(spilled := false)], owners, avail, allocatable, slots, freed);
    }

    /** Binds the destination and forgets any spilled copy of its old value. The result names the register
        whose value only the instruction itself will make right. */
    method Define(dst: VReg, at: int, ghost was: seq<Info>, ghost names: set<int>) returns (ok: bool, ghost x: int)
      requires Valid() && Clean(regs, -1) && Typed(regs, dst)
      requires Within(was, regs, at, names, allocatable) && Mentioned(was, names) && dst.id in names
      modifies `regs, `owners, `avail, `slots, `freed, `out
      ensures ok ==>
                && Valid() && Clean(regs, -1) && old(out) <= out
                && Touched(old(regs), regs, at) && Ready(regs[dst.id], at) && regs[dst.id].bound
                && !regs[dst.id].spilled
                && x == (if old(regs)[dst.id].bound || old(regs)[dst.id].fix.pin.Some? then -1 else dst.id)
                && Carries(sem, allocatable, old(regs), -1, regs, x, out[|old(out)|..])
      ensures ok ==> Traffic(out[|old(out)|..])
      ensures !ok ==> Full(at)
      ensures Progress(ok, old(regs), old(slots), old(out), at, was, names)
    {
      hide Full, NoRegister, OwnersOk, SlotsOk, Carries, Tight, Squeezed, Mentioned, Still, Within, Fits;
      x := if regs[dst.id].bound || regs[dst.id].fix.pin.Some? then -1 else dst.id;
      ghost var r0 := regs;
      ok := Bind(dst, at, was, names);
      if !ok {
        return;
      }
      ghost var r1, r2 := regs, regs[dst.id := regs[dst.id].(spilled := false)];
      Unspills(dst.id);
      regs := regs[dst.id := regs[dst.id].(spilled := false)];
      CarriesWeaken(sem, allocatable, r1, Unknown(r0, dst.id), r2, x);
      CarriesTrans(sem, allocatable, r0, -1, r1, Unknown(r0, dst.id), r2, x, out[|old(out)|..], []);
      assert out[|old(out)|..] + [] == out[|old(out)|..];
      WithinKept(was, r1, r2, at, names, allocatable, dst.id);
      assert Still(r1, r2) by { StillMarked(r1, r2, dst.id); }
      if out == old(out) {
        StillTrans(r0, r1, r2);
      }
    }

    /** Releases every register of rs that the instruction at `at` references last. */
    method ReleaseDead(rs: seq<VReg>, at: int)
      requires Valid() && Clean(regs, -1) && forall u :: u in rs ==> Typed(regs, u)
      modifies `regs, `owners, `avail, `freed
      ensures Valid() && Clean(regs, -1) && Survive(old(regs), regs, at)
      ensures Dropped(old(regs), regs, rs, at)
      ensures Carries(sem, allocatable, old(regs), -1, regs, -1, [])
    {
      hide OwnersOk, SlotsOk, Carries, Fits, Valid, Clean, Dropped;
      DroppedNone(regs, at);
      assert rs[..0] == [] && rs[..|rs|] == rs;
      CarriesNothing(sem, allocatable, regs, -1);
      for j := 0 to |rs|
        invariant Valid() && Clean(regs, -1) && Survive(old(regs), regs, at)
        invariant Dropped(old(regs), regs, rs[..j], at)
        invariant Carries(sem, allocatable, old(regs), -1, regs, -1, [])
      {
        ghost var r := regs;
        assert Typed(old(regs), rs[j]);
        if regs[rs[j].id].fix.last == at {
          Release(rs[j].id);
          SurviveTrans(old(regs), r, regs, at);
          CarriesTrans(sem, allocatable, old(regs), -1, r, -1, regs, -1, [], []);
          ghost var none: seq<Emitted> := [];
          assert none + none == none;
        }
        DroppedNext(old(regs), r, regs, rs, j, at);
      }
    }

    /** Binds every register the instruction names. x is the one whose value only the instruction will make right. */
    method BindAll(i: int, inst: Instruction) returns (ok: bool, ghost x: int)
      requires Valid() && Clean(regs, -1) && (forall k :: 0 <= k < |regs| ==> regs[k].guard < i)
      requires forall u :: u in Uses(inst) ==> Typed(regs, u) && (regs[u.id].fix.pin.None? ==> Alive(regs[u.id]))
      requires (inst.dst.V? ==> Typed(regs, inst.dst.v)) && Mentioned(regs, Names(inst))
      modifies `regs, `owners, `avail, `slots, `freed, `out
      ensures ok ==>
                && Valid() && Clean(regs, -1) && old(out) <= out && Touched(old(regs), regs, i)
                && (forall u ::
                   u in Uses(inst) ==>
                       Typed(regs, u) && Ready(regs[u.id], i) && (regs[u.id].fix.pin.None? ==> u.id != x))
                && (inst.dst.V? ==>
                      var d := inst.dst.v;
                      Typed(regs, d) && Ready(regs[d.id], i) && regs[d.id].bound && !regs[d.id].spilled)
                && (x == -1 || (inst.dst.V? && x == inst.dst.v.id))
                && Carries(sem, allocatable, old(regs), -1, regs, x, out[|old(out)|..])
      ensures ok ==> Traffic(out[|old(out)|..])
      ensures !ok ==> Full(i)
      ensures Progress(ok, old(regs), old(slots), old(out), i, old(regs), Names(inst))
    {
      hide Full, NoRegister, OwnersOk, SlotsOk, Carries, Fits, Clean, Traffic, Within, Mentioned, Tight, Squeezed,
           Still, Names, Valid;
      ghost var r0 := regs;
      x := -1;
      var uses := Uses(inst);
      WithinStart(regs, i, Names(inst), allocatable);
      UsesNamed(inst);
      ok := UseAll(uses, i, r0, Names(inst));
      if !ok || !inst.dst.V? {
        return;
      }
      ghost var r1, o1 := regs, out;
      ok, x := Define(inst.dst.v, i, r0, Names(inst));
      if ok {
        TouchedReady(r1, regs, i, uses);
        TouchedTrans(r0, r1, regs, i);
        CarriesTrans(sem, allocatable, r0, -1, r1, -1, regs, x, o1[|old(out)|..], out[|o1|..]);
        TrafficJoins(o1[|old(out)|..], out[|o1|..]);
        assert out[|old(out)|..] == o1[|old(out)|..] + out[|o1|..];
        if out == old(out) {
          StillTrans(r0, r1, regs);
        }
      }
    }

    /** Rewrites one instruction: binds what it touches, emits its physical form, releases what dies. */
    method Step(i: int, inst: Instruction) returns (ok: bool)
      requires Valid() && Clean(regs, -1) && PhysicalOk(inst, allocatable)
      requires forall u :: u in Uses(inst) ==> Typed(regs, u) && (regs[u.id].fix.pin.None? ==> Alive(regs[u.id]))
      requires inst.dst.V? ==> Typed(regs, inst.dst.v)
      requires (forall k :: 0 <= k < |regs| ==> regs[k].guard < i) && Mentioned(regs, Names(inst))
      modifies `regs, `owners, `avail, `slots, `freed, `out
      ensures ok ==>
                && Valid() && Clean(regs, -1) && old(out) < out
                && Survive(old(regs), regs, i)
                && (inst.dst.V? && regs[inst.dst.v.id].fix.pin.None? && regs[inst.dst.v.id].fix.last != i ==>
                   Alive(regs[inst.dst.v.id]))
                && Executes(sem, allocatable, old(regs), regs, inst, out[|old(out)|..])
                && Becomes(inst, out[|old(out)|..])
      ensures !ok ==> Full(i)
      ensures ok ==> Stepped(old(regs), regs, i, inst, allocatable, |out| == |old(out)| + 1) && old(slots) <= slots
      ensures !ok || |out| != |old(out)| + 1 || slots != old(slots) ==> Tight(old(regs), Names(inst), allocatable)
      ensures !ok ==> Squeezed(frame.Some?, old(regs), Names(inst), allocatable) || |old(regs)| > MAX_SPILL_SLOTS
      ensures ok ==> !Squeezed(frame.Some?, old(regs), Names(inst), allocatable)
      ensures ok && slots == 0 ==> !Jam(old(regs), Names(inst), allocatable)
    {
      hide Full, NoRegister, OwnersOk, SlotsOk, Carries, Fits, Clean, Executes, PhysicalOk, Substitute, Traffic,
           SameForm, Names, Mentioned, Tight, Squeezed, Jam, Still, Within, Stepped, Dropped, Valid, Touched, Ready;
      ghost var r0, x := regs, -1;
      var uses := Uses(inst);
      ok, x := BindAll(i, inst);
      if !ok {
        return;
      }
      ghost var r2, o2 := regs, out;
      BoundServed(i, inst, r0);
      BodyExecutes(i, inst, r0, x, o2[|old(out)|..]);
      out := out + [Body(Substitute(regs, inst))];
      assert out[|old(out)|..] == o2[|old(out)|..] + [Body(Substitute(r2, inst))];
      ReleaseDead(uses, i);
      ghost var r3 := regs;
      ExecutesThen(sem, allocatable, r0, r2, r3, inst, out[|old(out)|..]);
      if inst.dst.V? {
        ReleaseDead([inst.dst.v], i);
        ExecutesThen(sem, allocatable, r0, r3, regs, inst, out[|old(out)|..]);
      }
      StepsTo(r0, r2, r3, regs, i, inst, allocatable, o2 == old(out));
      SurvivesAll(r0, r2, r3, regs, i, inst);
    }

    lemma BodyExecutes(i: int, inst: Instruction, r0: seq<Info>, x: int, e: seq<Emitted>)
      requires Valid() && Touched(r0, regs, i) && PhysicalOk(inst, allocatable)
      requires forall u ::
        u in Uses(inst) ==> Typed(regs, u) && Ready(regs[u.id], i) && (regs[u.id].fix.pin.None? ==> u.id != x)
      requires inst.dst.V? ==>
                 var d := inst.dst.v;
                 Typed(regs, d) && Ready(regs[d.id], i) && regs[d.id].bound && !regs[d.id].spilled
      requires x == -1 || (inst.dst.V? && x == inst.dst.v.id)
      requires Carries(sem, allocatable, r0, -1, regs, x, e)
      ensures Executes(sem, allocatable, r0, regs, inst, e + [Body(Substitute(regs, inst))])
      ensures SameForm(inst, Substitute(regs, inst))
    {
      hide OwnersOk, SlotsOk, Carries, Fits, Executes, PhysicalOk, Substitute, SameForm;
      SubstituteForm(regs, inst);
      ExecutesBody(sem, r0, regs, owners, avail, allocatable, inst, i, x, e);
    }

    lemma BoundServed(i: int, inst: Instruction, r0: seq<Info>)
      requires Valid() && Touched(r0, regs, i)
      requires forall u :: u in Uses(inst) ==> Typed(regs, u) && Ready(regs[u.id], i)
      requires inst.dst.V? ==> Typed(regs, inst.dst.v) && regs[inst.dst.v.id].bound
      ensures !Squeezed(frame.Some?, r0, Names(inst), allocatable)
      ensures slots == 0 ==> !Jam(r0, Names(inst), allocatable)
    {
      hide OwnersOk, Squeezed, Jam, Uses, Names, Touched;
      forall k | k in Names(inst) && 0 <= k < |regs| && regs[k].fix.pin.None?
        ensures regs[k].bound
      {
        NamesAre(inst, k);
        if IdIn(Uses(inst), k) {
          var j :| 0 <= j < |Uses(inst)| && Uses(inst)[j].id == k;
          assert Uses(inst)[j] in Uses(inst);
        }
      }
      Served(r0, regs, owners, avail, allocatable, i, Names(inst), frame.Some?);
    }

    ghost predicate HasBackEdge(insts: seq<Instruction>, labels: map<int, int>) {
      exists i :: 0 <= i < |insts| && insts[i].src2.Lbl? && insts[i].src2.target in labels &&
          labels[insts[i].src2.target] <= i
    }

    /** Whether some branch targets its own or an earlier position. */
    method BackEdge(insts: seq<Instruction>, labels: map<int, int>) returns (back: bool)
      ensures back <==> HasBackEdge(insts, labels)
    {
      for i := 0 to |insts|
        invariant forall j :: 0 <= j < i && insts[j].src2.Lbl? && insts[j].src2.target in labels ==>
                    labels[insts[j].src2.target] > j
      {
        var op := insts[i].src2;
        if op.Lbl? && op.target in labels && labels[op.target] <= i {
          return true;
        }
      }
      back := false;
    }

    /** Nothing has been rewritten yet. */
    ghost predicate Unstarted()
      reads this
    {
      && Valid() && allocatable == info.Allocatable() && out == [] && slots == 0 && freed == []
      && forall k :: 0 <= k < |regs| ==>
           !regs[k].mapped && !regs[k].bound && !regs[k].spilled && regs[k].slot == -1 && regs[k].guard == -1
    }

    /** What a rewriting comes to: it succeeds without a spill exactly when nothing is ever pressed, and succeeds at all
        exactly when no instruction is too wide, the spill slots being enough for every register. */
    ghost predicate Outcome(ok: bool, insts: seq<Instruction>, fs: seq<Fixed>, tables: seq<seq<Info>>, moved: seq<int>)
      reads this
    {
      && ((ok && slots == 0) <==> Calm(insts, fs, allocatable, |insts|))
      && (ok ==> !Crowded(frame.Some?, insts, fs, allocatable))
      && (!ok ==> Crowded(frame.Some?, insts, fs, allocatable) || |fs| > MAX_SPILL_SLOTS)
      && (ok ==> Going(insts, fs, allocatable, frame.Some?, tables, moved, slots, |insts|))
    }

    /** The first i instructions are rewritten; r is the table the pass started from. */
    ghost predicate Rewriting(insts: seq<Instruction>, r: seq<Info>, moved: seq<int>, tables: seq<seq<Info>>, i: int)
      reads this
    {
      && Valid() && Clean(regs, -1) && SameFixes(r, regs) && Begun(regs, i) && Reaches(insts, i, regs)
      && 0 <= i <= |insts| && SimulatesFrom(sem, allocatable, Fixes(r), insts[..i], regs, out)
      && |moved| == i && |tables| == i && (i == 0 ==> out == [])
      && RewrittenTo(sem, allocatable, Fixes(r), insts, tables + [regs], moved + [|out|], out, i)
      && (Lasts(insts, Fixes(r)) ==>
            Going(insts, Fixes(r), allocatable, frame.Some?, tables + [regs], moved + [|out|], slots, i))
    }

    lemma Starts(insts: seq<Instruction>)
      requires Unstarted() && Accepts(insts, regs, allocatable)
      ensures Rewriting(insts, regs, [], [], 0)
    {
      hide OwnersOk, SlotsOk, Accepts, Reaches, Going, Lasts, Begun, Fits, Becomes, Executes;
      SimulatesNothing(sem, allocatable, Fixes(regs), regs);
      assert insts[..0] == [] && out[..0] == [];
      ReachesNothing(insts, regs);
      TableIsOk(regs, owners, avail, allocatable, slots, freed);
      GoingStart(insts, Fixes(regs), allocatable, frame.Some?, regs);
      assert [] + [regs] == [regs] && [] + [|out|] == [0];
      BegunStart(regs);
    }

    /** The next instruction may be rewritten. */
    lemma MayStep(insts: seq<Instruction>, r: seq<Info>, moved: seq<int>, tables: seq<seq<Info>>, i: int)
      requires Accepts(insts, r, allocatable) && Rewriting(insts, r, moved, tables, i) && i < |insts|
      ensures Valid() && Clean(regs, -1) && PhysicalOk(insts[i], allocatable) && Accepts(insts, regs, allocatable)
      ensures forall u ::
        u in Uses(insts[i]) ==> Typed(regs, u) && (regs[u.id].fix.pin.None? ==> Alive(regs[u.id]))
      ensures insts[i].dst.V? ==> Typed(regs, insts[i].dst.v)
      ensures (forall k :: 0 <= k < |regs| ==> regs[k].guard < i) && Mentioned(regs, Names(insts[i]))
    {
      hide Valid, Clean, SimulatesFrom, RewrittenTo, Going, Lasts, Begun, Reaches, Accepts, PhysicalOk, Names,
           Mentioned;
      AcceptsAt(insts, r, regs, allocatable, i);
      AcceptsSame(insts, r, regs, allocatable);
      BegunMentioned(insts, allocatable, regs, i);
    }

    /** It has been. */
    lemma HasStepped(insts: seq<Instruction>, r: seq<Info>, moved: seq<int>, tables: seq<seq<Info>>, i: nat,
                     r0: seq<Info>, o0: seq<Emitted>, s0: nat)
      requires i < |insts| && |moved| == i && |tables| == i && Accepts(insts, r0, allocatable) && SameFixes(r, r0)
      requires Begun(r0, i) && Reaches(insts, i, r0) && SimulatesFrom(sem, allocatable, Fixes(r), insts[..i], r0, o0)
      requires RewrittenTo(sem, allocatable, Fixes(r), insts, tables + [r0], moved + [|o0|], o0, i)
      requires Lasts(insts, Fixes(r)) ==>
                 Going(insts, Fixes(r), allocatable, frame.Some?, tables + [r0], moved + [|o0|], s0, i)
      requires Valid() && Clean(regs, -1) && o0 < out && Survive(r0, regs, i)
      requires insts[i].dst.V? ==> Typed(r0, insts[i].dst.v)
      requires insts[i].dst.V? && regs[insts[i].dst.v.id].fix.pin.None? && regs[insts[i].dst.v.id].fix.last != i ==>
                 Alive(regs[insts[i].dst.v.id])
      requires Executes(sem, allocatable, r0, regs, insts[i], out[|o0|..]) && Becomes(insts[i], out[|o0|..])
      requires Stepped(r0, regs, i, insts[i], allocatable, |out| == |o0| + 1) && s0 <= slots
      requires |out| != |o0| + 1 || slots != s0 ==> Tight(r0, Names(insts[i]), allocatable)
      requires !Squeezed(frame.Some?, r0, Names(insts[i]), allocatable)
      requires slots == 0 ==> !Jam(r0, Names(insts[i]), allocatable)
      ensures Rewriting(insts, r, moved + [|o0|], tables + [r0], i + 1)
    {
      hide Clean, SimulatesFrom, RewrittenTo, Going, Lasts, Begun, Reaches, Accepts, Names, Executes, Becomes, Stepped,
           Squeezed, Jam, Tight, TableOk, OwnersOk, SlotsOk, Fits;
      var fs := Fixes(r);
      assert Fixes(r0) == fs && SameFixes(r, regs);
      ReachesStep(insts, i, r0, regs);
      SimulatesStep(sem, allocatable, insts, i, r0, regs, o0, out[|o0|..]);
      assert out == o0 + out[|o0|..];
      TableIsOk(regs, owners, avail, allocatable, slots, freed);
      NextTable(insts, fs, moved, tables, i, r0, o0);
      BegunNext(insts, allocatable, r0, regs, i, |out| == |o0| + 1);
      if Lasts(insts, fs) {
        GoingNext(insts, fs, allocatable, frame.Some?, tables + [r0], moved + [|o0|], s0, slots, i, regs, |out|,
                  |out| == |o0| + 1);
      }
    }

    lemma NextTable(insts: seq<Instruction>, fs: seq<Fixed>, moved: seq<int>, tables: seq<seq<Info>>, i: nat,
                    r0: seq<Info>, o0: seq<Emitted>)
      requires i < |insts| && |moved| == i && |tables| == i && o0 < out
      requires RewrittenTo(sem, allocatable, fs, insts, tables + [r0], moved + [|o0|], o0, i)
      requires Becomes(insts[i], out[|o0|..]) && Executes(sem, allocatable, r0, regs, insts[i], out[|o0|..])
      requires SimulatesFrom(sem, allocatable, fs, insts[..i + 1], regs, out) && TableOk(regs, allocatable)
      requires Fixes(regs) == fs
      ensures RewrittenTo(sem, allocatable, fs, insts, tables + [r0] + [regs], moved + [|o0|] + [|out|], out, i + 1)
    {
      hide RewrittenTo, Becomes, Executes, SimulatesFrom, TableOk;
      RewrittenNext(sem, allocatable, fs, insts, tables + [r0], moved + [|o0|], o0, out, i, regs);
    }

    /** Rewrites insts. What instruction i became starts at moved[i]; tables[i] says where values are before it. */
    method Rewrite(insts: seq<Instruction>, labels: map<int, int>)
                   returns (ok: bool, moved: seq<int>, ghost tables: seq<seq<Info>>)
      requires Unstarted() && Accepts(insts, regs, allocatable)
      modifies this
      ensures ok ==> Valid() && SameFixes(old(regs), regs)
      ensures ok ==> Rewritten(sem, allocatable, Fixes(regs), insts, tables, moved, out) && tables[|insts|] == regs
      ensures frame == if HasBackEdge(insts, labels) then None else old(frame)
      ensures !ok ==> exists i :: 0 <= i < |insts| && Full(i)
      ensures Lasts(insts, Fixes(old(regs))) ==> Outcome(ok, insts, Fixes(old(regs)), tables, moved)
    {
      hide Full, SimulatesFrom, Accepts, Reaches, Executes, PhysicalOk, Becomes, Clean, Going, Lasts, Calm, Crowded,
           Begun, Stepped, Squeezed, Jam, Tight, Names, Mentioned, RewrittenTo, Survive, OwnersOk, SlotsOk, Fits;
      var back := BackEdge(insts, labels);
      if back {
        frame := None;
      }
      ghost var r := regs;
      moved, tables := [], [];
      Starts(insts);
      hide Valid;
      for i := 0 to |insts|
        invariant Rewriting(insts, r, moved, tables, i)
        invariant frame == if back then None else old(frame)
      {
        ghost var r0, o0, s0, m0, t0 := regs, out, slots, moved, tables;
        MayStep(insts, r, moved, tables, i);
        moved := moved + [|out|];
        tables := tables + [regs];
        ok := Step(i, insts[i]);
        if !ok {
          if Lasts(insts, Fixes(r)) {
            GoingFails(insts, Fixes(r), allocatable, frame.Some?, tables, moved, s0, i, MAX_SPILL_SLOTS);
          }
          return;
        }
        HasStepped(insts, r, m0, t0, i, r0, o0, s0);
      }
      moved, tables := moved + [|out|], tables + [regs];
      assert Fixes(r) == Fixes(regs);
      if Lasts(insts, Fixes(r)) {
        GoingDone(insts, Fixes(r), allocatable, frame.Some?, tables, moved, slots);
      }
      ok := true;
    }

    /** Wraps the rewritten stream in the spill frame and rebases the labels onto it. */
    method Inject(labels: map<int, int>, moved: seq<int>) returns (final: seq<Emitted>, rebased: map<int, int>)
      requires slots > 0 ==> frame.Some?
      requires forall l :: l in labels ==> 0 <= labels[l] < |moved|
      requires forall i :: 0 <= i < |moved| ==> 0 <= moved[i] <= |out|
      ensures rebased.Keys == labels.Keys
      ensures slots == 0 ==> final == out && forall l :: l in labels ==> rebased[l] == moved[labels[l]]
      ensures slots > 0 ==>
                && final == frame.value.enter(slots) + Flatten(frame.value, slots, labels, out)
                && forall l :: l in labels ==>
                     rebased[l] == |frame.value.enter(slots)| + |Flatten(frame.value, slots, labels,
                         out[..moved[labels[l]]])|
    {
      hide Flatten, Framed, Before, After;
      if slots == 0 {
        rebased := map l | l in labels :: moved[labels[l]];
        return out, rebased;
      }
      var f := frame.value;
      var enter, leave, resume := f.enter(slots), f.leave(slots), f.resume(slots);
      final := enter;
      var framed: seq<int> := [];
      FlattenNothing(f, slots, labels);
      assert out[..0] == [];
      for i := 0 to |out|
        invariant final == enter + Flatten(f, slots, labels, out[..i])
        invariant |framed| == i && forall j ::
          0 <= j < i ==> framed[j] == |enter| + |Flatten(f, slots, labels, out[..j])|
      {
        FlattenNext(f, slots, labels, out, i);
        framed := framed + [|final|];
        var e := out[i];
        Joined(enter, Flatten(f, slots, labels, out[..i]), f, slots, labels, e);
        if e.Body? && f.isReturn(e.inst.op) {
          final := final + leave;
        }
        final := final + [e];
        if e.Body? && e.inst.src2.Lbl? && f.isCall(e.inst.op) && e.inst.src2.target in labels {
          final := final + resume;
        }
      }
      framed := framed + [|final|];
      assert out[..|out|] == out;
      rebased := map l | l in labels :: framed[moved[labels[l]]];
    }

    /** The whole pass: rewrite, then frame. The frame instructions aside, the final stream is `out`, which
        computes what insts does; every label lands on what the instruction it named became. */
    method Run(insts: seq<Instruction>, labels: map<int, int>)
      returns (ok: bool, final: seq<Emitted>, rebased: map<int, int>, ghost moved: seq<int>,
          ghost tables: seq<seq<Info>>)
      requires Unstarted() && Accepts(insts, regs, allocatable)
      requires forall l :: l in labels ==> 0 <= labels[l] <= |insts|
      modifies this
      ensures ok ==> SameFixes(old(regs), regs) && Rewritten(sem, allocatable, Fixes(regs), insts, tables, moved, out)
      ensures ok ==> forall i :: 0 <= i < |tables| ==> Spares(info, tables[i])
      ensures ok ==> forall s :: Spared(info, s) && !WrittenBy(Fixes(regs), insts, s) ==> Keeps(sem, out, s)
      ensures frame == old(frame) || frame == None
      ensures frame != old(frame) ==>
                exists i ::
                  && 0 <= i < |insts| && insts[i].src2.Lbl?
                  && insts[i].src2.target in labels && labels[insts[i].src2.target] <= i
      ensures !ok ==> exists i :: 0 <= i < |insts| && Full(i)
      ensures Lasts(insts, Fixes(old(regs))) ==> Outcome(ok, insts, Fixes(old(regs)), tables, moved)
      ensures ok && slots > 0 ==>
                forall i :: 0 <= i < |insts| && insts[i].src2.Lbl? && insts[i].src2.target in labels ==>
                  labels[insts[i].src2.target] > i
      ensures ok ==> rebased.Keys == labels.Keys && slots <= MAX_SPILL_SLOTS && (slots > 0 ==> frame.Some?)
      ensures ok ==> final == if slots == 0 then out
        else frame.value.enter(slots) + Flatten(frame.value, slots, labels, out)
      ensures ok && slots > 0 ==> Framing(frame.value, slots, labels, out, final, rebased)
      ensures ok ==> forall l :: l in labels ==>
                Lands(final, rebased[l], Piece(slots, frame, labels, insts, moved, out, labels[l]))
                && (labels[l] == |insts| ==> rebased[l] == |final|)
    {
      hide Flatten, OwnersOk, SlotsOk, SimulatesFrom, Accepts, Fits, SameFixes, Rewritten, Piece, Lands, Lasts, Calm,
           Crowded, Going;
      final, rebased := [], map[];
      var m;
      ok, m, tables := Rewrite(insts, labels);
      moved := m;
      if ok {
        RunSpares(sem, info, Fixes(regs), insts, tables, m, out);
        MovedInside(sem, allocatable, Fixes(regs), insts, tables, m, out);
        final, rebased := Inject(labels, m);
        if slots > 0 {
          assert forall l :: l in rebased ==> rebased[l] == PieceAt(frame.value, slots, labels, out, m[labels[l]]);
        }
        forall l | l in labels
          ensures Lands(final, rebased[l], Piece(slots, frame, labels, insts, moved, out, labels[l]))
          ensures labels[l] == |insts| ==> rebased[l] == |final|
        {
          PieceLands(sem, allocatable, Fixes(regs), slots, frame, labels, insts, tables, moved, out, labels[l]);
        }
      }
    }
  }

  /** What instruction n became, as the final stream has it: nothing for the end of the list. */
  function Piece(slots: nat, frame: Option<Frame>, labels: map<int, int>, insts: seq<Instruction>, moved: seq<int>,
                 out: seq<Emitted>, n: int): seq<Emitted> {
    if 0 <= n < |insts| && n + 1 < |moved| && 0 <= moved[n] <= moved[n + 1] <= |out| then
      var e := out[moved[n]..moved[n + 1]];
      if slots == 0 || frame.None? || e == [] then e else e[..|e| - 1] + Framed(frame.value, slots, labels, e[|e| - 1])
    else []
  }

  lemma PieceLands(sem: Semantics, alloc: set<Slot>, fs: seq<Fixed>, slots: nat, frame: Option<Frame>,
                   labels: map<int, int>, insts: seq<Instruction>, tables: seq<seq<Info>>, moved: seq<int>,
                   out: seq<Emitted>, n: nat)
    requires Rewritten(sem, alloc, fs, insts, tables, moved, out) && n <= |insts| && (slots > 0 ==> frame.Some?)
    ensures 0 <= moved[n] <= |out|
    ensures slots == 0 ==>
      Lands(out, moved[n], Piece(slots, frame, labels, insts, moved, out, n)) && (n == |insts| ==> moved[n] == |out|)
    ensures slots > 0 ==>
              var final := frame.value.enter(slots) + Flatten(frame.value, slots, labels, out);
              var at := |frame.value.enter(slots)| + |Flatten(frame.value, slots, labels, out[..moved[n]])|;
              Lands(final, at, Piece(slots, frame, labels, insts, moved, out, n)) && (n == |insts| ==> at == |final|)
  {
    hide Flatten, Framed, SimulatesFrom, Becomes, Executes, TableOk;
    assert out[..|out|] == out;
    if n < |insts| {
      assert Emits(sem, alloc, insts, tables, moved, out, n);
      var e := out[moved[n]..moved[n + 1]];
      BecomesSome(insts[n], e);
      if slots > 0 {
        StretchLands(frame.value, slots, labels, out, moved[n], moved[n + 1]);
        BecomesFramed(frame.value, slots, labels, insts[n], e);
      }
    }
  }

  lemma BecomesSome(inst: Instruction, e: seq<Emitted>)
    requires Becomes(inst, e)
    ensures e != []
  {
  }

  /** Entering at the label of instruction j from before instruction i: when and only when the two tables agree on where
      every value is, and from there on what the list became computes what the list computes. */
  lemma EntersAt(sem: Semantics, alloc: set<Slot>, fs: seq<Fixed>, insts: seq<Instruction>, tables: seq<seq<Info>>,
                 moved: seq<int>, out: seq<Emitted>, i: nat, j: nat)
    requires Rewritten(sem, alloc, fs, insts, tables, moved, out) && i <= |insts| && j <= |insts|
    ensures 0 <= moved[j] <= |out|
    ensures (forall v, p :: Sim(tables[i], alloc, -1, v, p) ==> Sim(tables[j], alloc, -1, v, p)) <==>
      SamePlaces(tables[i], tables[j])
    ensures forall v, p :: Sim(tables[j], alloc, -1, v, p) ==>
              Sim(tables[|insts|], alloc, -1, RunV(sem, fs, insts[j..], v), RunP(sem, out[moved[j]..], p))
  {
    hide Sim, SamePlaces, Emits, SimulatesFrom, TableOk, RunV;
    assert SameFixes(tables[i], tables[j]) by {
      assert Fixes(tables[i]) == Fixes(tables[j]);
      assert forall k :: 0 <= k < |tables[i]| ==> Fixes(tables[i])[k] == tables[i][k].fix;
    }
    JumpIff(sem, alloc, tables[i], tables[j]);
    assert forall p :: RunP(sem, [], p) == p;
    forall v, p | Sim(tables[j], alloc, -1, v, p)
      ensures Sim(tables[|insts|], alloc, -1, RunV(sem, fs, insts[j..], v), RunP(sem, out[moved[j]..], p))
    {
      TailSimulates(sem, alloc, fs, insts, tables, moved, out, j, |insts|, v, p);
      assert insts[j..|insts|] == insts[j..] && out[moved[j]..|out|] == out[moved[j]..];
    }
  }

  /** Entering at the label of instruction j from before instruction i <= j: only when everything still to be read at j
      was defined before i, and when nothing is ever pressed exactly then. */
  lemma ForwardAt(sem: Semantics, alloc: set<Slot>, fs: seq<Fixed>, insts: seq<Instruction>, tables: seq<seq<Info>>,
                  moved: seq<int>, out: seq<Emitted>, spills: bool, slots: nat, i: nat, j: nat)
    requires Rewritten(sem, alloc, fs, insts, tables, moved, out) && i <= j <= |insts|
    requires Going(insts, fs, alloc, spills, tables, moved, slots, |insts|)
    ensures (forall v, p :: Sim(tables[i], alloc, -1, v, p) ==> Sim(tables[j], alloc, -1, v, p)) ==>
      forall k :: LiveAt(insts, fs, j, k) ==> DefinedBy(insts, i, k)
    ensures Calm(insts, fs, alloc, |insts|) ==>
              ((forall v, p :: Sim(tables[i], alloc, -1, v, p) ==> Sim(tables[j], alloc, -1, v, p)) <==>
               forall k :: LiveAt(insts, fs, j, k) ==> DefinedBy(insts, i, k))
  {
    hide Sim, SamePlaces, RewrittenTo, Exact, Across, TooWide, Calm, LiveAt, DefinedBy;
    EntersAt(sem, alloc, fs, insts, tables, moved, out, i, j);
    if SamePlaces(tables[i], tables[j]) {
      ForwardNeeds(insts, fs, alloc, spills, tables, moved, slots, i, j);
    }
    if Calm(insts, fs, alloc, |insts|) {
      ForwardIff(insts, fs, alloc, spills, tables, moved, slots, i, j);
    }
  }
}
