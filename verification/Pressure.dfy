/** How many registers an instruction list needs at once, and what that decides: whether the allocator succeeds, whether
    it spills, and where values are at a label. */
module Pressure {
  import opened Machine
  import opened AllocFacts

  /** The virtual registers an instruction names. */
  ghost function Names(inst: Instruction): set<int> {
    set u | u in Refs(inst) :: u.id
  }

  /** The bank's registers that allocation may hand out. */
  ghost function Room(alloc: set<Slot>, bank: Bank): set<Slot> {
    set s | s in alloc && s.bank == bank
  }

  /** The unpinned registers of the bank that hold a value or are about to. */
  ghost function Wanted(r: seq<Info>, names: set<int>, bank: Bank): set<int> {
    set k | 0 <= k < |r| && r[k].fix.pin.None? && r[k].fix.bank == bank && (Alive(r[k]) || k in names)
  }

  ghost function NamedIn(r: seq<Info>, names: set<int>, bank: Bank): set<int> {
    set k | 0 <= k < |r| && r[k].fix.pin.None? && r[k].fix.bank == bank && k in names
  }

  ghost predicate Jams(r: seq<Info>, names: set<int>, alloc: set<Slot>, bank: Bank) {
    |Wanted(r, names, bank)| > |Room(alloc, bank)|
  }

  ghost predicate Jam(r: seq<Info>, names: set<int>, alloc: set<Slot>) {
    exists bank :: Jams(r, names, alloc, bank)
  }

  /** A bank is short of registers, or was before. */
  ghost predicate Tight(r: seq<Info>, names: set<int>, alloc: set<Slot>) {
    Jam(r, names, alloc) || exists k :: 0 <= k < |r| && r[k].spilled
  }

  /** The instruction cannot be served: where values may be spilled, it names too many registers by itself. */
  ghost predicate Squeezes(spills: bool, r: seq<Info>, names: set<int>, alloc: set<Slot>, bank: Bank) {
    if spills && bank == IntBank then |NamedIn(r, names, bank)| > |Room(alloc, bank)| else Jams(r, names, alloc, bank)
  }

  ghost predicate Squeezed(spills: bool, r: seq<Info>, names: set<int>, alloc: set<Slot>) {
    exists bank :: Squeezes(spills, r, names, alloc, bank)
  }

  lemma {:induction false} Injected(room: set<Slot>, owners: map<Slot, int>, ids: set<int>)
    requires forall s :: s in room ==> s in owners && owners[s] in ids
    requires forall s, t :: s in room && t in room && s != t ==> owners[s] != owners[t]
    ensures |room| <= |ids|
  {
    if room != {} {
      var s :| s in room;
      Injected(room - {s}, owners, ids - {owners[s]});
    }
  }

  lemma HasMember(s: set<int>)
    ensures s == {} || exists x :: x in s
  {
    if !exists x :: x in s {
      assert s == {};
    }
  }

  lemma {:induction false} Placed(r: seq<Info>, ids: set<int>, room: set<Slot>)
    requires forall k :: k in ids ==> 0 <= k < |r| && SlotOf(r[k].reg) in room
    requires forall j, k :: j in ids && k in ids && j != k ==> SlotOf(r[j].reg) != SlotOf(r[k].reg)
    ensures |ids| <= |room|
  {
    if ids != {} {
      HasMember(ids);
      var k :| k in ids;
      Placed(r, ids - {k}, room - {SlotOf(r[k].reg)});
    }
  }

  /** When the bank's registers all belong to registers of ids other than x, ids are too many. */
  lemma Fills(r: seq<Info>, owners: map<Slot, int>, avail: set<Slot>, alloc: set<Slot>, bank: Bank, ids: set<int>,
              x: int)
    requires OwnersOk(r, owners, avail, alloc) && x in ids
    requires forall s :: s in Room(alloc, bank) ==> s in owners && owners[s] in ids && owners[s] != x
    ensures |ids| > |Room(alloc, bank)|
  {
    Injected(Room(alloc, bank), owners, ids - {x});
  }

  /** Bound registers of a bank are no more than there are. */
  lemma Fitted(r: seq<Info>, owners: map<Slot, int>, avail: set<Slot>, alloc: set<Slot>, bank: Bank, ids: set<int>)
    requires OwnersOk(r, owners, avail, alloc) && forall k :: 0 <= k < |r| ==> Fits(r[k], alloc)
    requires forall k :: k in ids ==>
               0 <= k < |r| && r[k].fix.pin.None? && r[k].fix.bank == bank && r[k].bound
    ensures |ids| <= |Room(alloc, bank)|
  {
    OwnersInjective(r, owners, avail, alloc);
    Placed(r, ids, Room(alloc, bank));
  }

  /** Table r while the instruction at `at`, which names these registers, is being bound, r0 having held before it. */
  ghost predicate Within(r0: seq<Info>, r: seq<Info>, at: int, names: set<int>, alloc: set<Slot>) {
    |r| == |r0| && forall k :: 0 <= k < |r| ==> WithinAt(r0[k], r[k], at, k in names, Tight(r0, names, alloc))
  }

  ghost predicate WithinAt(a: Info, b: Info, at: int, named: bool, tight: bool) {
    && b.fix == a.fix && (b.guard == at ==> named) && b.guard <= at
    && (Alive(b) && b.fix.pin.None? ==> Alive(a) || named)
    && (b.spilled ==> tight)
    && (!named && b.bound ==> a.bound && b.reg == a.reg)
  }

  /** Every unpinned register that holds a value or is named is mentioned somewhere. */
  ghost predicate Mentioned(r0: seq<Info>, names: set<int>) {
    forall k :: 0 <= k < |r0| && r0[k].fix.pin.None? && (Alive(r0[k]) || k in names) ==> r0[k].fix.last >= 0
  }

  /** Bound unpinned registers stay where they are. */
  ghost predicate Still(r: seq<Info>, r': seq<Info>) {
    |r'| == |r| && forall k :: 0 <= k < |r| && r[k].fix.pin.None? && r[k].bound ==> r'[k].bound && r'[k].reg == r[k].reg
  }

  lemma StillTrans(r: seq<Info>, r1: seq<Info>, r2: seq<Info>)
    requires Still(r, r1) && Still(r1, r2) && forall k :: 0 <= k < |r| ==> r1[k].fix == r[k].fix
    ensures Still(r, r2)
  {
  }

  lemma StillBut(r: seq<Info>, r': seq<Info>, id: int)
    requires |r'| == |r| && 0 <= id < |r| && !r[id].bound && forall k :: 0 <= k < |r| && k != id ==> r'[k] == r[k]
    ensures Still(r, r')
  {
  }

  lemma StillMarked(r: seq<Info>, r': seq<Info>, id: int)
    requires |r'| == |r| && 0 <= id < |r| && r'[id].bound == r[id].bound && r'[id].reg == r[id].reg
    requires forall k :: 0 <= k < |r| && k != id ==> r'[k] == r[k]
    ensures Still(r, r')
  {
  }

  /** Binding a pinned register moves no other kind. */
  lemma PinnedStill(r: seq<Info>, r': seq<Info>, id: int)
    requires |r'| == |r| && 0 <= id < |r| && r[id].fix.pin.Some?
    requires forall k :: 0 <= k < |r| && k != id ==> r'[k] == r[k] || (r'[k].fix.pin.Some? && r'[k].fix == r[k].fix)
    ensures Still(r, r')
  {
  }

  lemma StillHere(r: seq<Info>)
    ensures Still(r, r)
  {
  }

  lemma SpilledTight(r0: seq<Info>, r: seq<Info>, at: int, names: set<int>, alloc: set<Slot>, id: int)
    requires Within(r0, r, at, names, alloc) && 0 <= id < |r| && r[id].spilled
    ensures Tight(r0, names, alloc)
  {
    assert WithinAt(r0[id], r[id], at, id in names, Tight(r0, names, alloc));
  }

  lemma WithinSize(r0: seq<Info>, r: seq<Info>, at: int, names: set<int>, alloc: set<Slot>)
    requires Within(r0, r, at, names, alloc)
    ensures |r| == |r0|
  {
  }

  lemma SqueezedBy(spills: bool, r: seq<Info>, names: set<int>, alloc: set<Slot>, bank: Bank)
    requires Squeezes(spills, r, names, alloc, bank)
    ensures Squeezed(spills, r, names, alloc)
  {
  }

  lemma WithinStart(r0: seq<Info>, at: int, names: set<int>, alloc: set<Slot>)
    requires forall k :: 0 <= k < |r0| ==> r0[k].guard < at
    ensures Within(r0, r0, at, names, alloc)
  {
    hide Jam;
  }

  /** Binding a named register keeps to the rules when what it spills is spilled for want of room. */
  lemma WithinKept(r0: seq<Info>, r: seq<Info>, r': seq<Info>, at: int, names: set<int>, alloc: set<Slot>, id: int)
    requires Within(r0, r, at, names, alloc) && |r'| == |r| && id in names && 0 <= id < |r|
    requires r'[id].fix == r[id].fix && r'[id].guard <= at && (r'[id].spilled ==> r[id].spilled)
    requires forall k :: 0 <= k < |r| && k != id ==> Kept(r[k], r'[k], at)
    requires (forall k :: 0 <= k < |r| ==> (r'[k].spilled ==> r[k].spilled)) || Tight(r0, names, alloc)
    ensures Within(r0, r', at, names, alloc)
  {
    hide Jam;
    forall k | 0 <= k < |r'|
      ensures WithinAt(r0[k], r'[k], at, k in names, Tight(r0, names, alloc))
    {
      assert WithinAt(r0[k], r[k], at, k in names, Tight(r0, names, alloc));
    }
  }

  /** With every register of x's bank taken, the bank is jammed. */
  lemma TakenJams(r0: seq<Info>, r: seq<Info>, owners: map<Slot, int>, avail: set<Slot>, alloc: set<Slot>, at: int,
                  names: set<int>, bank: Bank, x: int)
    requires Within(r0, r, at, names, alloc) && OwnersOk(r, owners, avail, alloc)
    requires forall k :: 0 <= k < |r| ==> Fits(r[k], alloc)
    requires forall s :: s in avail && s in alloc ==> s.bank != bank
    requires x in names && 0 <= x < |r| && !r[x].bound && r[x].fix.pin.None? && r[x].fix.bank == bank
    ensures Jams(r0, names, alloc, bank) && Tight(r0, names, alloc)
  {
    hide Tight;
    forall s | s in Room(alloc, bank)
      ensures s in owners && owners[s] in Wanted(r0, names, bank) && owners[s] != x
    {
      assert WithinAt(r0[owners[s]], r[owners[s]], at, owners[s] in names, Tight(r0, names, alloc));
    }
    assert WithinAt(r0[x], r[x], at, x in names, Tight(r0, names, alloc));
    Fills(r, owners, avail, alloc, bank, Wanted(r0, names, bank), x);
    JamTight(r0, names, alloc, bank);
  }

  lemma JamTight(r0: seq<Info>, names: set<int>, alloc: set<Slot>, bank: Bank)
    requires Jams(r0, names, alloc, bank)
    ensures Tight(r0, names, alloc)
  {
  }

  /** When moreover the instruction touches every owner, it names too many registers. */
  lemma TouchedSqueezes(r0: seq<Info>, r: seq<Info>, owners: map<Slot, int>, avail: set<Slot>, alloc: set<Slot>,
                        at: int, names: set<int>, x: int)
    requires Within(r0, r, at, names, alloc) && OwnersOk(r, owners, avail, alloc)
    requires forall k :: 0 <= k < |r| ==> Fits(r[k], alloc)
    requires forall s :: s in avail && s in alloc ==> s.bank != IntBank
    requires forall s :: s in Room(alloc, IntBank) && s in owners ==> r[owners[s]].guard == at
    requires x in names && 0 <= x < |r| && !r[x].bound && r[x].fix.pin.None? && r[x].fix.bank == IntBank
    ensures Squeezes(true, r0, names, alloc, IntBank)
  {
    hide Tight;
    forall s | s in Room(alloc, IntBank)
      ensures s in owners && owners[s] in NamedIn(r0, names, IntBank) && owners[s] != x
    {
      assert WithinAt(r0[owners[s]], r[owners[s]], at, owners[s] in names, Tight(r0, names, alloc));
    }
    assert WithinAt(r0[x], r[x], at, x in names, Tight(r0, names, alloc));
    Fills(r, owners, avail, alloc, IntBank, NamedIn(r0, names, IntBank), x);
  }

  /** An owner that may not be evicted is one the instruction touches. */
  lemma OwnersTouched(r0: seq<Info>, r: seq<Info>, owners: map<Slot, int>, avail: set<Slot>, alloc: set<Slot>, at: int,
                      names: set<int>)
    requires Within(r0, r, at, names, alloc) && Mentioned(r0, names) && OwnersOk(r, owners, avail, alloc)
    requires forall k :: 0 <= k < |r| ==> Fits(r[k], alloc)
    requires forall s :: s in owners && s in alloc && s.bank == IntBank && r[owners[s]].guard != at ==>
               r[owners[s]].fix.pin.Some? || r[owners[s]].fix.last < 0
    ensures forall s :: s in Room(alloc, IntBank) && s in owners ==> r[owners[s]].guard == at
  {
    hide Tight;
    forall s | s in Room(alloc, IntBank) && s in owners
      ensures r[owners[s]].guard == at
    {
      assert WithinAt(r0[owners[s]], r[owners[s]], at, owners[s] in names, Tight(r0, names, alloc));
    }
  }

  /** Every spill slot in use belongs to a register of its own. */
  lemma SlotsBelong(r: seq<Info>, slots: int, freed: seq<int>, id: int)
    requires SlotsOk(r, slots, freed) && freed == [] && 0 <= id < |r| && r[id].slot < 0
    ensures |r| > slots
  {
    Smaller(Holders(r), Indices(|r|) - {id});
  }

  ghost function Indices(n: nat): (r: set<int>)
    ensures |r| == n && forall k :: k in r <==> 0 <= k < n
  {
    if n == 0 then {} else Indices(n - 1) + {n - 1}
  }

  lemma {:induction false} Smaller<T>(a: set<T>, b: set<T>)
    requires a <= b
    ensures |a| <= |b|
  {
    if a != {} {
      var x :| x in a;
      Smaller(a - {x}, b - {x});
    }
  }

  /** When an instruction has been bound it was served: its registers, and whatever is not spilled, are all in registers
      of their own. */
  lemma Served(r0: seq<Info>, r: seq<Info>, owners: map<Slot, int>, avail: set<Slot>, alloc: set<Slot>, at: int,
               names: set<int>, spills: bool)
    requires Touched(r0, r, at) && OwnersOk(r, owners, avail, alloc)
    requires forall k :: 0 <= k < |r| ==> Fits(r[k], alloc) && (r[k].spilled ==> spills && r[k].fix.bank == IntBank)
    requires forall k :: k in names && 0 <= k < |r| && r[k].fix.pin.None? ==> r[k].bound
    ensures !Squeezed(spills, r0, names, alloc)
    ensures (forall k :: 0 <= k < |r| ==> !r[k].spilled) ==> !Jam(r0, names, alloc)
  {
    hide OwnersOk, Fits;
    forall bank
      ensures |NamedIn(r0, names, bank)| <= |Room(alloc, bank)|
    {
      Fitted(r, owners, avail, alloc, bank, NamedIn(r0, names, bank));
    }
    forall bank | !spills || bank == FloatBank || forall k :: 0 <= k < |r| ==> !r[k].spilled
      ensures |Wanted(r0, names, bank)| <= |Room(alloc, bank)|
    {
      Fitted(r, owners, avail, alloc, bank, Wanted(r0, names, bank));
    }
  }

  ghost predicate IdIn(rs: seq<VReg>, k: int) {
    exists j :: 0 <= j < |rs| && rs[j].id == k
  }

  /** What dropping the registers of rs that the instruction at `at` names last does to the table. */
  ghost predicate Dropped(r: seq<Info>, r': seq<Info>, rs: seq<VReg>, at: int) {
    |r'| == |r| && forall k :: 0 <= k < |r| ==> DroppedAt(r[k], r'[k], IdIn(rs, k) && r[k].fix.last == at)
  }

  ghost predicate DroppedAt(a: Info, b: Info, gone: bool) {
    && b.fix == a.fix && b.guard == a.guard && b.reg == a.reg
    && b.bound == (a.bound && !gone) && b.spilled == (a.spilled && !gone)
  }

  lemma DroppedNone(r: seq<Info>, at: int)
    ensures Dropped(r, r, [], at)
  {
  }

  lemma DroppedNext(r0: seq<Info>, r: seq<Info>, r': seq<Info>, rs: seq<VReg>, j: nat, at: int)
    requires j < |rs| && Dropped(r0, r, rs[..j], at) && |r'| == |r| && 0 <= rs[j].id < |r|
    requires forall k :: 0 <= k < |r| && k != rs[j].id ==> r'[k] == r[k]
    requires DroppedAt(r[rs[j].id], r'[rs[j].id], r[rs[j].id].fix.last == at)
    ensures Dropped(r0, r', rs[..j + 1], at)
  {
    assert rs[..j + 1] == rs[..j] + [rs[j]];
    forall k | 0 <= k < |r|
      ensures DroppedAt(r0[k], r'[k], IdIn(rs[..j + 1], k) && r0[k].fix.last == at)
    {
      assert DroppedAt(r0[k], r[k], IdIn(rs[..j], k) && r0[k].fix.last == at);
      assert IdIn(rs[..j + 1], k) <==> IdIn(rs[..j], k) || k == rs[j].id by {
        assert rs[..j + 1][j] == rs[j] && forall i :: 0 <= i < j ==> rs[..j + 1][i] == rs[..j][i];
      }
    }
  }

  /** What rewriting one instruction does to the table; quiet, when it emits no traffic. */
  ghost predicate Stepped(r0: seq<Info>, r1: seq<Info>, i: int, inst: Instruction, alloc: set<Slot>, quiet: bool) {
    |r1| == |r0| && forall k :: 0 <= k < |r0| ==>
      SteppedAt(r0[k], r1[k], i, k in Names(inst), Defines(inst, k), Tight(r0, Names(inst), alloc), quiet)
  }

  ghost predicate SteppedAt(a: Info, b: Info, i: int, named: bool, defined: bool, tight: bool, quiet: bool) {
    && b.fix == a.fix && b.guard <= i
    && (Alive(b) && a.fix.pin.None? ==> (Alive(a) || named) && !(named && a.fix.last == i))
    && (b.spilled ==> tight)
    && (!named && b.bound ==> a.bound && b.reg == a.reg)
    && (defined && a.fix.pin.None? && a.fix.last != i ==> b.bound && !b.spilled)
    && (quiet && a.fix.pin.None? && a.bound && b.bound ==> b.reg == a.reg)
  }

  lemma NamesAre(inst: Instruction, k: int)
    ensures k in Names(inst) <==> IdIn(Uses(inst), k) || Defines(inst, k)
    ensures k in Names(inst) <==> Mentions(inst, k)
  {
    if IdIn(Uses(inst), k) {
      var j :| 0 <= j < |Uses(inst)| && Uses(inst)[j].id == k;
      assert Refs(inst)[j] == Uses(inst)[j];
    }
    if Defines(inst, k) {
      assert Refs(inst)[|Uses(inst)|] == inst.dst.v;
    }
    if k in Names(inst) {
      var u :| u in Refs(inst) && u.id == k;
      var j :| 0 <= j < |Refs(inst)| && Refs(inst)[j] == u;
      assert j < |Uses(inst)| ==> Uses(inst)[j] == u;
    }
  }

  lemma UsesNamed(inst: Instruction)
    ensures forall u :: u in Uses(inst) ==> u.id in Names(inst)
    ensures inst.dst.V? ==> inst.dst.v.id in Names(inst)
  {
    forall u | u in Uses(inst)
      ensures u.id in Names(inst)
    {
      assert u in Refs(inst);
    }
    assert inst.dst.V? ==> inst.dst.v in Refs(inst);
  }

  lemma StepsTo(r0: seq<Info>, r2: seq<Info>, r3: seq<Info>, r4: seq<Info>, i: int, inst: Instruction, alloc: set<Slot>,
                quiet: bool)
    requires Within(r0, r2, i, Names(inst), alloc) && Dropped(r2, r3, Uses(inst), i) && (quiet ==> Still(r0, r2))
    requires if inst.dst.V? then Dropped(r3, r4, [inst.dst.v], i) else r4 == r3
    requires inst.dst.V? ==>
               var d := inst.dst.v.id;
               0 <= d < |r2| && (r2[d].fix.pin.None? ==> r2[d].bound && !r2[d].spilled)
    ensures Stepped(r0, r4, i, inst, alloc, quiet)
  {
    hide Names, Tight, Uses, IdIn;
    forall k | 0 <= k < |r0|
      ensures SteppedAt(r0[k], r4[k], i, k in Names(inst), Defines(inst, k), Tight(r0, Names(inst), alloc), quiet)
    {
      NamesAre(inst, k);
      assert WithinAt(r0[k], r2[k], i, k in Names(inst), Tight(r0, Names(inst), alloc));
      assert DroppedAt(r2[k], r3[k], IdIn(Uses(inst), k) && r2[k].fix.last == i);
      if inst.dst.V? {
        DstIn(inst, k);
        assert DroppedAt(r3[k], r4[k], IdIn([inst.dst.v], k) && r3[k].fix.last == i);
      }
    }
  }

  lemma SurvivesAll(r0: seq<Info>, r2: seq<Info>, r3: seq<Info>, r4: seq<Info>, i: int, inst: Instruction)
    requires Touched(r0, r2, i) && Survive(r2, r3, i) && if inst.dst.V? then Survive(r3, r4, i) else r4 == r3
    requires inst.dst.V? ==> 0 <= inst.dst.v.id < |r2| && r2[inst.dst.v.id].bound
    ensures Survive(r0, r4, i)
    ensures inst.dst.V? ==>
              var d := inst.dst.v.id;
              r4[d].fix.pin.None? && r4[d].fix.last != i ==> Alive(r4[d])
  {
    hide Ready;
  }

  lemma DstIn(inst: Instruction, k: int)
    requires inst.dst.V?
    ensures IdIn([inst.dst.v], k) <==> Defines(inst, k)
  {
    assert [inst.dst.v][0] == inst.dst.v;
  }

  /** Before instruction i register k holds a value that is still to be read. */
  ghost predicate LiveAt(insts: seq<Instruction>, fs: seq<Fixed>, i: int, k: int) {
    0 <= k < |fs| && fs[k].pin.None? && DefinedBy(insts, i, k) && fs[k].last >= i
  }

  /** The unpinned registers of the bank that hold a value while instruction i runs. */
  ghost function Busy(insts: seq<Instruction>, fs: seq<Fixed>, i: int, bank: Bank): set<int> {
    set k | 0 <= k < |fs| && fs[k].pin.None? && fs[k].bank == bank && DefinedBy(insts, i + 1, k) && fs[k].last >= i
  }

  /** The unpinned registers of the bank that instruction i names. */
  ghost function NamedBy(insts: seq<Instruction>, fs: seq<Fixed>, i: int, bank: Bank): set<int>
    requires 0 <= i < |insts|
  {
    set k | 0 <= k < |fs| && fs[k].pin.None? && fs[k].bank == bank && k in Names(insts[i])
  }

  /** Instruction i runs with more values of the bank than there are registers. */
  ghost predicate Pressed(insts: seq<Instruction>, fs: seq<Fixed>, alloc: set<Slot>, i: int, bank: Bank) {
    |Busy(insts, fs, i, bank)| > |Room(alloc, bank)|
  }

  /** The first n instructions never run with too many values. */
  ghost predicate Calm(insts: seq<Instruction>, fs: seq<Fixed>, alloc: set<Slot>, n: int) {
    forall i, bank :: 0 <= i < n ==> !Pressed(insts, fs, alloc, i, bank)
  }

  /** Instruction i cannot be served: it runs with too many values of a bank that does not spill, or names too many
      registers of one that does. */
  ghost predicate TooWide(spills: bool, insts: seq<Instruction>, fs: seq<Fixed>, alloc: set<Slot>, i: int, bank: Bank)
    requires 0 <= i < |insts|
  {
    if spills && bank == IntBank then |NamedBy(insts, fs, i, bank)| > |Room(alloc, bank)|
    else Pressed(insts, fs, alloc, i, bank)
  }

  ghost predicate Crowded(spills: bool, insts: seq<Instruction>, fs: seq<Fixed>, alloc: set<Slot>) {
    exists i, bank :: 0 <= i < |insts| && TooWide(spills, insts, fs, alloc, i, bank)
  }

  /** What is recorded as a register's last mention mentions it. */
  ghost predicate Lasts(insts: seq<Instruction>, fs: seq<Fixed>) {
    forall i, k :: 0 <= i < |insts| && 0 <= k < |fs| && fs[k].last == i ==> k in Names(insts[i])
  }

  /** The prepared table records last mentions. */
  lemma PreparedLasts(insts: seq<Instruction>, fs: seq<Fixed>)
    requires forall k :: 0 <= k < |fs| ==> LastMention(insts, k, fs[k].last)
    ensures Lasts(insts, fs)
  {
    hide Names, Refs;
    forall i, k | 0 <= i < |insts| && 0 <= k < |fs| && fs[k].last == i
      ensures k in Names(insts[i])
    {
      NamesAre(insts[i], k);
    }
  }

  /** Exactly the values still to be read are in registers and spill slots. */
  ghost predicate Exact(insts: seq<Instruction>, fs: seq<Fixed>, i: int, r: seq<Info>) {
    |r| == |fs| && forall k :: 0 <= k < |r| ==>
      r[k].fix == fs[k] && (fs[k].pin.None? ==> (Alive(r[k]) <==> LiveAt(insts, fs, i, k)))
  }

  ghost predicate Unspilled(r: seq<Info>) {
    forall k :: 0 <= k < |r| ==> !r[k].spilled
  }

  /** Across instruction i: what it does not name is bound only where it was, what it defines is bound, and without
      pressure nothing moves. */
  ghost predicate Across(insts: seq<Instruction>, fs: seq<Fixed>, alloc: set<Slot>, i: int, a: seq<Info>, b: seq<Info>)
    requires 0 <= i < |insts|
  {
    |a| == |b| == |fs| && forall k :: 0 <= k < |fs| ==>
      && (k !in Names(insts[i]) && b[k].bound ==> a[k].bound && b[k].reg == a[k].reg)
      && (Defines(insts[i], k) && fs[k].pin.None? && fs[k].last != i ==> b[k].bound && !b[k].spilled)
      && (Calm(insts, fs, alloc, i + 1) && fs[k].pin.None? && a[k].bound && b[k].bound ==> b[k].reg == a[k].reg)
  }

  /** After n instructions: where values were before each of them, none of which was too wide, and each of which became
      one instruction until the first was pressed. */
  ghost predicate Going(insts: seq<Instruction>, fs: seq<Fixed>, alloc: set<Slot>, spills: bool,
                        tables: seq<seq<Info>>, moved: seq<int>, slots: nat, n: nat) {
    && n <= |insts| && |tables| == n + 1 && |moved| == n + 1
    && (forall m :: 0 <= m <= n ==>
       Exact(insts, fs, m, tables[m]) && (Calm(insts, fs, alloc, m) ==> Unspilled(tables[m])))
    && (forall m :: 0 <= m < n ==> Across(insts, fs, alloc, m, tables[m], tables[m + 1]))
    && (forall m :: 0 <= m < n && Calm(insts, fs, alloc, m + 1) ==> moved[m + 1] == moved[m] + 1)
    && (forall m, bank :: 0 <= m < n ==> !TooWide(spills, insts, fs, alloc, m, bank))
    && (slots == 0 <==> Calm(insts, fs, alloc, n))
  }

  lemma GoingStart(insts: seq<Instruction>, fs: seq<Fixed>, alloc: set<Slot>, spills: bool, r: seq<Info>)
    requires |r| == |fs| && forall k :: 0 <= k < |r| ==> r[k].fix == fs[k] && !r[k].bound && !r[k].spilled
    ensures Going(insts, fs, alloc, spills, [r], [0], 0, 0)
  {
  }

  lemma LaterDefined(insts: seq<Instruction>, i: int, k: int)
    requires 0 <= i < |insts|
    ensures DefinedBy(insts, i + 1, k) <==> DefinedBy(insts, i, k) || Defines(insts[i], k)
  {
    if DefinedBy(insts, i, k) {
      var j :| 0 <= j < i && j < |insts| && Defines(insts[j], k);
      assert j < i + 1;
    }
  }

  /** What an instruction names is defined before it, or by it. */
  lemma NamedDefined(insts: seq<Instruction>, r: seq<Info>, alloc: set<Slot>, i: int, k: int)
    requires Accepts(insts, r, alloc) && 0 <= i < |insts| && k in Names(insts[i]) && 0 <= k < |r|
    ensures r[k].fix.last >= i && (r[k].fix.pin.None? ==> DefinedBy(insts, i + 1, k))
  {
    hide DefinedBy, PhysicalOk, Typed;
    LaterDefined(insts, i, k);
    var u :| u in Refs(insts[i]) && u.id == k;
    assert Typed(r, u) && r[u.id].fix.last >= i;
    var j :| 0 <= j < |Refs(insts[i])| && Refs(insts[i])[j] == u;
    if j < |Uses(insts[i])| {
      assert Uses(insts[i])[j] == u;
    } else {
      assert Defines(insts[i], k);
    }
  }

  /** What is wanted while instruction i is bound is what is busy while it runs. */
  lemma WantedBusy(insts: seq<Instruction>, fs: seq<Fixed>, r: seq<Info>, alloc: set<Slot>, i: int, bank: Bank)
    requires Accepts(insts, r, alloc) && Exact(insts, fs, i, r) && 0 <= i < |insts|
    ensures Wanted(r, Names(insts[i]), bank) == Busy(insts, fs, i, bank)
    ensures NamedIn(r, Names(insts[i]), bank) == NamedBy(insts, fs, i, bank)
  {
    hide Accepts, Names, DefinedBy;
    forall k | 0 <= k < |r|
      ensures k in Wanted(r, Names(insts[i]), bank) <==> k in Busy(insts, fs, i, bank)
    {
      LaterDefined(insts, i, k);
      NamesAre(insts[i], k);
      if k in Names(insts[i]) {
        NamedDefined(insts, r, alloc, i, k);
      }
    }
  }

  lemma SqueezedIs(spills: bool, insts: seq<Instruction>, fs: seq<Fixed>, r: seq<Info>, alloc: set<Slot>, i: int)
    requires Accepts(insts, r, alloc) && Exact(insts, fs, i, r) && 0 <= i < |insts|
    ensures Squeezed(spills, r, Names(insts[i]), alloc) <==> exists bank :: TooWide(spills, insts, fs, alloc, i, bank)
    ensures Jam(r, Names(insts[i]), alloc) <==> exists bank :: Pressed(insts, fs, alloc, i, bank)
  {
    hide Accepts, Exact, Names, Wanted, NamedIn, Busy, NamedBy, Room;
    forall bank
      ensures Squeezes(spills, r, Names(insts[i]), alloc, bank) <==> TooWide(spills, insts, fs, alloc, i, bank)
      ensures Jams(r, Names(insts[i]), alloc, bank) <==> Pressed(insts, fs, alloc, i, bank)
    {
      WantedBusy(insts, fs, r, alloc, i, bank);
    }
  }

  /** Without pressure up to and at instruction n nothing is tight there. */
  lemma CalmLoose(insts: seq<Instruction>, fs: seq<Fixed>, alloc: set<Slot>, r: seq<Info>, n: int)
    requires Accepts(insts, r, alloc) && Exact(insts, fs, n, r) && 0 <= n < |insts|
    requires Calm(insts, fs, alloc, n + 1) && Unspilled(r)
    ensures !Tight(r, Names(insts[n]), alloc)
  {
    hide Accepts, Exact, Names, Jam, Pressed, Squeezed;
    SqueezedIs(false, insts, fs, r, alloc, n);
  }

  lemma ExactNext(insts: seq<Instruction>, fs: seq<Fixed>, alloc: set<Slot>, r0: seq<Info>, r1: seq<Info>, n: int,
                  quiet: bool)
    requires Accepts(insts, r0, alloc) && Lasts(insts, fs) && Exact(insts, fs, n, r0) && 0 <= n < |insts|
    requires Stepped(r0, r1, n, insts[n], alloc, quiet) && Reaches(insts, n + 1, r1)
    ensures Exact(insts, fs, n + 1, r1)
  {
    hide Accepts, Names, DefinedBy, Tight, Defines;
    forall k | 0 <= k < |r1|
      ensures r1[k].fix == fs[k] && (fs[k].pin.None? ==> (Alive(r1[k]) <==> LiveAt(insts, fs, n + 1, k)))
    {
      assert SteppedAt(r0[k], r1[k], n, k in Names(insts[n]), Defines(insts[n], k), Tight(r0, Names(insts[n]), alloc),
                       quiet);
      LaterDefined(insts, n, k);
      if k in Names(insts[n]) {
        NamedDefined(insts, r0, alloc, n, k);
      }
    }
  }

  lemma AcrossNext(insts: seq<Instruction>, fs: seq<Fixed>, alloc: set<Slot>, r0: seq<Info>, r1: seq<Info>, n: int,
                   quiet: bool)
    requires 0 <= n < |insts| && Exact(insts, fs, n, r0) && Stepped(r0, r1, n, insts[n], alloc, quiet)
    requires Calm(insts, fs, alloc, n + 1) ==> quiet && !Tight(r0, Names(insts[n]), alloc)
    ensures Across(insts, fs, alloc, n, r0, r1)
    ensures Calm(insts, fs, alloc, n + 1) ==> Unspilled(r1)
  {
    hide Names, Tight, Defines, Calm, LiveAt;
    forall k | 0 <= k < |r1|
      ensures SteppedAt(r0[k], r1[k], n, k in Names(insts[n]), Defines(insts[n], k),
                        Tight(r0, Names(insts[n]), alloc), quiet)
    {
    }
  }

  /** One more instruction. */
  lemma GoingNext(insts: seq<Instruction>, fs: seq<Fixed>, alloc: set<Slot>, spills: bool, tables: seq<seq<Info>>,
                  moved: seq<int>, slots: nat, slots': nat, n: nat, r1: seq<Info>, at: int, quiet: bool)
    requires n < |insts| && Going(insts, fs, alloc, spills, tables, moved, slots, n) && Lasts(insts, fs)
    requires Accepts(insts, tables[n], alloc) && Reaches(insts, n + 1, r1) && slots <= slots'
    requires Stepped(tables[n], r1, n, insts[n], alloc, quiet)
    requires !Squeezed(spills, tables[n], Names(insts[n]), alloc)
    requires slots' == 0 ==> !Jam(tables[n], Names(insts[n]), alloc)
    requires !quiet || slots' != slots ==> Tight(tables[n], Names(insts[n]), alloc)
    requires quiet ==> at == moved[n] + 1
    ensures Going(insts, fs, alloc, spills, tables + [r1], moved + [at], slots', n + 1)
  {
    hide Accepts, Reaches, Stepped, Names, Squeezed, Jam, Tight, Exact, Unspilled, Across, TooWide, Pressed, Lasts;
    var r0 := tables[n];
    ExactNext(insts, fs, alloc, r0, r1, n, quiet);
    SqueezedIs(spills, insts, fs, r0, alloc, n);
    if Calm(insts, fs, alloc, n + 1) {
      CalmLoose(insts, fs, alloc, r0, n);
    }
    AcrossNext(insts, fs, alloc, r0, r1, n, quiet);
    assert Calm(insts, fs, alloc, n + 1) <==>
        Calm(insts, fs, alloc, n) && forall bank :: !Pressed(insts, fs, alloc, n, bank);
  }

  /** Where rewriting stops, the list is too crowded. */
  lemma GoingFails(insts: seq<Instruction>, fs: seq<Fixed>, alloc: set<Slot>, spills: bool, tables: seq<seq<Info>>,
                   moved: seq<int>, slots: nat, n: nat, cap: nat)
    requires n < |insts| && Going(insts, fs, alloc, spills, tables, moved, slots, n) && Accepts(insts, tables[n], alloc)
    requires Tight(tables[n], Names(insts[n]), alloc)
    requires Squeezed(spills, tables[n], Names(insts[n]), alloc) || |tables[n]| > cap
    ensures !Calm(insts, fs, alloc, |insts|) && (Crowded(spills, insts, fs, alloc) || |fs| > cap)
  {
    hide Accepts, Names, Squeezed, Tight, Across, TooWide, Pressed, Exact;
    SqueezedIs(spills, insts, fs, tables[n], alloc, n);
    if Calm(insts, fs, alloc, |insts|) {
      CalmLoose(insts, fs, alloc, tables[n], n);
    }
    assert |tables[n]| == |fs| by { ExactSize(insts, fs, n, tables[n]); }
  }

  lemma GoingDone(insts: seq<Instruction>, fs: seq<Fixed>, alloc: set<Slot>, spills: bool, tables: seq<seq<Info>>,
                  moved: seq<int>, slots: nat)
    requires Going(insts, fs, alloc, spills, tables, moved, slots, |insts|)
    ensures (slots == 0 <==> Calm(insts, fs, alloc, |insts|)) && !Crowded(spills, insts, fs, alloc)
  {
    hide Exact, Across, TooWide, Pressed;
  }

  lemma ExactSize(insts: seq<Instruction>, fs: seq<Fixed>, i: int, r: seq<Info>)
    requires Exact(insts, fs, i, r)
    ensures |r| == |fs|
  {
  }

  /** Nothing touched at or after instruction i, and everything that holds a value is mentioned. */
  ghost predicate Begun(r: seq<Info>, i: int) {
    forall k :: 0 <= k < |r| ==> r[k].guard < i && (r[k].fix.pin.None? && Alive(r[k]) ==> r[k].fix.last >= 0)
  }

  lemma BegunStart(r: seq<Info>)
    requires forall k :: 0 <= k < |r| ==> !r[k].bound && !r[k].spilled && r[k].guard == -1
    ensures Begun(r, 0)
  {
  }

  lemma BegunNext(insts: seq<Instruction>, alloc: set<Slot>, r0: seq<Info>, r1: seq<Info>, i: int, quiet: bool)
    requires Accepts(insts, r0, alloc) && Begun(r0, i) && 0 <= i < |insts|
    requires Stepped(r0, r1, i, insts[i], alloc, quiet)
    ensures Begun(r1, i + 1)
  {
    hide Accepts, Names, Tight, Defines;
    forall k | 0 <= k < |r1|
      ensures r1[k].guard < i + 1 && (r1[k].fix.pin.None? && Alive(r1[k]) ==> r1[k].fix.last >= 0)
    {
      assert SteppedAt(r0[k], r1[k], i, k in Names(insts[i]), Defines(insts[i], k), Tight(r0, Names(insts[i]), alloc),
                       quiet);
      if k in Names(insts[i]) {
        NamedDefined(insts, r0, alloc, i, k);
      }
    }
  }

  lemma BegunMentioned(insts: seq<Instruction>, alloc: set<Slot>, r: seq<Info>, i: int)
    requires Accepts(insts, r, alloc) && Begun(r, i) && 0 <= i < |insts|
    ensures Mentioned(r, Names(insts[i])) && forall k :: 0 <= k < |r| ==> r[k].guard < i
  {
    hide Accepts, Names;
    forall k | 0 <= k < |r| && k in Names(insts[i])
      ensures r[k].fix.last >= 0
    {
      NamedDefined(insts, r, alloc, i, k);
    }
  }

  lemma AcceptsSame(insts: seq<Instruction>, r: seq<Info>, r': seq<Info>, alloc: set<Slot>)
    requires Accepts(insts, r, alloc) && SameFixes(r, r')
    ensures Accepts(insts, r', alloc)
  {
    hide PhysicalOk, DefinedBy, Uses;
    forall i, u | 0 <= i < |insts| && u in Refs(insts[i])
      ensures Typed(r', u) && r'[u.id].fix.last >= i
    {
      assert Typed(r, u) && r[u.id].fix.last >= i;
    }
    forall i, u | 0 <= i < |insts| && u in Uses(insts[i]) && Typed(r', u) && r'[u.id].fix.pin.None?
      ensures DefinedBy(insts, i, u.id)
    {
      assert Typed(r, u);
    }
  }

  /** A jump forward needs what is still to be read to be defined before it. */
  lemma ForwardNeeds(insts: seq<Instruction>, fs: seq<Fixed>, alloc: set<Slot>, spills: bool, tables: seq<seq<Info>>,
                     moved: seq<int>, slots: nat, i: nat, j: nat)
    requires Going(insts, fs, alloc, spills, tables, moved, slots, |insts|) && i <= j <= |insts|
    requires SamePlaces(tables[i], tables[j])
    ensures forall k :: LiveAt(insts, fs, j, k) ==> DefinedBy(insts, i, k)
  {
    hide Across, DefinedBy, TooWide, Calm;
    assert Exact(insts, fs, i, tables[i]) && Exact(insts, fs, j, tables[j]);
    forall k | LiveAt(insts, fs, j, k)
      ensures DefinedBy(insts, i, k)
    {
      assert SamePlace(tables[i][k], tables[j][k]) && Alive(tables[j][k]);
    }
  }

  /** Where a jump forward may go without pressure: exactly where everything still to be read was defined before it. */
  lemma ForwardIff(insts: seq<Instruction>, fs: seq<Fixed>, alloc: set<Slot>, spills: bool, tables: seq<seq<Info>>,
                   moved: seq<int>, slots: nat, i: nat, j: nat)
    requires Going(insts, fs, alloc, spills, tables, moved, slots, |insts|) && Calm(insts, fs, alloc, |insts|)
    requires i <= j <= |insts|
    ensures SamePlaces(tables[i], tables[j]) <==> forall k :: LiveAt(insts, fs, j, k) ==> DefinedBy(insts, i, k)
  {
    hide Across, DefinedBy, TooWide;
    assert Exact(insts, fs, i, tables[i]) && Exact(insts, fs, j, tables[j]);
    assert Calm(insts, fs, alloc, i) && Calm(insts, fs, alloc, j);
    forall k | 0 <= k < |fs| && fs[k].pin.None?
      ensures SamePlace(tables[i][k], tables[j][k]) <==> (LiveAt(insts, fs, j, k) ==> DefinedBy(insts, i, k))
    {
      if LiveAt(insts, fs, j, k) && DefinedBy(insts, i, k) {
        Stays(insts, fs, alloc, spills, tables, moved, slots, i, j, k);
      }
    }
  }

  /** Without pressure a value stays in its register. */
  lemma {:induction false} Stays(insts: seq<Instruction>, fs: seq<Fixed>, alloc: set<Slot>, spills: bool,
                                 tables: seq<seq<Info>>, moved: seq<int>, slots: nat, i: nat, j: nat, k: int)
    requires Going(insts, fs, alloc, spills, tables, moved, slots, |insts|) && Calm(insts, fs, alloc, |insts|)
    requires i <= j <= |insts| && LiveAt(insts, fs, j, k) && DefinedBy(insts, i, k)
    ensures |tables[i]| == |tables[j]| == |fs| && tables[i][k].bound && tables[j][k].bound
    ensures tables[i][k].reg == tables[j][k].reg
  {
    assert Exact(insts, fs, j, tables[j]) && Calm(insts, fs, alloc, j);
    assert DefinedBy(insts, j, k);
    if i < j {
      var d :| 0 <= d < i && d < |insts| && Defines(insts[d], k);
      assert DefinedBy(insts, j - 1, k);
      Stays(insts, fs, alloc, spills, tables, moved, slots, i, j - 1, k);
      assert Across(insts, fs, alloc, j - 1, tables[j - 1], tables[j]);
    }
  }
}
