/** The register table of the allocator on plain values: what keeps it consistent, and what it means
    for a physical state to hold the values of a virtual one. */
module AllocFacts {
  import opened Machine

  /** The state of one virtual register; slot is -1 when it has no spill slot. */
  datatype Info = Info(fix: Fixed, reg: PReg, guard: int, slot: int, mapped: bool, bound: bool, spilled: bool)

  function Fixes(regs: seq<Info>): (fs: seq<Fixed>)
    ensures |fs| == |regs| && forall k :: 0 <= k < |regs| ==> fs[k] == regs[k].fix
  {
    seq(|regs|, k requires 0 <= k < |regs| => regs[k].fix)
  }

  /** An unpinned register lives in allocatable slots only, a pinned one in its pin only. */
  ghost predicate Fits(r: Info, alloc: set<Slot>) {
    && (r.fix.pin.Some? ==> SlotOf(r.fix.pin.value) !in alloc && r.fix.pin.value.bank == r.fix.bank && !r.spilled)
    && (r.bound ==> r.mapped)
    && (r.mapped ==> r.reg.bank == r.fix.bank)
    && (r.mapped && r.fix.pin.Some? ==> SlotOf(r.reg) == SlotOf(r.fix.pin.value))
    && (r.mapped && r.fix.pin.None? ==> SlotOf(r.reg) in alloc)
    && (r.spilled ==> r.slot >= 0)
  }

  /** owners is the inverse of the bound registers, and the allocatable slots without an owner are the available
      ones. */
  ghost predicate OwnersOk(regs: seq<Info>, owners: map<Slot, int>, avail: set<Slot>, alloc: set<Slot>) {
    && (forall k ::
       0 <= k < |regs| && regs[k].bound ==> SlotOf(regs[k].reg) in owners && owners[SlotOf(regs[k].reg)] == k)
    && (forall s :: s in owners ==>
          0 <= owners[s] < |regs| && regs[owners[s]].bound && SlotOf(regs[owners[s]].reg) == s)
    && (forall s :: s in alloc ==> (s in avail <==> s !in owners))
  }

  /** The registers with a spill slot. */
  ghost function Holders(regs: seq<Info>): set<int> {
    set k | 0 <= k < |regs| && regs[k].slot >= 0
  }

  /** No two registers share a spill slot, freed slots belong to nobody, and every slot is freed or held. */
  ghost predicate SlotsOk(regs: seq<Info>, slots: int, freed: seq<int>) {
    && (forall k :: 0 <= k < |regs| ==> regs[k].slot < slots)
    && (forall j, k :: 0 <= j < k < |regs| && regs[j].slot >= 0 ==> regs[j].slot != regs[k].slot)
    && (forall n :: 0 <= n < |freed| ==> 0 <= freed[n] < slots)
    && (forall m, n :: 0 <= m < n < |freed| ==> freed[m] != freed[n])
    && (forall k, n :: 0 <= k < |regs| && 0 <= n < |freed| ==> regs[k].slot != freed[n])
    && slots == |Holders(regs)| + |freed|
  }

  /** No register but y is both bound and spilled. */
  ghost predicate Clean(regs: seq<Info>, y: int) {
    forall k :: 0 <= k < |regs| && k != y && regs[k].bound ==> !regs[k].spilled
  }

  /** Where the value of an unpinned register is found. */
  ghost predicate Holds(r: Info, value: int, p: PState) {
    && (r.bound && !r.spilled ==> Get(p.pregs, SlotOf(r.reg)) == value)
    && (r.spilled ==> Get(p.spill, r.slot) == value)
  }

  /** The physical state holds every virtual value in the register or spill slot of its owner, except
      for register x, and agrees on everything the allocator does not manage. */
  ghost predicate Sim(regs: seq<Info>, alloc: set<Slot>, x: int, v: VState, p: PState) {
    && v.world == p.world
    && (forall s :: s !in alloc ==> Get(v.pregs, s) == Get(p.pregs, s))
    && (forall k :: 0 <= k < |regs| && k != x && regs[k].fix.pin.None? ==> Holds(regs[k], Get(v.vregs, k), p))
  }

  /** Spill traffic e takes every state simulated before to one simulated after. */
  ghost predicate Carries(sem: Semantics, alloc: set<Slot>, r0: seq<Info>, x0: int, r1: seq<Info>, x1: int,
                          e: seq<Emitted>) {
    forall v, p :: Sim(r0, alloc, x0, v, p) ==> Sim(r1, alloc, x1, v, RunP(sem, e, p))
  }

  /** What binding one operand of instruction `at` may do to another register. */
  ghost predicate Kept(r: Info, r': Info, at: int) {
    && r'.fix == r.fix && r'.guard == r.guard && r'.mapped == r.mapped && r'.reg == r.reg
    && (r.fix.pin.None? && r.bound && r.guard == at ==> r' == r)
    && (r.fix.pin.None? && (r.bound || r.spilled) ==> r'.bound || r'.spilled)
    && (r'.bound ==> r.bound && r'.spilled == r.spilled) && (Alive(r') ==> Alive(r))
  }

  /** A register that the instruction at `at` may read. */
  ghost predicate Ready(r: Info, at: int) {
    r.mapped && (r.fix.pin.None? ==> r.bound && !r.spilled && r.guard == at)
  }

  function Rewrite(regs: seq<Info>, v: VReg): Operand {
    if 0 <= v.id < |regs| && regs[v.id].mapped
    then P(PReg(regs[v.id].reg.id, regs[v.id].reg.bank, WidthOf(Fixes(regs), v)))
    else V(v)
  }

  function RewriteOp(regs: seq<Info>, op: Operand): Operand {
    if op.V? then Rewrite(regs, op.v)
    else if op.Mem? && op.base.V? && Rewrite(regs, op.base.v).P? then Mem(Rewrite(regs, op.base.v), op.offset)
    else op
  }

  function Substitute(regs: seq<Info>, inst: Instruction): Instruction {
    Instruction(inst.op, RewriteOp(regs, inst.dst), RewriteOp(regs, inst.src1), RewriteOp(regs, inst.src2),
        RewriteOp(regs, inst.src3))
  }

  lemma CarriesNothing(sem: Semantics, alloc: set<Slot>, r: seq<Info>, x: int)
    ensures Carries(sem, alloc, r, x, r, x, [])
  {
  }

  lemma CarriesTrans(sem: Semantics, alloc: set<Slot>, r0: seq<Info>, x0: int, r1: seq<Info>, x1: int, r2: seq<Info>,
                     x2: int, e: seq<Emitted>, e': seq<Emitted>)
    requires Carries(sem, alloc, r0, x0, r1, x1, e) && Carries(sem, alloc, r1, x1, r2, x2, e')
    ensures Carries(sem, alloc, r0, x0, r2, x2, e + e')
  {
    hide Sim;
    forall v, p | Sim(r0, alloc, x0, v, p)
      ensures Sim(r2, alloc, x2, v, RunP(sem, e + e', p))
    {
      RunPAppend(sem, e, e', p);
    }
  }

  /** A change that moves no register and claims no more than before needs no traffic. */
  lemma CarriesWeaken(sem: Semantics, alloc: set<Slot>, r0: seq<Info>, x0: int, r1: seq<Info>, x1: int)
    requires |r0| == |r1|
    requires forall k :: 0 <= k < |r1| ==> r1[k].fix == r0[k].fix
    requires forall k :: 0 <= k < |r1| && k != x1 && r1[k].fix.pin.None? ==>
               && (r1[k].bound && !r1[k].spilled ==> k != x0 && r0[k].bound && !r0[k].spilled && r1[k].reg == r0[k].reg)
               && (r1[k].spilled ==> k != x0 && r0[k].spilled && r1[k].slot == r0[k].slot)
    ensures Carries(sem, alloc, r0, x0, r1, x1, [])
  {
    forall v, p | Sim(r0, alloc, x0, v, p)
      ensures Sim(r1, alloc, x1, v, RunP(sem, [], p))
    {
      assert forall k ::
          0 <= k < |r1| && k != x1 && r1[k].fix.pin.None? && k != x0 ==> Holds(r0[k], Get(v.vregs, k), p);
    }
  }

  /** Storing a bound register to a slot nobody else holds moves its value there. */
  lemma CarriesSpill(sem: Semantics, alloc: set<Slot>, r0: seq<Info>, x: int, id: int, slot: int)
    requires 0 <= id < |r0| && id != x && r0[id].fix.pin.None? && r0[id].bound && !r0[id].spilled && slot >= 0
    requires forall k :: 0 <= k < |r0| && k != id && r0[k].slot >= 0 ==> r0[k].slot != slot
    requires forall k :: 0 <= k < |r0| ==> Fits(r0[k], alloc)
    ensures Carries(sem, alloc, r0, x, r0[id := r0[id].(bound := false, spilled := true, slot := slot)], x,
      [Store(slot, r0[id].reg)])
  {
    var r1, e := r0[id := r0[id].(bound := false, spilled := true, slot := slot)], Store(slot, r0[id].reg);
    forall v, p | Sim(r0, alloc, x, v, p)
      ensures Sim(r1, alloc, x, v, RunP(sem, [e], p))
    {
      assert [e][..0] == [];
      var p' := p.(spill := p.spill[slot := Get(p.pregs, SlotOf(r0[id].reg))]);
      assert RunP(sem, [e], p) == p';
      forall k | 0 <= k < |r1| && k != x && r1[k].fix.pin.None?
        ensures Holds(r1[k], Get(v.vregs, k), p')
      {
        assert Holds(r0[k], Get(v.vregs, k), p);
      }
    }
  }

  /** Reloading a spilled register into the slot it owns moves its value back. */
  lemma CarriesReload(sem: Semantics, alloc: set<Slot>, r0: seq<Info>, id: int)
    requires 0 <= id < |r0| && r0[id].fix.pin.None? && r0[id].bound && r0[id].spilled
    requires forall k :: 0 <= k < |r0| ==> Fits(r0[k], alloc)
    requires forall k :: 0 <= k < |r0| && k != id && r0[k].bound ==> SlotOf(r0[k].reg) != SlotOf(r0[id].reg)
    ensures Carries(sem, alloc, r0, -1, r0[id := r0[id].(spilled := false)], -1, [Reload(r0[id].reg, r0[id].slot)])
  {
    var r1, e := r0[id := r0[id].(spilled := false)], Reload(r0[id].reg, r0[id].slot);
    forall v, p | Sim(r0, alloc, -1, v, p)
      ensures Sim(r1, alloc, -1, v, RunP(sem, [e], p))
    {
      assert [e][..0] == [];
      var p' := p.(pregs := p.pregs[SlotOf(r0[id].reg) := Get(p.spill, r0[id].slot)]);
      assert RunP(sem, [e], p) == p';
      forall k | 0 <= k < |r1| && k != -1 && r1[k].fix.pin.None?
        ensures Holds(r1[k], Get(v.vregs, k), p')
      {
        assert Holds(r0[k], Get(v.vregs, k), p);
      }
    }
  }

  /** An operand's own physical registers are outside the allocator's reach. */
  ghost predicate OutOfReach(op: Operand, alloc: set<Slot>) {
    && (op.P? ==> SlotOf(op.p) !in alloc)
    && (op.Mem? && op.base.P? ==> SlotOf(op.base.p) !in alloc)
  }

  ghost predicate PhysicalOk(inst: Instruction, alloc: set<Slot>) {
    OutOfReach(inst.dst, alloc) && OutOfReach(inst.src1, alloc) && OutOfReach(inst.src2, alloc) &&
        OutOfReach(inst.src3, alloc)
  }

  /** v was handed out with the bank it is used in. */
  ghost predicate Typed(regs: seq<Info>, v: VReg) {
    0 <= v.id < |regs| && v.bank == regs[v.id].fix.bank
  }

  /** A source operand reads the same value, through the same shape, before and after rewriting. */
  lemma SourceAgrees(regs: seq<Info>, alloc: set<Slot>, at: int, x: int, op: Operand, v: VState, p: PState)
    requires forall k :: 0 <= k < |regs| ==> Fits(regs[k], alloc)
    requires Sim(regs, alloc, x, v, p) && OutOfReach(op, alloc)
    requires forall u ::
      u in SourceOf(op) ==> Typed(regs, u) && Ready(regs[u.id], at) && (regs[u.id].fix.pin.None? ==> u.id != x)
    ensures Erase([], RewriteOp(regs, op)) == Erase(Fixes(regs), op)
    ensures SourceP(RewriteOp(regs, op), p) == SourceV(Fixes(regs), op, v)
  {
    if SourceOf(op) != [] {
      var u := SourceOf(op)[0];
      assert Typed(regs, u) && Ready(regs[u.id], at);
      assert regs[u.id].fix.pin.None? ==> Holds(regs[u.id], Get(v.vregs, u.id), p);
    }
  }

  lemma AddressAgrees(regs: seq<Info>, alloc: set<Slot>, at: int, x: int, op: Operand, v: VState, p: PState)
    requires forall k :: 0 <= k < |regs| ==> Fits(regs[k], alloc)
    requires Sim(regs, alloc, x, v, p) && OutOfReach(op, alloc)
    requires forall u ::
      u in BaseOf(op) ==> Typed(regs, u) && Ready(regs[u.id], at) && (regs[u.id].fix.pin.None? ==> u.id != x)
    requires op.V? ==> Typed(regs, op.v) && regs[op.v.id].mapped
    ensures Erase([], RewriteOp(regs, op)) == Erase(Fixes(regs), op)
    ensures AddressP(RewriteOp(regs, op), p) == AddressV(Fixes(regs), op, v)
  {
    if op.Mem? {
      SourceAgrees(regs, alloc, at, x, op, v, p);
    }
  }

  /** Writing the destination keeps the simulation, and makes it hold for the destination too. */
  lemma WriteAgrees(regs: seq<Info>, owners: map<Slot, int>, avail: set<Slot>, alloc: set<Slot>, x: int, op: Operand,
                    v: VState, p: PState, value: int)
    requires forall k :: 0 <= k < |regs| ==> Fits(regs[k], alloc)
    requires OwnersOk(regs, owners, avail, alloc)
    requires Sim(regs, alloc, x, v, p) && OutOfReach(op, alloc)
    requires op.V? ==> Typed(regs, op.v) && regs[op.v.id].mapped && (x == -1 || x == op.v.id)
                       && (regs[op.v.id].fix.pin.None? ==> regs[op.v.id].bound && !regs[op.v.id].spilled)
    requires !op.V? ==> x == -1
    ensures Sim(regs, alloc, -1, WriteV(Fixes(regs), op, v, value), WriteP(RewriteOp(regs, op), p, value))
  {
    var v', p' := WriteV(Fixes(regs), op, v, value), WriteP(RewriteOp(regs, op), p, value);
    forall k | 0 <= k < |regs| && k != -1 && regs[k].fix.pin.None?
      ensures Holds(regs[k], Get(v'.vregs, k), p')
    {
      assert k != x ==> Holds(regs[k], Get(v.vregs, k), p);
    }
  }

  lemma SimBody(sem: Semantics, regs: seq<Info>, owners: map<Slot, int>, avail: set<Slot>, alloc: set<Slot>,
                inst: Instruction, at: int, x: int, v: VState, p: PState)
    requires forall k :: 0 <= k < |regs| ==> Fits(regs[k], alloc)
    requires OwnersOk(regs, owners, avail, alloc)
    requires Sim(regs, alloc, x, v, p) && PhysicalOk(inst, alloc)
    requires forall u ::
      u in Uses(inst) ==> Typed(regs, u) && Ready(regs[u.id], at) && (regs[u.id].fix.pin.None? ==> u.id != x)
    requires inst.dst.V? ==> var d := inst.dst.v;
               Typed(regs, d) && regs[d.id].mapped && (x == -1 || x == d.id)
               && (regs[d.id].fix.pin.None? ==> regs[d.id].bound && !regs[d.id].spilled)
    requires !inst.dst.V? ==> x == -1
    ensures Sim(regs, alloc, -1, StepV(sem, Fixes(regs), inst, v), StepP(sem, Body(Substitute(regs, inst)), p))
  {
    hide OwnersOk, Fits, Ready, Sim, Typed, Erase, RewriteOp, SourceP, SourceV, AddressP, AddressV, OutOfReach, WriteV,
         WriteP;
    AddressAgrees(regs, alloc, at, x, inst.dst, v, p);
    SourceAgrees(regs, alloc, at, x, inst.src1, v, p);
    SourceAgrees(regs, alloc, at, x, inst.src2, v, p);
    SourceAgrees(regs, alloc, at, x, inst.src3, v, p);
    var (value, world) := sem(Shape(Fixes(regs), inst), OperandsV(Fixes(regs), inst, v), v.world);
    WorldAgrees(regs, alloc, x, v, p);
    WriteAgrees(regs, owners, avail, alloc, x, inst.dst, v, p, value);
    SetWorld(regs, alloc, WriteV(Fixes(regs), inst.dst, v, value), WriteP(RewriteOp(regs, inst.dst), p, value), world);
  }

  lemma WorldAgrees(regs: seq<Info>, alloc: set<Slot>, x: int, v: VState, p: PState)
    requires Sim(regs, alloc, x, v, p)
    ensures v.world == p.world
  {
  }

  lemma SetWorld(regs: seq<Info>, alloc: set<Slot>, v: VState, p: PState, world: int)
    requires Sim(regs, alloc, -1, v, p)
    ensures Sim(regs, alloc, -1, v.(world := world), p.(world := world))
  {
    forall k | 0 <= k < |regs| && k != -1 && regs[k].fix.pin.None?
      ensures Holds(regs[k], Get(v.vregs, k), p.(world := world))
    {
      assert Holds(regs[k], Get(v.vregs, k), p);
    }
  }

  lemma OwnersFree(regs: seq<Info>, owners: map<Slot, int>, avail: set<Slot>, alloc: set<Slot>, id: int)
    requires OwnersOk(regs, owners, avail, alloc) && 0 <= id < |regs| && regs[id].bound
    ensures var s := SlotOf(regs[id].reg);
            OwnersOk(regs[id := regs[id].(bound := false)], owners - {s}, avail + {s}, alloc)
  {
  }

  lemma OwnersTake(regs: seq<Info>, owners: map<Slot, int>, avail: set<Slot>, alloc: set<Slot>, id: int, preg: PReg)
    requires OwnersOk(regs, owners, avail, alloc) && 0 <= id < |regs| && !regs[id].bound
    requires SlotOf(preg) !in owners
    ensures OwnersOk(regs[id := regs[id].(reg := preg, mapped := true, bound := true)],
                     owners[SlotOf(preg) := id], avail - {SlotOf(preg)}, alloc)
  {
  }

  /** Fields OwnersOk does not look at. */
  lemma OwnersSame(regs: seq<Info>, regs': seq<Info>, owners: map<Slot, int>, avail: set<Slot>, alloc: set<Slot>)
    requires OwnersOk(regs, owners, avail, alloc) && |regs'| == |regs|
    requires forall k :: 0 <= k < |regs| ==> regs'[k].bound == regs[k].bound && regs'[k].reg == regs[k].reg
    ensures OwnersOk(regs', owners, avail, alloc)
  {
  }

  lemma SlotsSame(regs: seq<Info>, regs': seq<Info>, slots: int, freed: seq<int>)
    requires SlotsOk(regs, slots, freed) && |regs'| == |regs|
    requires forall k :: 0 <= k < |regs| ==> regs'[k].slot == regs[k].slot
    ensures SlotsOk(regs', slots, freed)
  {
    assert Holders(regs') == Holders(regs);
  }

  /** Giving a register a slot from the freed stack, or a new one. */
  lemma SlotsTake(regs: seq<Info>, slots: nat, freed: seq<int>, id: int, r: Info)
    requires SlotsOk(regs, slots, freed) && 0 <= id < |regs| && regs[id].slot < 0
    ensures freed != [] && r.slot == freed[|freed| - 1] ==>
              SlotsOk(regs[id := r], slots, freed[..|freed| - 1])
              && forall k :: 0 <= k < |regs| && k != id && regs[k].slot >= 0 ==> regs[k].slot != r.slot
    ensures r.slot == slots ==>
              SlotsOk(regs[id := r], slots + 1, freed)
              && forall k :: 0 <= k < |regs| && k != id && regs[k].slot >= 0 ==> regs[k].slot != r.slot
  {
    if r.slot >= 0 {
      assert Holders(regs[id := r]) == Holders(regs) + {id};
    }
  }

  lemma SlotsGive(regs: seq<Info>, slots: nat, freed: seq<int>, id: int, r: Info)
    requires SlotsOk(regs, slots, freed) && 0 <= id < |regs| && regs[id].slot >= 0 && r.slot == -1
    ensures SlotsOk(regs[id := r], slots, freed + [regs[id].slot])
  {
    assert Holders(regs) == Holders(regs[id := r]) + {id};
  }

  lemma OwnersInjective(regs: seq<Info>, owners: map<Slot, int>, avail: set<Slot>, alloc: set<Slot>)
    requires OwnersOk(regs, owners, avail, alloc)
    ensures forall j, k :: 0 <= j < |regs| && 0 <= k < |regs| && j != k && regs[j].bound && regs[k].bound ==>
              SlotOf(regs[j].reg) != SlotOf(regs[k].reg)
  {
  }

  lemma OtherSlots(regs: seq<Info>, slots: int, freed: seq<int>, id: int)
    requires SlotsOk(regs, slots, freed) && 0 <= id < |regs| && regs[id].slot >= 0
    ensures forall k :: 0 <= k < |regs| && k != id ==> regs[k].slot != regs[id].slot
  {
  }

  ghost predicate Alive(r: Info) {
    r.bound || r.spilled
  }

  /** What binding operands of the instruction at `at` leaves of the table: readable registers stay
      readable and no live unpinned value is lost. */
  ghost predicate Touched(r0: seq<Info>, r1: seq<Info>, at: int) {
    |r1| == |r0| && forall k :: 0 <= k < |r0| ==>
      && r1[k].fix == r0[k].fix
      && (Ready(r0[k], at) ==> Ready(r1[k], at))
      && (r0[k].fix.pin.None? && Alive(r0[k]) ==> Alive(r1[k]))
  }

  lemma TouchedTrans(r0: seq<Info>, r1: seq<Info>, r2: seq<Info>, at: int)
    requires Touched(r0, r1, at) && Touched(r1, r2, at)
    ensures Touched(r0, r2, at)
  {
    hide Ready, Alive;
  }

  /** Running e is running inst, in every pair of simulated states. */
  ghost predicate Executes(sem: Semantics, alloc: set<Slot>, r0: seq<Info>, r1: seq<Info>, inst: Instruction,
                           e: seq<Emitted>) {
    forall v, p :: Sim(r0, alloc, -1, v, p) ==> Sim(r1, alloc, -1, StepV(sem, Fixes(r0), inst, v), RunP(sem, e, p))
  }

  lemma ExecutesBody(sem: Semantics, r0: seq<Info>, r1: seq<Info>, owners: map<Slot, int>, avail: set<Slot>,
                     alloc: set<Slot>, inst: Instruction, at: int, x: int, e: seq<Emitted>)
    requires |r0| == |r1| && (forall k :: 0 <= k < |r0| ==> r0[k].fix == r1[k].fix)
    requires Carries(sem, alloc, r0, -1, r1, x, e)
    requires forall k :: 0 <= k < |r1| ==> Fits(r1[k], alloc)
    requires OwnersOk(r1, owners, avail, alloc) && PhysicalOk(inst, alloc)
    requires forall u ::
      u in Uses(inst) ==> Typed(r1, u) && Ready(r1[u.id], at) && (r1[u.id].fix.pin.None? ==> u.id != x)
    requires inst.dst.V? ==> var d := inst.dst.v;
               Typed(r1, d) && r1[d.id].mapped && (x == -1 || x == d.id)
               && (r1[d.id].fix.pin.None? ==> r1[d.id].bound && !r1[d.id].spilled)
    requires !inst.dst.V? ==> x == -1
    ensures Executes(sem, alloc, r0, r1, inst, e + [Body(Substitute(r1, inst))])
  {
    hide OwnersOk, Fits, Ready, Sim, Typed, PhysicalOk, StepV, Substitute, Uses;
    assert Fixes(r0) == Fixes(r1);
    var b := Body(Substitute(r1, inst));
    forall v, p | Sim(r0, alloc, -1, v, p)
      ensures Sim(r1, alloc, -1, StepV(sem, Fixes(r0), inst, v), RunP(sem, e + [b], p))
    {
      SimBody(sem, r1, owners, avail, alloc, inst, at, x, v, RunP(sem, e, p));
      assert (e + [b])[..|e|] == e;
    }
  }

  lemma ExecutesThen(sem: Semantics, alloc: set<Slot>, r0: seq<Info>, r1: seq<Info>, r2: seq<Info>, inst: Instruction,
                     e: seq<Emitted>)
    requires Executes(sem, alloc, r0, r1, inst, e) && Carries(sem, alloc, r1, -1, r2, -1, [])
    ensures Executes(sem, alloc, r0, r2, inst, e)
  {
    hide Sim, StepV;
    forall v, p | Sim(r0, alloc, -1, v, p)
      ensures Sim(r2, alloc, -1, StepV(sem, Fixes(r0), inst, v), RunP(sem, e, p))
    {
      assert RunP(sem, [], RunP(sem, e, p)) == RunP(sem, e, p);
    }
  }

  lemma TableSame(regs: seq<Info>, regs': seq<Info>, owners: map<Slot, int>, avail: set<Slot>, alloc: set<Slot>,
                  slots: int, freed: seq<int>)
    requires OwnersOk(regs, owners, avail, alloc) && SlotsOk(regs, slots, freed) && |regs'| == |regs|
    requires forall k :: 0 <= k < |regs| ==>
               regs'[k].bound == regs[k].bound && regs'[k].reg == regs[k].reg && regs'[k].slot == regs[k].slot
    ensures OwnersOk(regs', owners, avail, alloc) && SlotsOk(regs', slots, freed)
  {
    OwnersSame(regs, regs', owners, avail, alloc);
    SlotsSame(regs, regs', slots, freed);
  }

  /** The register whose value is not known to be where the table says once id is bound: id itself, unless
      its value was in a register, in a spill slot or in its pin. */
  ghost function Unknown(regs: seq<Info>, id: int): int
    requires 0 <= id < |regs|
  {
    if Alive(regs[id]) || regs[id].fix.pin.Some? then -1 else id
  }

  lemma TouchedReady(r0: seq<Info>, r1: seq<Info>, at: int, us: seq<VReg>)
    requires Touched(r0, r1, at) && forall u :: u in us ==> Typed(r0, u) && Ready(r0[u.id], at)
    ensures forall u :: u in us ==> Typed(r1, u) && Ready(r1[u.id], at)
  {
    hide Ready;
  }

  /** Unpinned registers that hold a value before an instruction's last references to it are dropped. */
  ghost predicate Survive(r0: seq<Info>, r1: seq<Info>, at: int) {
    |r1| == |r0| && forall k :: 0 <= k < |r0| ==>
      && r1[k].fix == r0[k].fix
      && (r0[k].fix.pin.None? && r0[k].fix.last != at && Alive(r0[k]) ==> Alive(r1[k]))
  }

  lemma SurviveTrans(r0: seq<Info>, r1: seq<Info>, r2: seq<Info>, at: int)
    requires Survive(r0, r1, at) && Survive(r1, r2, at)
    ensures Survive(r0, r2, at)
  {
    hide Alive;
  }

  /** The states agree on everything the allocator does not manage. */
  ghost predicate Agree(alloc: set<Slot>, v: VState, p: PState) {
    v.world == p.world && forall s :: s !in alloc ==> Get(v.pregs, s) == Get(p.pregs, s)
  }

  ghost predicate SimulatesFrom(sem: Semantics, alloc: set<Slot>, fs: seq<Fixed>, insts: seq<Instruction>,
                                regs: seq<Info>, body: seq<Emitted>) {
    forall v, p :: Agree(alloc, v, p) ==> Sim(regs, alloc, -1, RunV(sem, fs, insts, v), RunP(sem, body, p))
  }

  lemma SimulatesStep(sem: Semantics, alloc: set<Slot>, insts: seq<Instruction>, i: nat, r0: seq<Info>, r1: seq<Info>,
                      body: seq<Emitted>, e: seq<Emitted>)
    requires i < |insts| && SimulatesFrom(sem, alloc, Fixes(r0), insts[..i], r0, body)
    requires Executes(sem, alloc, r0, r1, insts[i], e)
    ensures SimulatesFrom(sem, alloc, Fixes(r0), insts[..i + 1], r1, body + e)
  {
    hide Sim, Agree, StepV, RunP, RunV;
    var fs := Fixes(r0);
    forall v, p | Agree(alloc, v, p)
      ensures Sim(r1, alloc, -1, RunV(sem, fs, insts[..i + 1], v), RunP(sem, body + e, p))
    {
      RunVAppend(sem, fs, insts, i, v);
      RunPAppend(sem, body, e, p);
    }
  }

  lemma SimulatesNothing(sem: Semantics, alloc: set<Slot>, fs: seq<Fixed>, regs: seq<Info>)
    requires forall k :: 0 <= k < |regs| ==> !regs[k].bound && !regs[k].spilled
    ensures SimulatesFrom(sem, alloc, fs, [], regs, [])
  {
  }

  /** What the pass demands of its input: registers handed out with one bank, values defined before they
      are read, physical operands outside the allocator's reach. */
  ghost predicate Accepts(insts: seq<Instruction>, regs: seq<Info>, alloc: set<Slot>) {
    && (forall i :: 0 <= i < |insts| ==> PhysicalOk(insts[i], alloc))
    && (forall i, u :: 0 <= i < |insts| && u in Refs(insts[i]) ==> Typed(regs, u) && regs[u.id].fix.last >= i)
    && (forall i, u :: 0 <= i < |insts| && u in Uses(insts[i]) && Typed(regs, u) && regs[u.id].fix.pin.None? ==>
          DefinedBy(insts, i, u.id))
  }

  ghost predicate DefinedBy(insts: seq<Instruction>, i: int, id: int) {
    exists j :: 0 <= j < i && j < |insts| && Defines(insts[j], id)
  }

  /** After i instructions every value still to be read is in a register or a spill slot. */
  ghost predicate Reaches(insts: seq<Instruction>, i: int, regs: seq<Info>) {
    forall k :: 0 <= k < |regs| && DefinedBy(insts, i, k) && regs[k].fix.pin.None? && regs[k].fix.last >= i ==>
        Alive(regs[k])
  }

  /** The same registers with the same pins, widths and last uses. */
  ghost predicate SameFixes(r0: seq<Info>, r1: seq<Info>) {
    |r0| == |r1| && forall k :: 0 <= k < |r0| ==> r0[k].fix == r1[k].fix
  }

  lemma AcceptsAt(insts: seq<Instruction>, r0: seq<Info>, regs: seq<Info>, alloc: set<Slot>, i: int)
    requires Accepts(insts, r0, alloc) && SameFixes(r0, regs) && Reaches(insts, i, regs) && 0 <= i < |insts|
    ensures PhysicalOk(insts[i], alloc)
    ensures forall u :: u in Uses(insts[i]) ==> Typed(regs, u) && (regs[u.id].fix.pin.None? ==> Alive(regs[u.id]))
    ensures insts[i].dst.V? ==> Typed(regs, insts[i].dst.v)
  {
    hide PhysicalOk, Alive, Uses, DefinedBy;
    forall u | u in Uses(insts[i])
      ensures Typed(regs, u) && (regs[u.id].fix.pin.None? ==> Alive(regs[u.id]))
    {
      assert u in Refs(insts[i]);
    }
    if insts[i].dst.V? {
      assert insts[i].dst.v in Refs(insts[i]);
    }
  }

  lemma ReachesNothing(insts: seq<Instruction>, regs: seq<Info>)
    ensures Reaches(insts, 0, regs)
  {
  }

  lemma ReachesStep(insts: seq<Instruction>, i: int, r0: seq<Info>, r1: seq<Info>)
    requires 0 <= i < |insts| && Reaches(insts, i, r0) && Survive(r0, r1, i)
    requires insts[i].dst.V? ==> var d := insts[i].dst.v.id;
               0 <= d < |r1| && (r1[d].fix.pin.None? && r1[d].fix.last != i ==> Alive(r1[d]))
    ensures Reaches(insts, i + 1, r1)
  {
    hide Alive;
    forall k | 0 <= k < |r1| && DefinedBy(insts, i + 1, k) && r1[k].fix.pin.None? && r1[k].fix.last >= i + 1
      ensures Alive(r1[k])
    {
      var j :| 0 <= j < i + 1 && Defines(insts[j], k);
      if j < i {
        assert DefinedBy(insts, i, k);
      }
    }
  }

  /** Spill stores and reloads only. */
  ghost predicate Traffic(e: seq<Emitted>) {
    forall k :: 0 <= k < |e| ==> e[k].Store? || e[k].Reload?
  }

  lemma TrafficJoins(a: seq<Emitted>, b: seq<Emitted>)
    requires Traffic(a) && Traffic(b)
    ensures Traffic(a + b)
  {
  }

  /** A register to stand for v, viewed at the width v is declared with. */
  ghost predicate Viewed(v: VReg, op: Operand) {
    op.P? && (v.width.Undefined? || op.p.width == v.width)
  }

  /** The same operand, a register standing for a register. */
  ghost predicate SameOperand(op: Operand, op': Operand) {
    match op
    case V(v) => Viewed(v, op')
    case Mem(base, offset) =>
      op'.Mem? && op'.offset == offset && (if base.V? then Viewed(base.v, op'.base) else op'.base == base)
    case _ => op' == op
  }

  /** inst' is inst over physical registers. */
  ghost predicate SameForm(inst: Instruction, inst': Instruction) {
    && inst'.op == inst.op && SameOperand(inst.dst, inst'.dst) && SameOperand(inst.src1, inst'.src1)
    && SameOperand(inst.src2, inst'.src2) && SameOperand(inst.src3, inst'.src3)
  }

  /** What an instruction becomes: spill traffic, and then itself over physical registers. */
  ghost predicate Becomes(inst: Instruction, e: seq<Emitted>) {
    |e| > 0 && Traffic(e[..|e| - 1]) && e[|e| - 1].Body? && SameForm(inst, e[|e| - 1].inst)
  }

  /** With every register it names placed, an instruction keeps its form. */
  lemma SubstituteForm(regs: seq<Info>, inst: Instruction)
    requires forall u :: u in Uses(inst) ==> 0 <= u.id < |regs| && regs[u.id].mapped
    requires inst.dst.V? ==> 0 <= inst.dst.v.id < |regs| && regs[inst.dst.v.id].mapped
    ensures SameForm(inst, Substitute(regs, inst))
  {
    OperandForm(regs, inst.dst);
    OperandForm(regs, inst.src1);
    OperandForm(regs, inst.src2);
    OperandForm(regs, inst.src3);
  }

  lemma OperandForm(regs: seq<Info>, op: Operand)
    requires forall u :: u in SourceOf(op) ==> 0 <= u.id < |regs| && regs[u.id].mapped
    ensures SameOperand(op, RewriteOp(regs, op))
  {
    if SourceOf(op) != [] {
      assert SourceOf(op)[0] in SourceOf(op);
    }
  }

  /** What the pass has emitted for instruction i: its form, and its effect between the tables before and after it. */
  ghost predicate Emits(sem: Semantics, alloc: set<Slot>, insts: seq<Instruction>, tables: seq<seq<Info>>,
                        moved: seq<int>, out: seq<Emitted>, i: int) {
    && 0 <= i < |insts| && |moved| > i + 1 && |tables| > i + 1 && 0 <= moved[i] < moved[i + 1] <= |out|
    && Becomes(insts[i], out[moved[i]..moved[i + 1]])
    && Executes(sem, alloc, tables[i], tables[i + 1], insts[i], out[moved[i]..moved[i + 1]])
  }

  /** Every place where r1 claims an unpinned register's value to be is where r0 has it. */
  ghost predicate SamePlaces(r0: seq<Info>, r1: seq<Info>) {
    |r1| == |r0| && forall k :: 0 <= k < |r1| && r1[k].fix.pin.None? ==> SamePlace(r0[k], r1[k])
  }

  ghost predicate SamePlace(a: Info, b: Info) {
    && (b.bound && !b.spilled ==> a.bound && !a.spilled && SlotOf(a.reg) == SlotOf(b.reg))
    && (b.spilled ==> a.spilled && a.slot == b.slot)
  }

  /** A table in good order. */
  ghost predicate TableOk(regs: seq<Info>, alloc: set<Slot>) {
    && Clean(regs, -1) && (forall k :: 0 <= k < |regs| ==> Fits(regs[k], alloc))
    && exists owners: map<Slot, int>, avail: set<Slot>, slots: int, freed: seq<int> ::
         OwnersOk(regs, owners, avail, alloc) && SlotsOk(regs, slots, freed)
  }

  lemma TableIsOk(regs: seq<Info>, owners: map<Slot, int>, avail: set<Slot>, alloc: set<Slot>, slots: int,
                  freed: seq<int>)
    requires OwnersOk(regs, owners, avail, alloc) && SlotsOk(regs, slots, freed) && Clean(regs, -1)
    requires forall k :: 0 <= k < |regs| ==> Fits(regs[k], alloc)
    ensures TableOk(regs, alloc)
  {
    hide OwnersOk, SlotsOk, Fits, Clean;
  }

  /** Whether control may pass from a point where table r0 holds to one that expects table r1, nothing being emitted in
      between: exactly when every value r1 claims is where r0 has it. */
  lemma JumpIff(sem: Semantics, alloc: set<Slot>, r0: seq<Info>, r1: seq<Info>)
    requires TableOk(r0, alloc) && SameFixes(r0, r1)
    ensures Carries(sem, alloc, r0, -1, r1, -1, []) <==> SamePlaces(r0, r1)
  {
    hide OwnersOk, SlotsOk, Sim, SamePlace, Fits, Clean;
    var owners: map<Slot, int>, avail: set<Slot>, slots: int, freed: seq<int> :| OwnersOk(r0, owners, avail, alloc) &&
        SlotsOk(r0, slots, freed);
    if SamePlaces(r0, r1) {
      forall v, p | Sim(r0, alloc, -1, v, p)
        ensures Sim(r1, alloc, -1, v, RunP(sem, [], p))
      {
        PlacesCarry(alloc, r0, r1, v, p);
      }
    } else {
      var k :| 0 <= k < |r1| && r1[k].fix.pin.None? && !SamePlace(r0[k], r1[k]);
      var v, p := VState(map[k := 1], map[], 0), Marked(r0[k]);
      MarkedSim(owners, avail, alloc, slots, freed, r0, k);
      MarkedMissed(alloc, r0, r1, k);
      assert RunP(sem, [], p) == p;
    }
  }

  lemma PlacesCarry(alloc: set<Slot>, r0: seq<Info>, r1: seq<Info>, v: VState, p: PState)
    requires SamePlaces(r0, r1) && SameFixes(r0, r1) && Sim(r0, alloc, -1, v, p)
    ensures Sim(r1, alloc, -1, v, p)
  {
    forall k | 0 <= k < |r1| && k != -1 && r1[k].fix.pin.None?
      ensures Holds(r1[k], Get(v.vregs, k), p)
    {
      assert SamePlace(r0[k], r1[k]) && Holds(r0[k], Get(v.vregs, k), p);
    }
  }

  /** A state that holds 1 exactly where r is. */
  ghost function Marked(r: Info): PState {
    PState(if r.bound && !r.spilled then map[SlotOf(r.reg) := 1] else map[], if r.spilled then map[r.slot := 1]
        else map[], 0)
  }

  lemma MarkedSim(owners: map<Slot, int>, avail: set<Slot>, alloc: set<Slot>, slots: int, freed: seq<int>,
                  r0: seq<Info>, k: int)
    requires OwnersOk(r0, owners, avail, alloc) && SlotsOk(r0, slots, freed) && Clean(r0, -1)
    requires forall j :: 0 <= j < |r0| ==> Fits(r0[j], alloc)
    requires 0 <= k < |r0| && r0[k].fix.pin.None?
    ensures Sim(r0, alloc, -1, VState(map[k := 1], map[], 0), Marked(r0[k]))
  {
    OwnersInjective(r0, owners, avail, alloc);
    var v, p := VState(map[k := 1], map[], 0), Marked(r0[k]);
    forall j | 0 <= j < |r0| && j != -1 && r0[j].fix.pin.None?
      ensures Holds(r0[j], Get(v.vregs, j), p)
    {
      if j != k && r0[j].spilled && r0[k].spilled {
        SlotsApart(r0, slots, freed, j, k);
      }
    }
  }

  lemma SlotsApart(regs: seq<Info>, slots: int, freed: seq<int>, j: int, k: int)
    requires SlotsOk(regs, slots, freed) && 0 <= j < |regs| && 0 <= k < |regs| && j != k && regs[j].slot >= 0
    ensures regs[j].slot != regs[k].slot
  {
    if k < j && regs[k].slot >= 0 {
      assert regs[k].slot != regs[j].slot;
    }
  }

  lemma MarkedMissed(alloc: set<Slot>, r0: seq<Info>, r1: seq<Info>, k: int)
    requires 0 <= k < |r1| == |r0| && r1[k].fix.pin.None? && !SamePlace(r0[k], r1[k]) && Clean(r0, -1)
    ensures !Sim(r1, alloc, -1, VState(map[k := 1], map[], 0), Marked(r0[k]))
  {
    assert !Holds(r1[k], 1, Marked(r0[k]));
  }

  /** From wherever table j holds, what instructions j to n became computes what they compute. */
  lemma {:induction false} TailSimulates(sem: Semantics, alloc: set<Slot>, fs: seq<Fixed>, insts: seq<Instruction>,
                                         tables: seq<seq<Info>>, moved: seq<int>, out: seq<Emitted>, j: nat, n: nat,
                                         v: VState, p: PState)
    requires j <= n <= |insts| && |moved| == |insts| + 1 && |tables| == |insts| + 1
    requires forall i :: 0 <= i < |insts| ==> Emits(sem, alloc, insts, tables, moved, out, i) && Fixes(tables[i]) == fs
    requires Sim(tables[j], alloc, -1, v, p) && (j == |insts| ==> 0 <= moved[j] <= |out|)
    ensures 0 <= moved[j] <= moved[n] <= |out|
    ensures Sim(tables[n], alloc, -1, RunV(sem, fs, insts[j..n], v), RunP(sem, out[moved[j]..moved[n]], p))
  {
    hide Sim, StepV, RunV, RunP, Executes, Emits;
    if j < |insts| {
      EmitsThere(sem, alloc, insts, tables, moved, out, j);
    }
    if j == n {
      assert out[moved[j]..moved[n]] == [] && insts[j..n] == [];
      NothingRuns(sem, fs, v, p);
    } else {
      TailSimulates(sem, alloc, fs, insts, tables, moved, out, j, n - 1, v, p);
      EmitsThere(sem, alloc, insts, tables, moved, out, n - 1);
      ChunkRuns(sem, alloc, fs, tables[n - 1], tables[n], insts, moved, out, j, n - 1, v, p);
    }
  }

  lemma EmitsThere(sem: Semantics, alloc: set<Slot>, insts: seq<Instruction>, tables: seq<seq<Info>>, moved: seq<int>,
                   out: seq<Emitted>, i: int)
    requires Emits(sem, alloc, insts, tables, moved, out, i)
    ensures 0 <= i < |insts| && |moved| > i + 1 && |tables| > i + 1 && 0 <= moved[i] < moved[i + 1] <= |out|
    ensures Executes(sem, alloc, tables[i], tables[i + 1], insts[i], out[moved[i]..moved[i + 1]])
  {
    hide Becomes, Executes;
  }

  lemma NothingRuns(sem: Semantics, fs: seq<Fixed>, v: VState, p: PState)
    ensures RunV(sem, fs, [], v) == v && RunP(sem, [], p) == p
  {
  }

  lemma ChunkRuns(sem: Semantics, alloc: set<Slot>, fs: seq<Fixed>, r0: seq<Info>, r1: seq<Info>,
                  insts: seq<Instruction>, moved: seq<int>, out: seq<Emitted>, j: nat, i: nat, v: VState, p: PState)
    requires j <= i < |insts| && |moved| == |insts| + 1 && 0 <= moved[j] <= moved[i] < moved[i + 1] <= |out|
    requires Fixes(r0) == fs
    requires Sim(r0, alloc, -1, RunV(sem, fs, insts[j..i], v), RunP(sem, out[moved[j]..moved[i]], p))
    requires Executes(sem, alloc, r0, r1, insts[i], out[moved[i]..moved[i + 1]])
    ensures Sim(r1, alloc, -1, RunV(sem, fs, insts[j..i + 1], v), RunP(sem, out[moved[j]..moved[i + 1]], p))
  {
    hide Sim, StepV, RunP;
    assert insts[j..i + 1][..i - j] == insts[j..i];
    var mid, last := out[moved[j]..moved[i]], out[moved[i]..moved[i + 1]];
    assert out[moved[j]..moved[i + 1]] == mid + last;
    RunPAppend(sem, mid, last, p);
  }
}
