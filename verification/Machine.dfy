/** Instructions over virtual or physical registers, and what running a straight-line list of them does.
    The effect of an opcode is an arbitrary function of the instruction's shape, the values it reads and
    the rest of the machine (memory, flags, ...), so two runs that agree for every such function agree on
    every operand of every instruction. */
module Machine {

  datatype Option<T> = None | Some(value: T)

  datatype Bank = IntBank | FloatBank

  datatype Width = Undefined | W32 | W64

  datatype PReg = PReg(id: int, bank: Bank, width: Width)

  datatype VReg = VReg(id: int, bank: Bank, width: Width)

  datatype Operand = Nothing | V(v: VReg) | P(p: PReg) | Imm(n: int) | Lbl(target: int) | Mem(base: Operand,
      offset: int)

  datatype Instruction = Instruction(op: int, dst: Operand, src1: Operand, src2: Operand, src3: Operand)

  /** An emitted instruction: a rewritten one, or one of the spill frame's. */
  datatype Emitted = Body(inst: Instruction) | Store(slot: int, from: PReg) | Reload(into: PReg,
      slot: int) | Adjust(word: int)

  /** What names a physical register: X0 and W0 are the same slot of the integer bank. */
  datatype Slot = Slot(bank: Bank, id: int)

  /** What an instruction list fixes about a virtual register. */
  datatype Fixed = Fixed(bank: Bank, pin: Option<PReg>, width: Width, last: int)

  type Semantics = (Instruction, seq<int>, int) -> (int, int)

  /** Virtual registers, the physical registers outside the allocator's reach, and everything else. */
  datatype VState = VState(vregs: map<int, int>, pregs: map<Slot, int>, world: int)

  datatype PState = PState(pregs: map<Slot, int>, spill: map<int, int>, world: int)

  function Get<K>(m: map<K, int>, k: K): int {
    if k in m then m[k] else 0
  }

  function SlotOf(p: PReg): Slot {
    Slot(p.bank, p.id)
  }

  /** The virtual register op dereferences as a memory address. */
  function BaseOf(op: Operand): seq<VReg> {
    if op.Mem? && op.base.V? then [op.base.v] else []
  }

  function SourceOf(op: Operand): seq<VReg> {
    if op.V? then [op.v] else BaseOf(op)
  }

  /** Every virtual register the instruction reads, in the order it is bound. */
  function Uses(inst: Instruction): seq<VReg> {
    BaseOf(inst.dst) + SourceOf(inst.src1) + SourceOf(inst.src2) + SourceOf(inst.src3)
  }

  /** The width v is viewed at: its own, or the one first recorded for it. */
  function WidthOf(fs: seq<Fixed>, v: VReg): Width {
    if v.width == Undefined && 0 <= v.id < |fs| then fs[v.id].width else v.width
  }

  function EraseReg(fs: seq<Fixed>, op: Operand): Operand {
    match op
    case V(v) => P(PReg(0, v.bank, WidthOf(fs, v)))
    case P(p) => P(p.(id := 0))
    case _ => op
  }

  /** The operand without the identity of its registers. */
  function Erase(fs: seq<Fixed>, op: Operand): Operand {
    if op.Mem? then Mem(EraseReg(fs, op.base), op.offset) else EraseReg(fs, op)
  }

  function Shape(fs: seq<Fixed>, inst: Instruction): Instruction {
    Instruction(inst.op, Erase(fs, inst.dst), Erase(fs, inst.src1), Erase(fs, inst.src2), Erase(fs, inst.src3))
  }

  /** A pinned register is a name for its physical register. */
  function ReadV(fs: seq<Fixed>, v: VReg, st: VState): int {
    if 0 <= v.id < |fs| && fs[v.id].pin.Some? then Get(st.pregs, SlotOf(fs[v.id].pin.value)) else Get(st.vregs, v.id)
  }

  function ReadRegV(fs: seq<Fixed>, op: Operand, st: VState): seq<int> {
    match op
    case V(v) => [ReadV(fs, v, st)]
    case P(p) => [Get(st.pregs, SlotOf(p))]
    case _ => []
  }

  function SourceV(fs: seq<Fixed>, op: Operand, st: VState): seq<int> {
    if op.Mem? then ReadRegV(fs, op.base, st) else ReadRegV(fs, op, st)
  }

  /** The destination is read only as a memory address. */
  function AddressV(fs: seq<Fixed>, op: Operand, st: VState): seq<int> {
    if op.Mem? then ReadRegV(fs, op.base, st) else []
  }

  function OperandsV(fs: seq<Fixed>, inst: Instruction, st: VState): seq<int> {
    AddressV(fs, inst.dst, st) + SourceV(fs, inst.src1, st) + SourceV(fs, inst.src2, st) + SourceV(fs, inst.src3, st)
  }

  function WriteV(fs: seq<Fixed>, op: Operand, st: VState, value: int): VState {
    match op
    case V(v) =>
      if 0 <= v.id < |fs| && fs[v.id].pin.Some?
      then st.(pregs := st.pregs[SlotOf(fs[v.id].pin.value) := value])
      else st.(vregs := st.vregs[v.id := value])
    case P(p) => st.(pregs := st.pregs[SlotOf(p) := value])
    case _ => st
  }

  function StepV(sem: Semantics, fs: seq<Fixed>, inst: Instruction, st: VState): VState {
    var (value, world) := sem(Shape(fs, inst), OperandsV(fs, inst, st), st.world);
    WriteV(fs, inst.dst, st, value).(world := world)
  }

  function RunV(sem: Semantics, fs: seq<Fixed>, insts: seq<Instruction>, st: VState): VState {
    if insts == [] then st else StepV(sem, fs, insts[|insts| - 1], RunV(sem, fs, insts[..|insts| - 1], st))
  }

  function ReadRegP(op: Operand, st: PState): seq<int> {
    if op.P? then [Get(st.pregs, SlotOf(op.p))] else []
  }

  function SourceP(op: Operand, st: PState): seq<int> {
    if op.Mem? then ReadRegP(op.base, st) else ReadRegP(op, st)
  }

  function AddressP(op: Operand, st: PState): seq<int> {
    if op.Mem? then ReadRegP(op.base, st) else []
  }

  function OperandsP(inst: Instruction, st: PState): seq<int> {
    AddressP(inst.dst, st) + SourceP(inst.src1, st) + SourceP(inst.src2, st) + SourceP(inst.src3, st)
  }

  function WriteP(op: Operand, st: PState, value: int): PState {
    if op.P? then st.(pregs := st.pregs[SlotOf(op.p) := value]) else st
  }

  /** Spill traffic moves whole 64-bit values; stack-pointer adjustments touch no modelled value. */
  function StepP(sem: Semantics, e: Emitted, st: PState): PState {
    match e
    case Body(inst) =>
      var (value, world) := sem(Shape([], inst), OperandsP(inst, st), st.world);
      WriteP(inst.dst, st, value).(world := world)
    case Store(slot, from) => st.(spill := st.spill[slot := Get(st.pregs, SlotOf(from))])
    case Reload(into, slot) => st.(pregs := st.pregs[SlotOf(into) := Get(st.spill, slot)])
    case Adjust(_) => st
  }

  function RunP(sem: Semantics, out: seq<Emitted>, st: PState): PState {
    if out == [] then st else StepP(sem, out[|out| - 1], RunP(sem, out[..|out| - 1], st))
  }

  lemma {:induction false} RunPAppend(sem: Semantics, a: seq<Emitted>, b: seq<Emitted>, st: PState)
    ensures RunP(sem, a + b, st) == RunP(sem, b, RunP(sem, a, st))
  {
    if b == [] {
      assert a + b == a;
    } else {
      var n := |b| - 1;
      assert (a + b)[..|a + b| - 1] == a + b[..n];
      RunPAppend(sem, a, b[..n], st);
    }
  }

  lemma RunVAppend(sem: Semantics, fs: seq<Fixed>, insts: seq<Instruction>, n: nat, st: VState)
    requires n < |insts|
    ensures RunV(sem, fs, insts[..n + 1], st) == StepV(sem, fs, insts[n], RunV(sem, fs, insts[..n], st))
  {
    assert insts[..n + 1][..n] == insts[..n];
  }

  /** Every virtual register the instruction names. */
  function Refs(inst: Instruction): seq<VReg> {
    Uses(inst) + (if inst.dst.V? then [inst.dst.v] else [])
  }

  function AllRefs(insts: seq<Instruction>): seq<VReg> {
    if insts == [] then [] else AllRefs(insts[..|insts| - 1]) + Refs(insts[|insts| - 1])
  }

  /** The first width id is declared with. */
  function FirstWidth(refs: seq<VReg>, id: int): Width {
    if refs == [] then Undefined
    else
      var w := FirstWidth(refs[..|refs| - 1], id);
      if w == Undefined && refs[|refs| - 1].id == id then refs[|refs| - 1].width else w
  }

  ghost predicate Mentions(inst: Instruction, id: int) {
    exists u :: u in Refs(inst) && u.id == id
  }

  /** last is the highest index of an instruction that names id, or -1. */
  ghost predicate LastMention(insts: seq<Instruction>, id: int, last: int) {
    && -1 <= last < |insts|
    && (last >= 0 ==> Mentions(insts[last], id))
    && (forall i :: last < i < |insts| ==> !Mentions(insts[i], id))
  }

  ghost predicate Defines(inst: Instruction, id: int) {
    inst.dst.V? && inst.dst.v.id == id
  }

  /** What a scan of the first i instructions and the first j references of the next has recorded. */
  ghost predicate Noted(insts: seq<Instruction>, i: nat, j: nat, table: seq<Fixed>)
    requires i < |insts| && j <= |Refs(insts[i])|
  {
    forall id :: 0 <= id < |table| ==>
      && table[id].width == FirstWidth(AllRefs(insts[..i]) + Refs(insts[i])[..j], id)
      && (if NamedIn(Refs(insts[i])[..j], id) then table[id].last == i else LastMention(insts[..i], id, table[id].last))
  }

  ghost predicate Scanned(insts: seq<Instruction>, i: nat, table: seq<Fixed>)
    requires i <= |insts|
  {
    forall id :: 0 <= id < |table| ==>
      table[id].width == FirstWidth(AllRefs(insts[..i]), id) && LastMention(insts[..i], id, table[id].last)
  }

  ghost predicate NamedIn(refs: seq<VReg>, id: int) {
    exists u :: u in refs && u.id == id
  }

  lemma NotedStart(insts: seq<Instruction>, i: nat, table: seq<Fixed>)
    requires i < |insts| && Scanned(insts, i, table)
    ensures Noted(insts, i, 0, table)
  {
    assert AllRefs(insts[..i]) + Refs(insts[i])[..0] == AllRefs(insts[..i]);
  }

  lemma NotedNext(insts: seq<Instruction>, i: nat, j: nat, table: seq<Fixed>, f: Fixed)
    requires i < |insts| && j < |Refs(insts[i])| && Noted(insts, i, j, table) && 0 <= Refs(insts[i])[j].id < |table|
    requires var u := Refs(insts[i])[j];
             f.last == i && f.width == if table[u.id].width == Undefined then u.width else table[u.id].width
    ensures Noted(insts, i, j + 1, table[Refs(insts[i])[j].id := f])
  {
    hide Refs, AllRefs, LastMention, FirstWidth;
    var pre, rs := AllRefs(insts[..i]), Refs(insts[i]);
    assert rs[..j + 1] == rs[..j] + [rs[j]];
    assert pre + rs[..j + 1] == (pre + rs[..j]) + [rs[j]];
    forall id | 0 <= id < |table|
      ensures FirstWidth(pre + rs[..j + 1], id) ==
                if FirstWidth(pre + rs[..j], id) == Undefined && rs[j].id == id then rs[j].width
                    else FirstWidth(pre + rs[..j], id)
    {
      FirstWidthNext(pre + rs[..j], rs[j], id);
    }
    assert forall id :: NamedIn(rs[..j + 1], id) <==> NamedIn(rs[..j], id) || rs[j].id == id by {
      assert rs[j] in rs[..j + 1];
    }
  }

  lemma FirstWidthNext(refs: seq<VReg>, u: VReg, id: int)
    ensures FirstWidth(refs + [u], id) ==
              if FirstWidth(refs, id) == Undefined && u.id == id then u.width else FirstWidth(refs, id)
  {
    assert (refs + [u])[..|refs|] == refs;
  }

  lemma NotedDone(insts: seq<Instruction>, i: nat, table: seq<Fixed>)
    requires i < |insts| && Noted(insts, i, |Refs(insts[i])|, table)
    ensures Scanned(insts, i + 1, table)
  {
    hide Refs, FirstWidth;
    var rs := Refs(insts[i]);
    assert rs[..|rs|] == rs;
    assert insts[..i + 1][..i] == insts[..i];
    forall id | 0 <= id < |table|
      ensures LastMention(insts[..i + 1], id, table[id].last)
    {
      assert Mentions(insts[i], id) <==> NamedIn(rs[..|rs|], id);
      if !NamedIn(rs[..|rs|], id) {
        assert LastMention(insts[..i], id, table[id].last);
      }
    }
  }
}
