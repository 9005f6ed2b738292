/** Variable-width bytecode with relative 16-bit branches, and a machine that runs one function of it.
    The effect of an instruction is an arbitrary function of its bytes without displacements and of the
    rest of the machine's state, so results hold whatever the opcodes compute. */
module Bytecode {

  type Byte = x: int | 0 <= x < 256

  const NOP: Byte := 0
  const UNREACHABLE: Byte := 1
  const BR: Byte := 5
  const BR_IF: Byte := 6
  const BR_TABLE: Byte := 7
  const RETURN: Byte := 10
  const RETURN_CALL: Byte := 11
  const THROW: Byte := 205

  /** A protected range [start, end) and where its exceptions land. */
  datatype Handler = Handler(start: int, end: int, catch: int, depth: int)

  datatype Option<T> = None | Some(value: T)

  /** The operand bytes of every opcode whose width is fixed. */
  function FixedOperands(op: Byte): nat {
    if op == BR || op == BR_IF || 16 <= op <= 18 || op == 22 || op == 29 || op == 30 || op == 180 || op == 181
       || op == 190 || op == 191 || op == 194 || op == 195 then 2
    else if 19 <= op <= 21 || op == 23 || op == 24 then 1
    else if op == 34 || op == 112 then 4
    else if op == 73 || op == 141 then 8
    else 0
  }

  /** A jump table holds a count byte, that many displacements and the default. */
  function Width(code: seq<Byte>, ip: int): (w: int)
    requires 0 <= ip < |code|
    ensures w > 0
  {
    if code[ip] == BR_TABLE then (if ip + 1 < |code| then 4 + 2 * code[ip + 1] else 4)
    else 1 + FixedOperands(code[ip])
  }

  /** s lists the offset of every instruction, in order, and closes with the length of the code. */
  ghost predicate Layout(code: seq<Byte>, s: seq<int>) {
    && |s| > 0 && s[0] == 0 && s[|s| - 1] == |code|
    && (forall j, k :: 0 <= j < k < |s| ==> s[j] < s[k])
    && (forall k :: 0 <= k < |s| - 1 ==> 0 <= s[k] < |code|)
    && (forall k :: 0 <= k < |s| - 1 ==> s[k] + Width(code, s[k]) == s[k + 1])
  }

  function IsBranch(op: Byte): bool {
    op == BR || op == BR_IF || op == BR_TABLE
  }

  /** How many displacements the instruction at ip carries. */
  function Arms(code: seq<Byte>, ip: int): int
    requires 0 <= ip < |code|
  {
    if code[ip] == BR || code[ip] == BR_IF then 1
    else if code[ip] == BR_TABLE && ip + 1 < |code| then 1 + (code[ip + 1] as int)
    else 0
  }

  /** Where displacement k is stored. */
  function ArmAt(code: seq<Byte>, ip: int, k: int): int
    requires 0 <= ip < |code|
  {
    ip + (if code[ip] == BR_TABLE then 2 + 2 * k else 1)
  }

  function I16(lo: Byte, hi: Byte): int {
    if lo + 256 * hi < 0x8000 then lo + 256 * hi else lo + 256 * hi - 0x10000
  }

  function Low(v: int): Byte {
    v % 256
  }

  function High(v: int): Byte {
    v / 256 % 256
  }

  lemma I16Reads(v: int)
    ensures I16(Low(v), High(v)) == v <==> -0x8000 <= v < 0x8000
  {
    assert Low(v) + 256 * High(v) == v % 0x10000;
  }

  function Disp(code: seq<Byte>, ip: int, k: int): int
    requires 0 <= ip < |code|
  {
    var at := ArmAt(code, ip, k);
    if 0 <= at && at + 1 < |code| then I16(code[at], code[at + 1]) else 0
  }

  /** Displacements count from the end of the branch. */
  function Target(code: seq<Byte>, ip: int, k: int): int
    requires 0 <= ip < |code|
  {
    ip + Width(code, ip) + Disp(code, ip, k)
  }

  /** The instruction without its displacements. */
  function Core(code: seq<Byte>, ip: int): seq<Byte>
    requires 0 <= ip < |code|
  {
    if code[ip] == BR || code[ip] == BR_IF then [code[ip]]
    else if code[ip] == BR_TABLE then (if ip + 1 < |code| then [code[ip], code[ip + 1]] else [code[ip]])
    else if ip + Width(code, ip) <= |code| then code[ip..ip + Width(code, ip)]
    else [code[ip]]
  }

  /** Operand stack, locals, and everything else as one opaque value. */
  datatype State = State(stack: seq<int>, locals: seq<int>, world: int)

  datatype Outcome = Next(state: State) | Jump(arm: int, state: State) | Stop(state: State) | Raise(state: State)

  type Semantics = (seq<Byte>, State) -> Outcome

  /** What catching at a depth makes of the state. */
  type Land = (int, State) -> State

  predicate Terminator(op: Byte) {
    op == UNREACHABLE || op == RETURN || op == RETURN_CALL || op == THROW
  }

  /** What every reading of the opcodes shares: no-ops do nothing, only branches jump, and what cannot
      fall through does not. */
  ghost predicate Sensible(sem: Semantics) {
    && (forall st :: sem([NOP], st) == Next(st))
    && (forall core, st ::
       core != [] && sem(core, st).Next? ==> !Terminator(core[0]) && core[0] != BR && core[0] != BR_TABLE)
    && (forall core, st :: core != [] && sem(core, st).Jump? ==>
          || ((core[0] == BR || core[0] == BR_IF) && sem(core, st).arm == 0)
          || (core[0] == BR_TABLE && |core| == 2 && 0 <= sem(core, st).arm <= core[1]))
  }

  /** The first entry that covers ip. */
  function HandlerFor(hs: seq<Handler>, ip: int): Option<Handler> {
    if hs == [] then None
    else if hs[0].start <= ip < hs[0].end then Some(hs[0])
    else HandlerFor(hs[1..], ip)
  }

  datatype Config = At(ip: int, state: State) | Halted(state: State) | Escaped(state: State)

  /** One step. `land` truncates the stack to a handler's depth and pushes the exception. */
  function Step(sem: Semantics, land: Land, code: seq<Byte>, hs: seq<Handler>, c: Config): Config {
    if c.At? && 0 <= c.ip < |code| then
      match sem(Core(code, c.ip), c.state)
      case Next(st) => At(c.ip + Width(code, c.ip), st)
      case Jump(arm, st) => At(Target(code, c.ip, arm), st)
      case Stop(st) => Halted(st)
      case Raise(st) =>
        (match HandlerFor(hs, c.ip)
         case None => Escaped(st)
         case Some(h) => At(h.catch, land(h.depth, st)))
    else c
  }

  function Run(sem: Semantics, land: Land, code: seq<Byte>, hs: seq<Handler>, c: Config, n: nat): Config {
    if n == 0 then c else Step(sem, land, code, hs, Run(sem, land, code, hs, c, n - 1))
  }

  /** Nothing more happens: the program halted, escaped or reached the end of its code. */
  ghost predicate Finished(code: seq<Byte>, x: Config) {
    !x.At? || x.ip == |code|
  }

  lemma {:induction false} FinishedStays(sem: Semantics, land: Land, code: seq<Byte>, hs: seq<Handler>, c: Config,
                                         n: nat, m: nat)
    requires n <= m && Finished(code, Run(sem, land, code, hs, c, n))
    ensures Run(sem, land, code, hs, c, m) == Run(sem, land, code, hs, c, n)
    decreases m
  {
    if n < m {
      FinishedStays(sem, land, code, hs, c, n, m - 1);
    }
  }

  lemma RoundsGrow(b: nat, b': nat, size: nat)
    ensures b' > 0 ==> (b + b') * (size + 1) >= b * (size + 1) + size + 1
  {
    if b' > 0 {
      assert (b + b') * (size + 1) == b * (size + 1) + b' * (size + 1);
      RoundsAtLeast(b', size + 1);
    }
  }

  lemma {:induction false} RoundsAtLeast(n: nat, w: nat)
    requires n > 0
    ensures n * w >= w
  {
  }

  lemma RoundsPass(b: nat, m: nat, size: nat, ip: nat)
    requires ip <= size
    ensures b <= m ==> b * (size + 1) + ip < (m + 1) * (size + 1)
  {
    if b <= m {
      assert b * (size + 1) <= m * (size + 1);
      assert (m + 1) * (size + 1) == m * (size + 1) + size + 1;
    }
  }

  lemma CoreHead(code: seq<Byte>, ip: int)
    requires 0 <= ip < |code|
    ensures Core(code, ip) != [] && Core(code, ip)[0] == code[ip]
  {
  }

  lemma LayoutNext(code: seq<Byte>, s: seq<int>, k: int)
    requires Layout(code, s) && 0 <= k < |s| - 1
    ensures 0 <= s[k] < |code| && s[k] + Width(code, s[k]) == s[k + 1] <= |code|
  {
    assert k + 1 == |s| - 1 || s[k + 1] < s[|s| - 1];
  }
}
