/** Why dead-code elimination preserves runs: the compacted body takes the same steps as the original,
    with instruction offsets related by compaction and no-ops taking no step at all. */
module DceRuns {
  import opened Bytecode
  import opened Blocks
  import opened Compaction
  import opened Dce

  /** Where the instruction at offset t, or the end of the code, went. */
  ghost function Where(c: seq<Byte>, s: seq<int>, dead: set<int>, t: int): int
    requires Layout(c, s)
  {
    if t in s then
      var m :| 0 <= m < |s| && s[m] == t;
      Pos(c, s, dead, m)
    else -1
  }

  lemma WhereIs(c: seq<Byte>, s: seq<int>, dead: set<int>, m: int)
    requires Layout(c, s) && 0 <= m < |s|
    ensures Where(c, s, dead, s[m]) == Pos(c, s, dead, m)
  {
    hide Pos;
    assert forall l :: 0 <= l < |s| && s[l] == s[m] ==> l == m;
  }

  ghost function MovedHandler(c: seq<Byte>, s: seq<int>, dead: set<int>, h: Handler): Handler
    requires Layout(c, s)
  {
    Handler(Where(c, s, dead, h.start), Where(c, s, dead, h.end), Where(c, s, dead, h.catch), h.depth)
  }

  /** What the pass leaves: the survivors in order, branches and handlers moved with their targets. */
  ghost predicate Compacted(c: seq<Byte>, hs: seq<Handler>, s: seq<int>, dead: set<int>, c': seq<Byte>,
                            hs': seq<Handler>)
    requires Layout(c, s)
  {
    && |c'| == Pos(c, s, dead, |s| - 1)
    && (forall k :: Kept(c, s, dead, k) ==> Survives(c, s, dead, c', k))
    && |hs'| == |hs| && (forall n :: 0 <= n < |hs| ==> hs'[n] == MovedHandler(c, s, dead, hs[n]))
  }

  ghost predicate Survives(c: seq<Byte>, s: seq<int>, dead: set<int>, c': seq<Byte>, k: int)
    requires Layout(c, s) && 0 <= k < |s| - 1
  {
    && InstrAt(c, s[k], c', Pos(c, s, dead, k))
    && forall i :: 0 <= i < Arms(c, s[k]) ==> Target(c', Pos(c, s, dead, k), i) == Where(c, s, dead, Target(c, s[k], i))
  }

  ghost function MovedConfig(c: seq<Byte>, s: seq<int>, dead: set<int>, x: Config): Config
    requires Layout(c, s)
  {
    if x.At? then Config.At(Where(c, s, dead, x.ip), x.state) else x
  }

  /** Around a surviving instruction, compaction keeps the order of offsets. */
  lemma OrderKept(c: seq<Byte>, s: seq<int>, dead: set<int>, k: int, t: int)
    requires Layout(c, s) && Kept(c, s, dead, k) && t in s
    ensures t <= s[k] <==> Where(c, s, dead, t) <= Pos(c, s, dead, k)
    ensures s[k] < t <==> Pos(c, s, dead, k) < Where(c, s, dead, t)
  {
    var m :| 0 <= m < |s| && s[m] == t;
    WhereIs(c, s, dead, m);
    Ordered(c, s, m, k);
    Ordered(c, s, k, m);
    PosBounds(c, s, dead, k);
    if m <= k {
      PosMonotone(c, s, dead, m, k);
    } else {
      PosMonotone(c, s, dead, k + 1, m);
    }
  }

  /** A surviving instruction is inside a range after the pass exactly when it was before. */
  lemma {:induction false} SameHandler(c: seq<Byte>, hs: seq<Handler>, s: seq<int>, dead: set<int>, hs': seq<Handler>,
                                       k: int)
    requires Layout(c, s) && Kept(c, s, dead, k)
    requires forall h :: h in hs ==> h.start in s && h.end in s && h.catch in s
    requires |hs'| == |hs| && forall n :: 0 <= n < |hs| ==> hs'[n] == MovedHandler(c, s, dead, hs[n])
    ensures HandlerFor(hs', Pos(c, s, dead, k)) ==
              match HandlerFor(hs, s[k]) case None => None case Some(h) => Some(MovedHandler(c, s, dead, h))
    ensures HandlerFor(hs, s[k]).Some? ==> HandlerFor(hs, s[k]).value in hs
  {
    hide Pos, Where, Kept, Layout;
    InstrsInside(c, s);
    KeptRange(c, s, dead, k);
    if hs != [] {
      assert hs[0] in hs;
      OrderKept(c, s, dead, k, hs[0].start);
      OrderKept(c, s, dead, k, hs[0].end);
      SameHandler(c, hs[1..], s, dead, hs'[1..], k);
    }
  }

  lemma KeptRange(c: seq<Byte>, s: seq<int>, dead: set<int>, k: int)
    requires Layout(c, s) && Kept(c, s, dead, k)
    ensures 0 <= k < |s| - 1
  {
  }

  /** A surviving instruction takes the same step in both bodies. */
  lemma KeptStep(sem: Semantics, land: Land, c: seq<Byte>, hs: seq<Handler>, s: seq<int>, dead: set<int>,
                 c': seq<Byte>, hs': seq<Handler>, k: int, st: State)
    requires Layout(c, s) && Targeted(c, hs, s) && Compacted(c, hs, s, dead, c', hs') && Kept(c, s, dead, k)
    requires Sensible(sem)
    ensures 0 <= Pos(c, s, dead, k) < |c'|
    ensures Step(sem, land, c', hs', Config.At(Pos(c, s, dead, k), st)) ==
              MovedConfig(c, s, dead, Step(sem, land, c, hs, Config.At(s[k], st)))
  {
    hide Pos, Where, Target, Core, Width, HandlerFor, InstrAt;
    LayoutNext(c, s, k);
    PosBounds(c, s, dead, k);
    var p := Pos(c, s, dead, k);
    assert Survives(c, s, dead, c', k);
    InstrInside(c, s[k], c', p);
    InstrSame(c, s[k], c', p);
    CoreHead(c, s[k]);
    CoreArms(c, s[k]);
    WhereIs(c, s, dead, k + 1);
    SameHandler(c, hs, s, dead, hs', k);
  }

  lemma InstrInside(c: seq<Byte>, ip: int, b: seq<Byte>, at: int)
    requires 0 <= ip < |c| && InstrAt(c, ip, b, at)
    ensures 0 <= at < |b|
  {
  }

  /** A no-op leaves the state alone, and its successor stands where it did. */
  lemma NopStep(sem: Semantics, land: Land, c: seq<Byte>, hs: seq<Handler>, s: seq<int>, dead: set<int>, k: int,
                st: State)
    requires Layout(c, s) && Sensible(sem) && 0 <= k < |s| - 1 && c[s[k]] == NOP
    ensures MovedConfig(c, s, dead, Step(sem, land, c, hs, Config.At(s[k], st))) == Config.At(Pos(c, s, dead, k), st)
    ensures Step(sem, land, c, hs, Config.At(s[k], st)) == Config.At(s[k + 1], st) && s[k] < s[k + 1] <= |c|
  {
    LayoutNext(c, s, k);
    assert Core(c, s[k]) == [NOP];
    WhereIs(c, s, dead, k + 1);
  }

  /** Some block that is not dead holds ip. */
  ghost predicate Live(blocks: seq<Block>, hs: seq<Handler>, ip: int) {
    exists j :: InBlock(blocks, j, ip) && !DeadBlock(blocks, hs, j)
  }

  lemma OneBlock(c: seq<Byte>, hs: seq<Handler>, s: seq<int>, blocks: seq<Block>, i: int, j: int, ip: int)
    requires Layout(c, s) && IsCfg(c, hs, s, blocks) && InBlock(blocks, i, ip) && InBlock(blocks, j, ip)
    ensures i == j
  {
    hide LinkedTo, Flows, Leader;
    var starts :| CfgBy(c, hs, s, blocks, starts);
    BlockSpan(c, starts, blocks, i);
    BlockSpan(c, starts, blocks, j);
    EndsBefore(starts, |c|);
  }

  lemma BlockSpan(c: seq<Byte>, starts: seq<int>, blocks: seq<Block>, j: int)
    requires LinkedTo(c, starts, |starts|, {}, blocks) && 0 <= j < |blocks|
    ensures |starts| == |blocks| && blocks[j].start == starts[j] && blocks[j].end == EndOf(starts, |c|, j)
  {
  }

  lemma LiveIsKept(c: seq<Byte>, hs: seq<Handler>, s: seq<int>, blocks: seq<Block>, ip: int)
    requires Layout(c, s) && IsCfg(c, hs, s, blocks) && Live(blocks, hs, ip)
    ensures ip !in DeadBytes(c, blocks, hs)
  {
    hide IsCfg;
    var j :| InBlock(blocks, j, ip) && !DeadBlock(blocks, hs, j);
    if DeadAt(blocks, hs, |blocks|, ip) {
      var i :| i < |blocks| && DeadBlock(blocks, hs, i) && InBlock(blocks, i, ip);
      OneBlock(c, hs, s, blocks, i, j, ip);
    }
  }

  /** A block that is not dead starts at x. */
  ghost predicate Spared(blocks: seq<Block>, hs: seq<Handler>, x: int) {
    exists i :: 0 <= i < |blocks| && blocks[i].start == x && !DeadBlock(blocks, hs, i)
  }

  /** Every live jump table that does not end its block leads only to blocks that something else keeps alive. */
  ghost predicate TablesSpared(c: seq<Byte>, hs: seq<Handler>, s: seq<int>, blocks: seq<Block>)
    requires Layout(c, s)
  {
    forall k, a ::
      TableInside(c, hs, s, k) && Live(blocks, hs, s[k]) && 0 <= a < Arms(c, s[k]) && Target(c, s[k], a) != |c| ==>
        Spared(blocks, hs, Target(c, s[k], a))
  }

  /** Everything a live instruction can jump to survives, the end of the code aside. */
  ghost predicate TargetsKept(c: seq<Byte>, hs: seq<Handler>, s: seq<int>, blocks: seq<Block>)
    requires Layout(c, s)
  {
    var dead := DeadBytes(c, blocks, hs);
    forall k, a :: 0 <= k < |s| - 1 && s[k] !in dead && 0 <= a < Arms(c, s[k]) && Target(c, s[k], a) != |c| ==>
      Target(c, s[k], a) !in dead
  }

  /** Every instruction is in a block, and is deleted with its block or not at all. */
  lemma BlockHolds(c: seq<Byte>, hs: seq<Handler>, s: seq<int>, blocks: seq<Block>, x: int) returns (j: int)
    requires Layout(c, s) && IsCfg(c, hs, s, blocks) && 0 <= x < |c|
    ensures InBlock(blocks, j, x)
    ensures Live(blocks, hs, x) <==> x !in DeadBytes(c, blocks, hs)
  {
    hide Flows, Leader, DeadBlock;
    var starts :| CfgBy(c, hs, s, blocks, starts);
    j := 0;
    BlockSpan(c, starts, blocks, j);
    while j + 1 < |starts| && starts[j + 1] <= x
      invariant 0 <= j < |starts| && starts[j] <= x
    {
      j := j + 1;
    }
    BlockSpan(c, starts, blocks, j);
    if Live(blocks, hs, x) {
      LiveIsKept(c, hs, s, blocks, x);
    } else {
      assert InBlock(blocks, j, x) && DeadBlock(blocks, hs, j);
      assert DeadAt(blocks, hs, |blocks|, x);
    }
  }

  /** A block starts at every target inside the code; it is deleted exactly when the block is dead. */
  lemma TargetStarts(c: seq<Byte>, hs: seq<Handler>, s: seq<int>, blocks: seq<Block>, k: int, a: int)
    requires Layout(c, s) && IsCfg(c, hs, s, blocks) && InRange(c, s, |s| - 1)
    requires 0 <= k < |s| - 1 && 0 <= a < Arms(c, s[k]) && Target(c, s[k], a) != |c|
    ensures Spared(blocks, hs, Target(c, s[k], a)) <==> Target(c, s[k], a) !in DeadBytes(c, blocks, hs)
  {
    hide Flows, DeadBlock, Leads, Bounds, Target;
    InstrsInside(c, s);
    var t := Target(c, s[k], a);
    assert 0 <= t < |c|;
    var starts :| CfgBy(c, hs, s, blocks, starts);
    TargetLeads(c, s, k, a);
    assert Leader(c, hs, s, t);
    assert t in starts;
    var i :| 0 <= i < |starts| && starts[i] == t;
    BlockSpan(c, starts, blocks, i);
    NonEmpty(c, hs, s, blocks, i);
    assert InBlock(blocks, i, t);
    if Spared(blocks, hs, t) {
      SparedLives(c, hs, s, blocks, t);
      LiveIsKept(c, hs, s, blocks, t);
    } else {
      assert DeadBlock(blocks, hs, i);
      assert DeadAt(blocks, hs, |blocks|, t);
    }
  }

  lemma SparedLives(c: seq<Byte>, hs: seq<Handler>, s: seq<int>, blocks: seq<Block>, x: int)
    requires Layout(c, s) && IsCfg(c, hs, s, blocks) && Spared(blocks, hs, x) && x < |c|
    ensures Live(blocks, hs, x)
  {
    hide IsCfg, DeadBlock;
    var i :| 0 <= i < |blocks| && blocks[i].start == x && !DeadBlock(blocks, hs, i);
    NonEmpty(c, hs, s, blocks, i);
    assert InBlock(blocks, i, x);
  }

  /** A branch that ends its block keeps every block it leads to alive. */
  lemma BranchSpares(c: seq<Byte>, hs: seq<Handler>, s: seq<int>, blocks: seq<Block>, j: int, k: int, a: int)
    requires Layout(c, s) && Targeted(c, hs, s) && InRange(c, s, |s| - 1) && IsCfg(c, hs, s, blocks)
    requires !TableInside(c, hs, s, k)
    requires 0 <= k < |s| - 1 && InBlock(blocks, j, s[k]) && 0 <= a < Arms(c, s[k]) && Target(c, s[k], a) != |c|
    ensures Spared(blocks, hs, Target(c, s[k], a))
  {
    hide Targeted, TableInside, LinkedTo, StartsOk, Target, Layout;
    InstrsInside(c, s);
    var starts :| CfgBy(c, hs, s, blocks, starts);
    JumpEnds(c, hs, s, blocks, starts, j, k, a);
    var i :| 0 <= i < |blocks| && blocks[i].start == Target(c, s[k], a) && j in blocks[i].preds;
    assert !DeadBlock(blocks, hs, i);
  }

  /** Exactly when nothing that a live instruction jumps to is deleted. */
  lemma TargetsKeptIff(c: seq<Byte>, hs: seq<Handler>, s: seq<int>, blocks: seq<Block>)
    requires Layout(c, s) && Targeted(c, hs, s) && InRange(c, s, |s| - 1) && IsCfg(c, hs, s, blocks)
    ensures TargetsKept(c, hs, s, blocks) <==> TablesSpared(c, hs, s, blocks)
  {
    hide Layout, Targeted, InRange, IsCfg, TableInside, Target, Arms, DeadAt, Spared;
    InstrsInside(c, s);
    forall k, a | 0 <= k < |s| - 1 && 0 <= a < Arms(c, s[k]) && Target(c, s[k], a) != |c|
      ensures Spared(blocks, hs, Target(c, s[k], a)) <==> Target(c, s[k], a) !in DeadBytes(c, blocks, hs)
      ensures Live(blocks, hs, s[k]) <==> s[k] !in DeadBytes(c, blocks, hs)
      ensures !TableInside(c, hs, s, k) ==> Spared(blocks, hs, Target(c, s[k], a))
    {
      TargetStarts(c, hs, s, blocks, k, a);
      var j := BlockHolds(c, hs, s, blocks, s[k]);
      if !TableInside(c, hs, s, k) {
        BranchSpares(c, hs, s, blocks, j, k, a);
      }
    }
    InsideIs(c, hs, s);
  }

  lemma InsideIs(c: seq<Byte>, hs: seq<Handler>, s: seq<int>)
    requires Layout(c, s)
    ensures forall k :: TableInside(c, hs, s, k) ==> 0 <= k < |s| - 1 && 0 <= s[k] < |c| && c[s[k]] == BR_TABLE
  {
    hide Leader;
  }

  /** A live instruction leads only to live ones. */
  lemma LiveStep(sem: Semantics, land: Land, c: seq<Byte>, hs: seq<Handler>, s: seq<int>, blocks: seq<Block>, k: int,
                 st: State)
    requires Layout(c, s) && Targeted(c, hs, s) && InRange(c, s, |s| - 1) && TablesSpared(c, hs, s, blocks)
    requires IsCfg(c, hs, s, blocks) && Sensible(sem) && 0 <= k < |s| - 1 && Live(blocks, hs, s[k])
    ensures var x := Step(sem, land, c, hs, Config.At(s[k], st));
            x.At? ==> x.ip in s && (x.ip == |c| || Live(blocks, hs, x.ip))
  {
    hide Layout, Targeted, InRange, TablesSpared, TableInside, IsCfg, Sensible, Step, DeadBlock;
    InstrsInside(c, s);
    if TableInside(c, hs, s, k) {
      TableStep(sem, land, c, hs, s, blocks, k, st);
    } else {
      var j :| InBlock(blocks, j, s[k]) && !DeadBlock(blocks, hs, j);
      StepFollowsEdges(sem, land, c, hs, s, blocks, j, k, st);
      var x := Step(sem, land, c, hs, Config.At(s[k], st));
      if x.At? && x.ip != |c| {
        EndOfCode(c, s, x.ip);
        if !(InBlock(blocks, j, x.ip) && x.ip > s[k]) {
          var i :| 0 <= i < |blocks| && blocks[i].start == x.ip && (j in blocks[i].preds || Catches(hs, x.ip));
          ReachedLives(blocks, hs, j, i);
          SparedLives(c, hs, s, blocks, x.ip);
        }
      }
    }
  }

  lemma ReachedLives(blocks: seq<Block>, hs: seq<Handler>, j: int, i: int)
    requires 0 <= i < |blocks| && (j in blocks[i].preds || Catches(hs, blocks[i].start))
    ensures Spared(blocks, hs, blocks[i].start)
  {
    assert !DeadBlock(blocks, hs, i);
  }

  /** A live jump table that does not end its block. */
  lemma TableStep(sem: Semantics, land: Land, c: seq<Byte>, hs: seq<Handler>, s: seq<int>, blocks: seq<Block>, k: int,
                  st: State)
    requires Layout(c, s) && Targeted(c, hs, s) && InRange(c, s, |s| - 1) && TablesSpared(c, hs, s, blocks)
    requires IsCfg(c, hs, s, blocks) && Sensible(sem) && TableInside(c, hs, s, k) && Live(blocks, hs, s[k])
    ensures var x := Step(sem, land, c, hs, Config.At(s[k], st));
            x.At? ==> x.ip in s && (x.ip == |c| || Live(blocks, hs, x.ip))
  {
    hide Layout, Targeted, InRange, TableInside, IsCfg, Core, Target, HandlerFor, Live;
    InsideIs(c, hs, s);
    CoreHead(c, s[k]);
    match sem(Core(c, s[k]), st)
    case Next(_) =>
    case Stop(_) =>
    case Jump(a, _) =>
      CoreArms(c, s[k]);
      TableTarget(c, hs, s, k, a);
      if Target(c, s[k], a) != |c| {
        SparedLives(c, hs, s, blocks, Target(c, s[k], a));
      }
    case Raise(_) =>
      HandlerIn(hs, s[k]);
      if HandlerFor(hs, s[k]).Some? {
        CatchLives(c, hs, s, blocks, HandlerFor(hs, s[k]).value);
      }
  }

  lemma TableTarget(c: seq<Byte>, hs: seq<Handler>, s: seq<int>, k: int, a: int)
    requires Layout(c, s) && Targeted(c, hs, s) && InRange(c, s, |s| - 1) && 0 <= k < |s| - 1 && 0 <= s[k] < |c|
    requires 0 <= a < Arms(c, s[k])
    ensures Target(c, s[k], a) in s && 0 <= Target(c, s[k], a) <= |c|
  {
    hide Target;
  }

  lemma CatchLives(c: seq<Byte>, hs: seq<Handler>, s: seq<int>, blocks: seq<Block>, h: Handler)
    requires Layout(c, s) && Targeted(c, hs, s) && IsCfg(c, hs, s, blocks) && h in hs
    ensures h.catch in s && (h.catch == |c| || Live(blocks, hs, h.catch))
  {
    hide Leads, Flows, Live;
    assert Catches(hs, h.catch);
    assert h.catch in s;
    if h.catch != |c| {
      var starts :| CfgBy(c, hs, s, blocks, starts);
      EndOfCode(c, s, h.catch);
      assert Leader(c, hs, s, h.catch);
      assert h.catch in starts;
      var i :| 0 <= i < |starts| && starts[i] == h.catch;
      BlockSpan(c, starts, blocks, i);
      ReachedLives(blocks, hs, -1, i);
      SparedLives(c, hs, s, blocks, h.catch);
    }
  }

  lemma EndOfCode(c: seq<Byte>, s: seq<int>, x: int)
    requires Layout(c, s) && x in s && x != |c|
    ensures 0 <= x < |c|
  {
  }

  lemma NonEmpty(c: seq<Byte>, hs: seq<Handler>, s: seq<int>, blocks: seq<Block>, i: int)
    requires Layout(c, s) && IsCfg(c, hs, s, blocks) && 0 <= i < |blocks| && blocks[i].start < |c|
    ensures blocks[i].start < blocks[i].end
  {
    hide Flows, Leader;
    var starts :| CfgBy(c, hs, s, blocks, starts);
  }

  /** The run never executes `unreachable`. */
  ghost predicate AvoidsTraps(sem: Semantics, land: Land, c: seq<Byte>, hs: seq<Handler>, x: Config, n: nat) {
    forall i: nat :: i < n ==> var y := Run(sem, land, c, hs, x, i); y.At? && 0 <= y.ip < |c| ==> c[y.ip] != UNREACHABLE
  }

  /** Every run of the original from its entry is, step by step, a run of the compacted body. */
  lemma {:induction false} RunsPreserved(sem: Semantics, land: Land, c: seq<Byte>, hs: seq<Handler>, s: seq<int>,
                                         blocks: seq<Block>, c': seq<Byte>, hs': seq<Handler>, st: State, n: nat)
                                         returns (m: nat)
    requires Layout(c, s) && Targeted(c, hs, s) && InRange(c, s, |s| - 1) && TablesSpared(c, hs, s, blocks)
    requires IsCfg(c, hs, s, blocks) && Sensible(sem)
    requires Compacted(c, hs, s, DeadBytes(c, blocks, hs), c', hs')
    requires AvoidsTraps(sem, land, c, hs, Config.At(0, st), n)
    ensures m <= n
    ensures Run(sem, land, c', hs', Config.At(0, st), m) ==
              MovedConfig(c, s, DeadBytes(c, blocks, hs), Run(sem, land, c, hs, Config.At(0, st), n))
    ensures var x := Run(sem, land, c, hs, Config.At(0, st), n);
            x.At? ==> x.ip in s && (x.ip == |c| || Live(blocks, hs, x.ip))
    ensures m > 0 ==> !Finished(c', Run(sem, land, c', hs', Config.At(0, st), m - 1))
    ensures var x := Run(sem, land, c, hs, Config.At(0, st), n);
            Finished(c, x) || (0 <= x.ip <= |c| && m * (|c| + 1) + x.ip >= n)
  {
    hide Layout, Targeted, InRange, TablesSpared, IsCfg, Sensible, Step, Compacted, Live, MovedConfig, Pos, Where;
    var dead := DeadBytes(c, blocks, hs);
    if n == 0 {
      EntryLive(c, hs, s, blocks, dead, st);
      return 0;
    }
    m := RunsPreserved(sem, land, c, hs, s, blocks, c', hs', st, n - 1);
    var x := Run(sem, land, c, hs, Config.At(0, st), n - 1);
    var took := OneStep(sem, land, c, hs, s, blocks, c', hs', x);
    if took {
      RoundsGrow(m, 1, |c|);
      m := m + 1;
    }
  }

  lemma EntryLive(c: seq<Byte>, hs: seq<Handler>, s: seq<int>, blocks: seq<Block>, dead: set<int>, st: State)
    requires Layout(c, s) && IsCfg(c, hs, s, blocks)
    ensures MovedConfig(c, s, dead, Config.At(0, st)) == Config.At(0, st)
    ensures 0 in s && (0 == |c| || Live(blocks, hs, 0))
  {
    hide Flows, Leader;
    WhereIs(c, s, dead, 0);
    var starts :| CfgBy(c, hs, s, blocks, starts);
    if |c| > 0 {
      BlockSpan(c, starts, blocks, 0);
      NonEmpty(c, hs, s, blocks, 0);
      assert InBlock(blocks, 0, 0) && !DeadBlock(blocks, hs, 0);
    }
  }

  /** One step of the original is one or no step of the compacted body. */
  lemma OneStep(sem: Semantics, land: Land, c: seq<Byte>, hs: seq<Handler>, s: seq<int>, blocks: seq<Block>,
                c': seq<Byte>, hs': seq<Handler>, x: Config) returns (took: bool)
    requires Layout(c, s) && Targeted(c, hs, s) && InRange(c, s, |s| - 1) && TablesSpared(c, hs, s, blocks)
    requires IsCfg(c, hs, s, blocks) && Sensible(sem)
    requires Compacted(c, hs, s, DeadBytes(c, blocks, hs), c', hs')
    requires x.At? ==>
      x.ip in s && (x.ip == |c| || (Live(blocks, hs, x.ip) && (0 <= x.ip < |c| ==> c[x.ip] != UNREACHABLE)))
    ensures var dead, x' := DeadBytes(c, blocks, hs), Step(sem, land, c, hs, x);
            && (x'.At? ==> x'.ip in s && (x'.ip == |c| || Live(blocks, hs, x'.ip)))
            && MovedConfig(c, s, dead, x') ==
                 (if took then Step(sem, land, c', hs', MovedConfig(c, s, dead, x)) else MovedConfig(c, s, dead, x))
            && (took ==> !Finished(c', MovedConfig(c, s, dead, x)))
            && (Finished(c, x) ==> x' == x)
            && (!Finished(c, x) ==> 0 <= x.ip < |c| && (!took ==> x'.At? && x.ip < x'.ip <= |c|))
            && (x'.At? ==> 0 <= x'.ip <= |c|)
  {
    hide Targeted, InRange, TablesSpared, IsCfg, Sensible, Compacted, Live, Pos, Where, Core, Width, Target, HandlerFor;
    var dead := DeadBytes(c, blocks, hs);
    took := false;
    if x.At? && x.ip != |c| {
      var k :| 0 <= k < |s| && s[k] == x.ip;
      EndOfCode(c, s, x.ip);
      WhereIs(c, s, dead, k);
      LiveStep(sem, land, c, hs, s, blocks, k, x.state);
      LiveIsKept(c, hs, s, blocks, x.ip);
      if c[s[k]] == NOP {
        NopStep(sem, land, c, hs, s, dead, k, x.state);
      } else {
        KeptStep(sem, land, c, hs, s, dead, c', hs', k, x.state);
        took := true;
      }
    }
  }

  /** What the compacted body ends with the original ends with, when it never executes `unreachable`. */
  lemma ResultsReflected(sem: Semantics, land: Land, c: seq<Byte>, hs: seq<Handler>, s: seq<int>, blocks: seq<Block>,
                         c': seq<Byte>, hs': seq<Handler>, st: State, m: nat) returns (n: nat)
    requires Layout(c, s) && Targeted(c, hs, s) && InRange(c, s, |s| - 1) && TablesSpared(c, hs, s, blocks)
    requires IsCfg(c, hs, s, blocks) && Sensible(sem)
    requires Compacted(c, hs, s, DeadBytes(c, blocks, hs), c', hs')
    requires forall i: nat :: AvoidsTraps(sem, land, c, hs, Config.At(0, st), i)
    requires Finished(c', Run(sem, land, c', hs', Config.At(0, st), m))
    ensures Finished(c, Run(sem, land, c, hs, Config.At(0, st), n))
    ensures Run(sem, land, c', hs', Config.At(0, st), m) ==
              MovedConfig(c, s, DeadBytes(c, blocks, hs), Run(sem, land, c, hs, Config.At(0, st), n))
  {
    hide Layout, Targeted, InRange, TablesSpared, IsCfg, Sensible, Step, Compacted, Live, AvoidsTraps, DeadBytes, Run,
         MovedConfig;
    var start := Config.At(0, st);
    n := (m + 1) * (|c| + 1);
    var k := RunsPreserved(sem, land, c, hs, s, blocks, c', hs', st, n);
    var x := Run(sem, land, c, hs, start, n);
    if !Finished(c, x) {
      RoundsPass(k, m, |c|, x.ip);
      FinishedStays(sem, land, c', hs', start, m, k - 1);
    }
    FinishedMoves(c, hs, s, DeadBytes(c, blocks, hs), c', hs', x);
    if k <= m {
      FinishedStays(sem, land, c', hs', start, k, m);
    } else {
      FinishedStays(sem, land, c', hs', start, m, k);
    }
  }

  lemma FinishedMoves(c: seq<Byte>, hs: seq<Handler>, s: seq<int>, dead: set<int>, c': seq<Byte>, hs': seq<Handler>,
                      x: Config)
    requires Layout(c, s) && Compacted(c, hs, s, dead, c', hs') && Finished(c, x)
    ensures Finished(c', MovedConfig(c, s, dead, x))
  {
    hide Pos, Where, Survives;
    WhereIs(c, s, dead, |s| - 1);
  }
}
