/** When edits that are right locally make a right program: the edited body simulates the original. */
module EditRuns {
  import Blocks
  import opened Bytecode
  import opened Compaction
  import opened Edits
  import opened Splicer

  /** Straight-line execution from `at` up to `to`. */
  ghost function Flow(sem: Semantics, code: seq<Byte>, at: int, to: int, st: State): Outcome
    decreases to - at
  {
    if !(0 <= at < |code|) || at >= to then Next(st)
    else match sem(Core(code, at), st)
         case Next(st') => Flow(sem, code, at + Width(code, at), to, st')
         case other => other
  }

  /** Control at old offset x with the first i edits behind it. `rel` relates the two programs' states there. */
  type Relation = (nat, int, State, State) -> bool

  /** How many edits a jump to x leaves behind: insertions at x are skipped, a replacement from x is not. */
  ghost function Landing(es: seq<Edit>, n: nat, x: int): nat
    requires n <= |es|
    ensures Landing(es, n, x) <= n
  {
    if n == 0 then 0 else if es[n - 1].end <= x then n else Landing(es, n - 1, x)
  }

  ghost predicate Related(rel: Relation, es: seq<Edit>, x: int, a: State, b: State) {
    rel(Landing(es, |es|, x), x, a, b)
  }

  /** Both programs raise at x: the same handler catches, or the exception escapes both. */
  ghost predicate RaiseAgrees(rel: Relation, fin: (State, State) -> bool, land: Land, es: seq<Edit>, hs: seq<Handler>,
                              x: int, a: State, b: State) {
    match HandlerFor(hs, x)
    case None => fin(a, b)
    case Some(h) => Related(rel, es, h.catch, land(h.depth, a), land(h.depth, b))
  }

  /** The outcomes a and b of executing up to offset to, raising as at x. */
  ghost predicate Agrees(rel: Relation, fin: (State, State) -> bool, land: Land, es: seq<Edit>, hs: seq<Handler>,
                         x: int, i: nat, to: int, a: Outcome, b: Outcome) {
    match (a, b)
    case (Next(st), Next(st')) => rel(i, to, st, st')
    case (Stop(st), Stop(st')) => fin(st, st')
    case (Raise(st), Raise(st')) => RaiseAgrees(rel, fin, land, es, hs, x, st, st')
    case _ => false
  }

  /** Each edit's text does, from related states, what the range it replaces did. */
  ghost predicate TextRight(sem: Semantics, land: Land, rel: Relation, fin: (State, State) -> bool, code: seq<Byte>,
                            hs: seq<Handler>, es: seq<Edit>, i: nat)
    requires i < |es|
  {
    forall a, b :: rel(i, es[i].start, a, b) ==>
      Agrees(rel, fin, land, es, hs, es[i].end - 1, i + 1, es[i].end,
             Flow(sem, code, es[i].start, es[i].end, a), Flow(sem, es[i].bytes, 0, |es[i].bytes|, b))
  }

  /** An unedited instruction, reached with i edits behind, does the same to related states. */
  ghost predicate StepRight(sem: Semantics, land: Land, rel: Relation, fin: (State, State) -> bool, code: seq<Byte>,
                            hs: seq<Handler>, es: seq<Edit>, i: nat, x: int)
    requires 0 <= x < |code|
  {
    forall a, b :: rel(i, x, a, b) ==>
      match (sem(Core(code, x), a), sem(Core(code, x), b))
      case (Jump(arm, st), Jump(arm', st')) => arm == arm' && Related(rel, es, Target(code, x, arm), st, st')
      case (o, o') => Agrees(rel, fin, land, es, hs, x, i, x + Width(code, x), o, o')
  }

  /** Offset x is reached with i edits behind. */
  ghost predicate PointOk(code: seq<Byte>, es: seq<Edit>, s: seq<int>, i: nat, x: int) {
    i <= |es| && Done(es, i) <= x && (i < |es| ==> x <= es[i].start) && x in s
  }

  ghost predicate LocallyRight(sem: Semantics, land: Land, rel: Relation, fin: (State, State) -> bool, code: seq<Byte>,
                               hs: seq<Handler>, es: seq<Edit>, s: seq<int>)
    requires Layout(code, s)
  {
    && (forall i :: 0 <= i < |es| ==> TextRight(sem, land, rel, fin, code, hs, es, i))
    && (forall i: nat, k :: 0 <= k < |s| - 1 && PointOk(code, es, s, i, s[k]) && (i < |es| ==> s[k] < es[i].start) ==>
          StepRight(sem, land, rel, fin, code, hs, es, i, s[k]))
  }

  /** No handler boundary, catch point or branch target lies strictly inside an edit, and all lead to
      instructions. */
  ghost predicate ClearTargets(code: seq<Byte>, hs: seq<Handler>, es: seq<Edit>, s: seq<int>)
    requires Layout(code, s)
  {
    && (forall h :: h in hs ==> Open(es, s, h.start) && Open(es, s, h.end) && Open(es, s, h.catch))
    && (forall k, a :: 0 <= k < |s| - 1 && 0 <= a < Arms(code, s[k]) ==> Open(es, s, Target(code, s[k], a)))
  }

  ghost predicate Open(es: seq<Edit>, s: seq<int>, x: int) {
    x in s && forall i :: 0 <= i < |es| ==> !(es[i].start < x < es[i].end)
  }

  /** Each text is whole instructions and branches nowhere. */
  ghost predicate StraightTexts(es: seq<Edit>, ts: seq<seq<int>>) {
    |ts| == |es| && forall i :: 0 <= i < |es| ==> Layout(es[i].bytes, ts[i]) && Straight(es[i].bytes, ts[i])
  }

  ghost predicate Straight(code: seq<Byte>, s: seq<int>)
    requires Layout(code, s)
  {
    forall k :: 0 <= k < |s| - 1 ==> !IsBranch(code[s[k]])
  }

  /** The configurations the two programs are in together. */
  ghost predicate Together(rel: Relation, fin: (State, State) -> bool, code: seq<Byte>, es: seq<Edit>, s: seq<int>,
                           x: Config, y: Config, i: nat) {
    match (x, y)
    case (At(ip, st), At(ip', st')) => PointOk(code, es, s, i, ip) && ip' == ip + Shift(es, i) && rel(i, ip, st, st')
    case (Halted(st), Halted(st')) => fin(st, st')
    case (Escaped(st), Escaped(st')) => fin(st, st')
    case _ => false
  }

  lemma {:induction false} RunAdds(sem: Semantics, land: Land, code: seq<Byte>, hs: seq<Handler>, c: Config, a: nat,
                                   b: nat)
    ensures Run(sem, land, code, hs, Run(sem, land, code, hs, c, a), b) == Run(sem, land, code, hs, c, a + b)
  {
    if b > 0 {
      RunAdds(sem, land, code, hs, c, a, b - 1);
    }
  }

  /** A jump to an open target lands where the edited code put it, with the right edits behind. */
  lemma {:induction false} LandsOpen(code: seq<Byte>, es: seq<Edit>, s: seq<int>, n: nat, x: int)
    requires Apart(es, |code|) && n <= |es| && Open(es, s, x) && 0 <= x && (n < |es| ==> x <= es[n].start)
    ensures PointOk(code, es, s, Landing(es, n, x), x) && Place(es, n, x) == x + Shift(es, Landing(es, n, x))
  {
    if n > 0 && es[n - 1].end > x {
      assert x <= es[n - 1].start;
      LandsOpen(code, es, s, n - 1, x);
      if es[n - 1].start == x {
        PlaceSettledAt(es, |code|, n - 1, x);
      }
    }
  }

  lemma PlaceSettledAt(es: seq<Edit>, size: int, n: nat, x: int)
    requires Apart(es, size) && n < |es| && es[n].start == x
    ensures Place(es, n, x) == x + Shift(es, n)
  {
    PlaceBefore(es, size, n, x);
  }

  /** What the machine does when an instruction raises with handler h in charge. */
  ghost function Thrown(land: Land, h: Option<Handler>, st: State): Config {
    match h case None => Escaped(st) case Some(v) => Config.At(v.catch, land(v.depth, st))
  }

  ghost function Reaches(land: Land, h: Option<Handler>, to: int, o: Outcome): Config {
    match o
    case Next(st) => Config.At(to, st)
    case Stop(st) => Halted(st)
    case Raise(st) => Thrown(land, h, st)
    case Jump(_, st) => Config.At(to, st)
  }

  /** A stretch of branch-free text, standing at p in b under one handler, runs as straight-line code. */
  ghost predicate Stretch(b: seq<Byte>, hsb: seq<Handler>, h: Option<Handler>, p: int, text: seq<Byte>, ts: seq<int>,
                          j: int, m: int)
    requires Layout(text, ts)
  {
    && 0 <= j <= m <= |ts| - 1
    && forall l :: j <= l < m ==> StretchAt(b, hsb, h, p, text, ts[l])
  }

  ghost predicate StretchAt(b: seq<Byte>, hsb: seq<Handler>, h: Option<Handler>, p: int, text: seq<Byte>, x: int) {
    0 <= x < |text| && !IsBranch(text[x]) && InstrAt(text, x, b, p + x) && HandlerFor(hsb, p + x) == h
  }

  lemma {:induction false} FlowRuns(sem: Semantics, land: Land, b: seq<Byte>, hsb: seq<Handler>, h: Option<Handler>,
                                    p: int, text: seq<Byte>, ts: seq<int>, j: int, m: int, st: State) returns (n: nat)
    requires Layout(text, ts) && Stretch(b, hsb, h, p, text, ts, j, m) && Sensible(sem)
    ensures j < m <==> n > 0
    ensures Run(sem, land, b, hsb, Config.At(p + ts[j], st), n) ==
      Reaches(land, h, p + ts[m], Flow(sem, text, ts[j], ts[m], st))
    ensures !Flow(sem, text, ts[j], ts[m], st).Jump?
    decreases m - j
  {
    hide Sensible, InstrAt, Core, Width, HandlerFor, Layout;
    SortedStarts(text, ts);
    if j == m {
      return 0;
    }
    assert StretchAt(b, hsb, h, p, text, ts[j]);
    LayoutNext(text, ts, j);
    InstrStands(text, ts[j], b, p + ts[j]);
    InstrSame(text, ts[j], b, p + ts[j]);
    NoJump(sem, text, ts[j], st);
    var start := Config.At(p + ts[j], st);
    assert Run(sem, land, b, hsb, start, 1) == Step(sem, land, b, hsb, start) by {
      assert Run(sem, land, b, hsb, start, 0) == start;
    }
    n := 1;
    if sem(Core(text, ts[j]), st).Next? {
      var more := FlowRuns(sem, land, b, hsb, h, p, text, ts, j + 1, m, sem(Core(text, ts[j]), st).state);
      RunAdds(sem, land, b, hsb, start, 1, more);
      n := n + more;
    }
  }

  lemma NoJump(sem: Semantics, text: seq<Byte>, x: int, st: State)
    requires Sensible(sem) && 0 <= x < |text| && !IsBranch(text[x])
    ensures !sem(Core(text, x), st).Jump?
  {
    CoreHead(text, x);
  }

  /** Everything the simulation needs. */
  ghost predicate Setting(sem: Semantics, land: Land, rel: Relation, fin: (State, State) -> bool, code: seq<Byte>,
                          hs: seq<Handler>, es: seq<Edit>, s: seq<int>, ts: seq<seq<int>>, out: seq<Byte>,
                          hs': seq<Handler>)
    requires Layout(code, s)
  {
    && Sensible(sem) && LocallyRight(sem, land, rel, fin, code, hs, es, s)
    && Apart(es, |code|) && EditsAligned(code, es, s) && ClearTargets(code, hs, es, s) && StraightTexts(es, ts)
    && Faithful(code, hs, es, s, out, hs')
  }

  /** No boundary lies strictly inside the edit, so one handler has charge of all of it. */
  lemma {:induction false} OneHandler(es: seq<Edit>, hs: seq<Handler>, s: seq<int>, i: nat, x: int)
    requires i < |es| && es[i].start <= x < es[i].end && forall h ::
      h in hs ==> Open(es, s, h.start) && Open(es, s, h.end)
    ensures HandlerFor(hs, x) == HandlerFor(hs, es[i].end - 1)
  {
    if hs != [] {
      assert hs[0] in hs;
      assert !(es[i].start < hs[0].start < es[i].end) && !(es[i].start < hs[0].end < es[i].end);
      OneHandler(es, hs[1..], s, i, x);
    }
  }

  lemma InOffsets(code: seq<Byte>, s: seq<int>, x: int) returns (k: int)
    requires Layout(code, s) && x in s
    ensures 0 <= k < |s| && s[k] == x && 0 <= x <= |code| && (k == |s| - 1 <==> x == |code|)
  {
    SortedStarts(code, s);
    k :| 0 <= k < |s| && s[k] == x;
  }

  /** The original's side of edit i. */
  lemma OldStretch(code: seq<Byte>, hs: seq<Handler>, es: seq<Edit>, s: seq<int>, i: nat, j: int, m: int)
    requires Layout(code, s) && EditsAligned(code, es, s) && ClearTargets(code, hs, es, s) && i < |es|
    requires 0 <= j <= m < |s| && s[j] == es[i].start && s[m] == es[i].end
    ensures Stretch(code, hs, HandlerFor(hs, es[i].end - 1), 0, code, s, j, m)
  {
    hide HandlerFor;
    forall l | j <= l < m
      ensures StretchAt(code, hs, HandlerFor(hs, es[i].end - 1), 0, code, s[l])
    {
      LayoutNext(code, s, l);
      SortedStarts(code, s);
      assert Inside(es, |es|, s[l]);
      OneHandler(es, hs, s, i, s[l]);
    }
  }

  /** The edited code's side of edit i. */
  lemma NewStretch(code: seq<Byte>, hs: seq<Handler>, es: seq<Edit>, s: seq<int>, out: seq<Byte>, hs': seq<Handler>,
                   i: nat, t: seq<int>)
    requires Layout(code, s) && Apart(es, |code|) && i < |es| && TextAt(es, out, i) && BoundsOk(hs)
    requires |hs'| == |hs| && forall n :: 0 <= n < |hs| ==> hs'[n] == MovedHandler(es, hs[n])
    requires Layout(es[i].bytes, t) && Straight(es[i].bytes, t)
    ensures Stretch(out, hs', MovedOption(es, HandlerFor(hs, es[i].end - 1)), TextStart(es, i), es[i].bytes, t, 0,
      |t| - 1)
  {
    hide HandlerFor, TextStart, To, Layout, MovedHandler, MovedOption, InstrAt, BoundsOk, Apart;
    InstrsInside(es[i].bytes, t);
    forall l | 0 <= l < |t| - 1
      ensures StretchAt(out, hs', MovedOption(es, HandlerFor(hs, es[i].end - 1)), TextStart(es, i), es[i].bytes, t[l])
    {
      LayoutNext(es[i].bytes, t, l);
      TextInstr(es[i].bytes, t[l], out, TextStart(es, i));
      TextHandler(es, |code|, hs, hs', i, TextStart(es, i) + t[l]);
    }
  }

  lemma TextInstr(text: seq<Byte>, x: int, out: seq<Byte>, p: int)
    requires 0 <= x < |text| && x + Width(text, x) <= |text|
    requires 0 <= p && p + |text| <= |out| && out[p..p + |text|] == text
    ensures InstrAt(text, x, out, p + x)
  {
    hide Width;
    var w := Width(text, x);
    WidthPositive(text, x);
    SubSlice(text, out, p, x, w);
    BytesSame(text, x, out, p + x);
  }

  lemma WidthPositive(text: seq<Byte>, x: int)
    requires 0 <= x < |text|
    ensures Width(text, x) > 0
  {
  }

  lemma SubSlice(text: seq<Byte>, out: seq<Byte>, p: int, x: int, w: int)
    requires 0 <= p && p + |text| <= |out| && out[p..p + |text|] == text && 0 <= x && 0 <= w && x + w <= |text|
    ensures out[p + x..p + x + w] == text[x..x + w]
  {
    forall z | x <= z < x + w
      ensures out[z - x + (p + x)] == text[z]
    {
      assert out[p..p + |text|][z] == out[p + z];
    }
    SlicesMeet(out, p + x, text, x, w);
  }

  /** Both programs land in the handler of x, or in none. */
  lemma ThrownTogether(land: Land, rel: Relation, fin: (State, State) -> bool, code: seq<Byte>, hs: seq<Handler>,
                       es: seq<Edit>, s: seq<int>, x: int, a: State, b: State) returns (i: nat)
    requires Layout(code, s) && Apart(es, |code|) && ClearTargets(code, hs, es, s)
    requires RaiseAgrees(rel, fin, land, es, hs, x, a, b)
    ensures Together(rel, fin, code, es, s, Thrown(land, HandlerFor(hs, x), a),
      Thrown(land, MovedOption(es, HandlerFor(hs, x)), b), i)
  {
    hide HandlerFor, Place, Landing;
    Blocks.HandlerIn(hs, x);
    i := 0;
    if HandlerFor(hs, x).Some? {
      var h := HandlerFor(hs, x).value;
      assert Open(es, s, h.catch);
      var k := InOffsets(code, s, h.catch);
      LandsOpen(code, es, s, |es|, h.catch);
      i := Landing(es, |es|, h.catch);
    }
  }

  /** Past edit i: the original runs the replaced instructions, the edited code the text. */
  lemma EditPass(sem: Semantics, land: Land, rel: Relation, fin: (State, State) -> bool, code: seq<Byte>,
                 hs: seq<Handler>, es: seq<Edit>, s: seq<int>, ts: seq<seq<int>>, out: seq<Byte>, hs': seq<Handler>,
                 i: nat, st: State, st': State)
    returns (a: nat, b: nat, i': nat)
    requires Layout(code, s) && Setting(sem, land, rel, fin, code, hs, es, s, ts, out, hs')
    requires i < |es| && rel(i, es[i].start, st, st')
    ensures es[i].start < es[i].end <==> a > 0
    ensures var x, y := Config.At(es[i].start, st), Config.At(TextStart(es, i), st');
            Together(rel, fin, code, es, s, Run(sem, land, code, hs, x, a), Run(sem, land, out, hs', y, b), i')
    ensures a == 0 ==>
      i' == i + 1 && Run(sem, land, code, hs, Config.At(es[i].start, st), a) == Config.At(es[i].start, st)
    ensures var x := Run(sem, land, code, hs, Config.At(es[i].start, st), a); b == 0 ==> x.At? && x.ip == es[i].end
    ensures b > 0 ==> TextStart(es, i) < |out|
  {
    hide Layout, Sensible, ClearTargets, Apart, HandlerFor, Flow, TextAt, Run, Straight, Place, Inside, Stretch, Open,
         RaiseAgrees, TextStart, LocallyRight, EditsAligned, Agrees, Together, Reaches, To, Moved, MovedOption;
    var e := es[i];
    TextRightHere(sem, land, rel, fin, code, hs, es, s, i, st, st');
    EditEnds(code, hs, es, s, ts, i);
    var j := InOffsets(code, s, e.start);
    var m := InOffsets(code, s, e.end);
    Ordered(code, s, m, j);
    Ordered(code, s, j, m);
    OldStretch(code, hs, es, s, i, j, m);
    NewStretch(code, hs, es, s, out, hs', i, ts[i]);
    var h := HandlerFor(hs, e.end - 1);
    a := FlowRuns(sem, land, code, hs, h, 0, code, s, j, m, st);
    b := FlowRuns(sem, land, out, hs', MovedOption(es, h), TextStart(es, i), e.bytes, ts[i], 0, |ts[i]| - 1, st');
    i' := EditOutcome(land, rel, fin, code, hs, es, s, i, Flow(sem, code, e.start, e.end, st),
        Flow(sem, e.bytes, 0, |e.bytes|, st'));
    if a == 0 {
      EmptyFlow(sem, code, e.start, st);
      NoSteps(sem, land, code, hs, Config.At(e.start, st));
    }
    if b > 0 {
      TextInside(es, out, i, ts[i]);
    }
    if b == 0 {
      EmptyFlow(sem, e.bytes, 0, st');
      BothGoOn(rel, fin, land, es, hs, e.end - 1, i + 1, e.end, Flow(sem, code, e.start, e.end, st), st', h);
    }
  }

  lemma TextInside(es: seq<Edit>, out: seq<Byte>, i: nat, t: seq<int>)
    requires i < |es| && TextAt(es, out, i) && Layout(es[i].bytes, t) && |t| > 1
    ensures TextStart(es, i) < |out|
  {
    LayoutNext(es[i].bytes, t, 0);
  }

  lemma BothGoOn(rel: Relation, fin: (State, State) -> bool, land: Land, es: seq<Edit>, hs: seq<Handler>, x: int,
                 i: nat, to: int, o: Outcome, st: State, h: Option<Handler>)
    requires Agrees(rel, fin, land, es, hs, x, i, to, o, Next(st))
    ensures Reaches(land, h, to, o).At? && Reaches(land, h, to, o).ip == to
  {
  }

  lemma TextRightHere(sem: Semantics, land: Land, rel: Relation, fin: (State, State) -> bool, code: seq<Byte>,
                      hs: seq<Handler>, es: seq<Edit>, s: seq<int>, i: nat, st: State, st': State)
    requires Layout(code, s) && LocallyRight(sem, land, rel, fin, code, hs, es, s) && i < |es|
    requires rel(i, es[i].start, st, st')
    ensures Agrees(rel, fin, land, es, hs, es[i].end - 1, i + 1, es[i].end,
                   Flow(sem, code, es[i].start, es[i].end, st), Flow(sem, es[i].bytes, 0, |es[i].bytes|, st'))
  {
    hide Agrees, Flow, Layout, StepRight;
    assert TextRight(sem, land, rel, fin, code, hs, es, i);
  }

  lemma NoSteps(sem: Semantics, land: Land, code: seq<Byte>, hs: seq<Handler>, x: Config)
    ensures Run(sem, land, code, hs, x, 0) == x
  {
  }

  lemma EmptyFlow(sem: Semantics, code: seq<Byte>, x: int, st: State)
    ensures Flow(sem, code, x, x, st) == Next(st)
  {
  }

  lemma EditEnds(code: seq<Byte>, hs: seq<Handler>, es: seq<Edit>, s: seq<int>, ts: seq<seq<int>>, i: nat)
    requires Layout(code, s) && Apart(es, |code|) && EditsAligned(code, es, s) && ClearTargets(code, hs, es, s)
    requires StraightTexts(es, ts) && i < |es|
    ensures 0 <= es[i].start <= es[i].end <= |code| && es[i].start in s && es[i].end in s
    ensures Layout(es[i].bytes, ts[i]) && Straight(es[i].bytes, ts[i]) && |ts[i]| > 0 && ts[i][0] == 0
    ensures ts[i][|ts[i]| - 1] == |es[i].bytes|
    ensures BoundsOk(hs)
  {
    hide Inside;
    SortedStarts(code, s);
  }

  /** Where the two sides of edit i end up. */
  lemma EditOutcome(land: Land, rel: Relation, fin: (State, State) -> bool, code: seq<Byte>, hs: seq<Handler>,
                    es: seq<Edit>, s: seq<int>, i: nat, o: Outcome, o': Outcome) returns (i': nat)
    requires Layout(code, s) && Apart(es, |code|) && EditsAligned(code, es, s) && ClearTargets(code, hs, es, s)
    requires i < |es|
    requires Agrees(rel, fin, land, es, hs, es[i].end - 1, i + 1, es[i].end, o, o')
    ensures var h := HandlerFor(hs, es[i].end - 1);
            Together(rel, fin, code, es, s, Reaches(land, h, es[i].end, o),
                     Reaches(land, MovedOption(es, h), TextStart(es, i) + |es[i].bytes|, o'), i')
    ensures o.Next? ==> i' == i + 1
  {
    hide Layout, ClearTargets, HandlerFor, RaiseAgrees;
    i' := i + 1;
    if o.Raise? {
      i' := ThrownTogether(land, rel, fin, code, hs, es, s, es[i].end - 1, o.state, o'.state);
    }
  }

  /** Past an unedited instruction: one step each. */
  lemma StepPass(sem: Semantics, land: Land, rel: Relation, fin: (State, State) -> bool, code: seq<Byte>,
                 hs: seq<Handler>, es: seq<Edit>, s: seq<int>, ts: seq<seq<int>>, out: seq<Byte>, hs': seq<Handler>,
                 i: nat, k: int, st: State, st': State)
    returns (i': nat)
    requires Layout(code, s) && Setting(sem, land, rel, fin, code, hs, es, s, ts, out, hs')
    requires 0 <= k < |s| - 1 && PointOk(code, es, s, i, s[k]) && (i < |es| ==> s[k] < es[i].start)
    requires rel(i, s[k], st, st')
    ensures Together(rel, fin, code, es, s, Step(sem, land, code, hs, Config.At(s[k], st)),
                     Step(sem, land, out, hs', Config.At(s[k] + Shift(es, i), st')), i')
    ensures s[k] + Shift(es, i) < |out|
  {
    hide Layout, LocallyRight, Sensible, ClearTargets, Apart, StraightTexts, EditsAligned, HandlerFor, TextAt, Place,
         Inside, Open, RaiseAgrees, Core, Width, Target, InstrAt, Arms, Landing;
    var x := s[k];
    LayoutNext(code, s, k);
    RightHere(sem, land, rel, fin, code, hs, es, s, i, k);
    StandsShifted(code, es, s, i, k);
    assert Moved(code, es, s, out, k);
    InstrStands(code, x, out, To(es, x));
    InstrSame(code, x, out, To(es, x));
    BoundsFrom(code, hs, es, s);
    HandlerMoves(es, |code|, hs, hs', x);
    match sem(Core(code, x), st)
    case Next(_) =>
      i' := i;
    case Stop(_) =>
      i' := 0;
    case Raise(a) =>
      i' := ThrownTogether(land, rel, fin, code, hs, es, s, x, a, sem(Core(code, x), st').state);
    case Jump(arm, _) =>
      ArmInside(sem, code, x, st);
      OpenTarget(code, hs, es, s, k, arm);
      LandsOpen(code, es, s, |es|, Target(code, x, arm));
      i' := Landing(es, |es|, Target(code, x, arm));
  }

  lemma RightHere(sem: Semantics, land: Land, rel: Relation, fin: (State, State) -> bool, code: seq<Byte>,
                  hs: seq<Handler>, es: seq<Edit>, s: seq<int>, i: nat, k: int)
    requires Layout(code, s) && LocallyRight(sem, land, rel, fin, code, hs, es, s)
    requires 0 <= k < |s| - 1 && PointOk(code, es, s, i, s[k]) && (i < |es| ==> s[k] < es[i].start)
    ensures 0 <= s[k] < |code| && StepRight(sem, land, rel, fin, code, hs, es, i, s[k])
  {
    hide StepRight, TextRight;
    LayoutNext(code, s, k);
  }

  lemma BoundsFrom(code: seq<Byte>, hs: seq<Handler>, es: seq<Edit>, s: seq<int>)
    requires Layout(code, s) && ClearTargets(code, hs, es, s)
    ensures BoundsOk(hs)
  {
    SortedStarts(code, s);
  }

  /** An instruction between edits is unedited, and the next offset still has the same edits behind. */
  lemma StandsShifted(code: seq<Byte>, es: seq<Edit>, s: seq<int>, i: nat, k: int)
    requires Layout(code, s) && Apart(es, |code|) && EditsAligned(code, es, s)
    requires 0 <= k < |s| - 1 && PointOk(code, es, s, i, s[k]) && (i < |es| ==> s[k] < es[i].start)
    ensures Unedited(code, es, s, k) && To(es, s[k]) == s[k] + Shift(es, i) && PointOk(code, es, s, i, s[k + 1])
  {
    hide Place, Inside;
    LayoutNext(code, s, k);
    PlaceBefore(es, |code|, i, s[k]);
    PlaceSettled(es, |code|, i, |es|, s[k]);
    if i < |es| {
      NotBetween(code, s, k, es[i].start);
    }
  }

  lemma ArmInside(sem: Semantics, code: seq<Byte>, x: int, st: State)
    requires Sensible(sem) && 0 <= x < |code| && sem(Core(code, x), st).Jump?
    ensures 0 <= sem(Core(code, x), st).arm < Arms(code, x)
  {
    CoreHead(code, x);
  }

  lemma OpenTarget(code: seq<Byte>, hs: seq<Handler>, es: seq<Edit>, s: seq<int>, k: int, a: int)
    requires Layout(code, s) && ClearTargets(code, hs, es, s) && 0 <= k < |s| - 1 && 0 <= a < Arms(code, s[k])
    ensures 0 <= s[k] < |code| && Open(es, s, Target(code, s[k], a)) && 0 <= Target(code, s[k], a) <= |code|
  {
    hide Target, Arms;
    SortedStarts(code, s);
  }

  /** The original takes at least one step, the edited code as many as it needs, and they meet again. Where the edited
      code takes none, the original has moved on through its code. */
  lemma {:induction false} Advance(sem: Semantics, land: Land, rel: Relation, fin: (State, State) -> bool,
                                   code: seq<Byte>, hs: seq<Handler>, es: seq<Edit>, s: seq<int>, ts: seq<seq<int>>,
                                   out: seq<Byte>, hs': seq<Handler>, i: nat, x: Config, y: Config)
    returns (a: nat, b: nat, i': nat)
    requires Layout(code, s) && Setting(sem, land, rel, fin, code, hs, es, s, ts, out, hs')
    requires Together(rel, fin, code, es, s, x, y, i)
    ensures a > 0 && Together(rel, fin, code, es, s, Run(sem, land, code, hs, x, a), Run(sem, land, out, hs', y, b), i')
    ensures var x' := Run(sem, land, code, hs, x, a);
            (b > 0 && !Finished(out, y)) || Finished(code, x) || (x'.At? && x.ip < x'.ip)
    decreases if i <= |es| then |es| - i else 0
  {
    hide Layout, Setting, Run, Shift, Done, Together, PointOk, Step;
    TogetherIs(rel, fin, code, es, s, x, y, i);
    OneRun(sem, land, code, hs, x);
    OneRun(sem, land, out, hs', y);
    a, b, i' := 1, 0, i;
    if x.At? && x.ip != |code| {
      var k := InOffsets(code, s, x.ip);
      if i < |es| && x.ip == es[i].start {
        a, b, i' := EditPass(sem, land, rel, fin, code, hs, es, s, ts, out, hs', i, x.state, y.state);
        if a == 0 {
          var y' := Run(sem, land, out, hs', y, b);
          var b';
          a, b', i' := Advance(sem, land, rel, fin, code, hs, es, s, ts, out, hs', i + 1, x, y');
          RunAdds(sem, land, out, hs', y, b, b');
          b := b + b';
        }
      } else {
        b := 1;
        i' := StepPass(sem, land, rel, fin, code, hs, es, s, ts, out, hs', i, k, x.state, y.state);
      }
    }
  }

  lemma TogetherIs(rel: Relation, fin: (State, State) -> bool, code: seq<Byte>, es: seq<Edit>, s: seq<int>, x: Config,
                   y: Config, i: nat)
    requires Together(rel, fin, code, es, s, x, y, i)
    ensures x.At? <==> y.At?
    ensures x.At? ==> PointOk(code, es, s, i, x.ip) && i <= |es| && x.ip in s && (i < |es| ==> x.ip <= es[i].start)
                      && y.ip == x.ip + Shift(es, i) && rel(i, x.ip, x.state, y.state)
    ensures x.At? && i < |es| && x.ip == es[i].start ==> y.ip == TextStart(es, i)
  {
  }

  lemma OneRun(sem: Semantics, land: Land, code: seq<Byte>, hs: seq<Handler>, x: Config)
    ensures Run(sem, land, code, hs, x, 0) == x && Run(sem, land, code, hs, x, 1) == Step(sem, land, code, hs, x)
    ensures !x.At? || x.ip == |code| ==> Run(sem, land, code, hs, x, 1) == x
  {
    assert Run(sem, land, code, hs, x, 0) == x;
  }

  /** Every run of the original, extended by at most the rest of a replaced range, is a run of the edited code. */
  lemma {:induction false} Simulates(sem: Semantics, land: Land, rel: Relation, fin: (State, State) -> bool,
                                     code: seq<Byte>, hs: seq<Handler>, es: seq<Edit>, s: seq<int>, ts: seq<seq<int>>,
                                     out: seq<Byte>, hs': seq<Handler>, st: State, st': State, n: nat)
    returns (a: nat, b: nat, i: nat)
    requires Layout(code, s) && Setting(sem, land, rel, fin, code, hs, es, s, ts, out, hs') && rel(0, 0, st, st')
    ensures a >= n
    ensures Together(rel, fin, code, es, s, Run(sem, land, code, hs, Config.At(0, st), a),
      Run(sem, land, out, hs', Config.At(0, st'), b), i)
  {
    hide Layout, Run, Together;
    var x, y := Config.At(0, st), Config.At(0, st');
    if n == 0 {
      StartTogether(rel, fin, code, es, s, st, st');
      NoSteps(sem, land, code, hs, x);
      NoSteps(sem, land, out, hs', y);
      a, b, i := 0, 0, 0;
    } else {
      a, b, i := Simulates(sem, land, rel, fin, code, hs, es, s, ts, out, hs', st, st', n - 1);
      if a < n {
        var a', b', i' :=
            Advance(sem, land, rel, fin, code, hs, es, s, ts, out, hs', i, Run(sem, land, code, hs, x, a),
            Run(sem, land, out, hs', y, b));
        RunAdds(sem, land, code, hs, x, a, a');
        RunAdds(sem, land, out, hs', y, b, b');
        a, b, i := a + a', b + b', i';
      }
    }
  }

  lemma StartTogether(rel: Relation, fin: (State, State) -> bool, code: seq<Byte>, es: seq<Edit>, s: seq<int>,
                      st: State, st': State)
    requires Layout(code, s) && Apart(es, |code|) && rel(0, 0, st, st')
    ensures Together(rel, fin, code, es, s, Config.At(0, st), Config.At(0, st'), 0)
  {
    assert s[0] == 0;
  }

  /** The edited code keeps up: after b of its steps the original is over, or is at most once through its code for
      each. */
  lemma {:induction false} Outlasts(sem: Semantics, land: Land, rel: Relation, fin: (State, State) -> bool,
                                    code: seq<Byte>, hs: seq<Handler>, es: seq<Edit>, s: seq<int>, ts: seq<seq<int>>,
                                    out: seq<Byte>, hs': seq<Handler>, st: State, st': State, n: nat)
    returns (a: nat, b: nat, i: nat)
    requires Layout(code, s) && Setting(sem, land, rel, fin, code, hs, es, s, ts, out, hs') && rel(0, 0, st, st')
    ensures Together(rel, fin, code, es, s, Run(sem, land, code, hs, Config.At(0, st), a),
      Run(sem, land, out, hs', Config.At(0, st'), b), i)
    ensures var x := Run(sem, land, code, hs, Config.At(0, st), a);
            Finished(code, x) || (0 <= x.ip <= |code| && b * (|code| + 1) + x.ip >= n)
  {
    hide Layout, Run, Together, PointOk;
    var x, y := Config.At(0, st), Config.At(0, st');
    if n == 0 {
      StartTogether(rel, fin, code, es, s, st, st');
      NoSteps(sem, land, code, hs, x);
      NoSteps(sem, land, out, hs', y);
      a, b, i := 0, 0, 0;
    } else {
      a, b, i := Outlasts(sem, land, rel, fin, code, hs, es, s, ts, out, hs', st, st', n - 1);
      var x1 := Run(sem, land, code, hs, x, a);
      if !Finished(code, x1) && b * (|code| + 1) + x1.ip < n {
        var a', b', i' :=
            Advance(sem, land, rel, fin, code, hs, es, s, ts, out, hs', i, x1, Run(sem, land, out, hs', y, b));
        RunAdds(sem, land, code, hs, x, a, a');
        RunAdds(sem, land, out, hs', y, b, b');
        var x2 := Run(sem, land, code, hs, x, a + a');
        if x2.At? {
          TogetherIs(rel, fin, code, es, s, x2, Run(sem, land, out, hs', y, b + b'), i');
          var k := InOffsets(code, s, x2.ip);
        }
        RoundsGrow(b, b', |code|);
        a, b, i := a + a', b + b', i';
      }
    }
  }

  /** Both programs are over in the same way: related states at the ends of their code, or one result. */
  ghost predicate Concluded(rel: Relation, fin: (State, State) -> bool, code: seq<Byte>, es: seq<Edit>,
                            out: seq<Byte>, x: Config, y: Config) {
    match (x, y)
    case (At(ip, st), At(ip', st')) => ip == |code| && ip' == |out| && rel(|es|, |code|, st, st')
    case (Halted(st), Halted(st')) => fin(st, st')
    case (Escaped(st), Escaped(st')) => fin(st, st')
    case _ => false
  }

  /** Once the original is over, the edited code has at most insertions at its end to run. */
  lemma {:induction false} Concludes(sem: Semantics, land: Land, rel: Relation, fin: (State, State) -> bool,
                                     code: seq<Byte>, hs: seq<Handler>, es: seq<Edit>, s: seq<int>, ts: seq<seq<int>>,
                                     out: seq<Byte>, hs': seq<Handler>, i: nat, x: Config, y: Config)
    returns (b: nat)
    requires Layout(code, s) && Setting(sem, land, rel, fin, code, hs, es, s, ts, out, hs')
    requires Together(rel, fin, code, es, s, x, y, i) && Finished(code, x)
    ensures Concluded(rel, fin, code, es, out, x, Run(sem, land, out, hs', y, b))
    ensures Finished(out, Run(sem, land, out, hs', y, b))
    decreases if i <= |es| then |es| - i else 0
  {
    hide Layout, Run, Shift, PointOk, LocallyRight, Sensible, StraightTexts, ClearTargets, EditsAligned, Place;
    NoSteps(sem, land, out, hs', y);
    b := 0;
    if x.At? {
      TogetherIs(rel, fin, code, es, s, x, y, i);
      if i < |es| {
        assert es[i].start == es[i].end == |code| by { EditInside(code, es, i); }
        var a, i';
        a, b, i' := EditPass(sem, land, rel, fin, code, hs, es, s, ts, out, hs', i, x.state, y.state);
        var y' := Run(sem, land, out, hs', y, b);
        var b' := Concludes(sem, land, rel, fin, code, hs, es, s, ts, out, hs', i + 1, x, y');
        RunAdds(sem, land, out, hs', y, b, b');
        b := b + b';
      } else {
        PlaceBefore(es, |code|, |es|, |code|);
      }
    }
  }

  lemma EditInside(code: seq<Byte>, es: seq<Edit>, i: nat)
    requires Apart(es, |code|) && i < |es|
    ensures 0 <= es[i].start <= es[i].end <= |code|
  {
  }

  /** When the edited code is at its end, the original has only deleted code left. */
  lemma {:induction false} CatchesUp(sem: Semantics, land: Land, rel: Relation, fin: (State, State) -> bool,
                                     code: seq<Byte>, hs: seq<Handler>, es: seq<Edit>, s: seq<int>, ts: seq<seq<int>>,
                                     out: seq<Byte>, hs': seq<Handler>, i: nat, x: Config, y: Config)
    returns (a: nat, b: nat, i': nat)
    requires Layout(code, s) && Setting(sem, land, rel, fin, code, hs, es, s, ts, out, hs')
    requires Together(rel, fin, code, es, s, x, y, i) && Finished(out, y)
    ensures Together(rel, fin, code, es, s, Run(sem, land, code, hs, x, a), Run(sem, land, out, hs', y, b), i')
    ensures Finished(code, Run(sem, land, code, hs, x, a))
    decreases if x.At? && x.ip <= |code| then |code| - x.ip else 0
  {
    hide Layout, Setting, Run, Together, PointOk;
    NoSteps(sem, land, code, hs, x);
    NoSteps(sem, land, out, hs', y);
    a, b, i' := 0, 0, i;
    if !Finished(code, x) {
      a, b, i' := Advance(sem, land, rel, fin, code, hs, es, s, ts, out, hs', i, x, y);
      FinishedStays(sem, land, out, hs', y, 0, b);
      var x' := Run(sem, land, code, hs, x, a);
      TogetherIs(rel, fin, code, es, s, x', Run(sem, land, out, hs', y, b), i');
      var k := InOffsets(code, s, x'.ip);
      var a', b';
      a', b', i' := CatchesUp(sem, land, rel, fin, code, hs, es, s, ts, out, hs', i', x', y);
      RunAdds(sem, land, code, hs, x, a, a');
      a, b := a + a', b';
    }
  }

  /** What the original ends with, the edited code ends with. */
  lemma ResultsPreserved(sem: Semantics, land: Land, rel: Relation, fin: (State, State) -> bool, code: seq<Byte>,
                         hs: seq<Handler>, es: seq<Edit>, s: seq<int>, ts: seq<seq<int>>, out: seq<Byte>,
                         hs': seq<Handler>, st: State, st': State, n: nat)
    returns (b: nat)
    requires Layout(code, s) && Setting(sem, land, rel, fin, code, hs, es, s, ts, out, hs') && rel(0, 0, st, st')
    requires Finished(code, Run(sem, land, code, hs, Config.At(0, st), n))
    ensures Concluded(rel, fin, code, es, out, Run(sem, land, code, hs, Config.At(0, st), n),
                      Run(sem, land, out, hs', Config.At(0, st'), b))
  {
    hide Layout, Setting, Run, Concluded, Together;
    var a, i;
    a, b, i := Simulates(sem, land, rel, fin, code, hs, es, s, ts, out, hs', st, st', n);
    FinishedStays(sem, land, code, hs, Config.At(0, st), n, a);
    var b' := Concludes(sem, land, rel, fin, code, hs, es, s, ts, out, hs', i,
                        Run(sem, land, code, hs, Config.At(0, st), a), Run(sem, land, out, hs', Config.At(0, st'), b));
    RunAdds(sem, land, out, hs', Config.At(0, st'), b, b');
    b := b + b';
  }

  /** What the edited code ends with, the original ends with. */
  lemma ResultsReflected(sem: Semantics, land: Land, rel: Relation, fin: (State, State) -> bool, code: seq<Byte>,
                         hs: seq<Handler>, es: seq<Edit>, s: seq<int>, ts: seq<seq<int>>, out: seq<Byte>,
                         hs': seq<Handler>, st: State, st': State, m: nat)
    returns (a: nat)
    requires Layout(code, s) && Setting(sem, land, rel, fin, code, hs, es, s, ts, out, hs') && rel(0, 0, st, st')
    requires Finished(out, Run(sem, land, out, hs', Config.At(0, st'), m))
    ensures Concluded(rel, fin, code, es, out, Run(sem, land, code, hs, Config.At(0, st), a),
                      Run(sem, land, out, hs', Config.At(0, st'), m))
  {
    hide Layout, Setting, Run, PointOk, Concluded, Together;
    var b, i;
    a, b, i := Outlasts(sem, land, rel, fin, code, hs, es, s, ts, out, hs', st, st', (m + 1) * (|code| + 1));
    var start, start' := Config.At(0, st), Config.At(0, st');
    var x, y := Run(sem, land, code, hs, start, a), Run(sem, land, out, hs', start', b);
    if !Finished(code, x) {
      RoundsPass(b, m, |code|, x.ip);
      FinishedStays(sem, land, out, hs', start', m, b);
      var a', b';
      a', b', i := CatchesUp(sem, land, rel, fin, code, hs, es, s, ts, out, hs', i, x, y);
      RunAdds(sem, land, code, hs, start, a, a');
      RunAdds(sem, land, out, hs', start', b, b');
      a, b := a + a', b + b';
      x, y := Run(sem, land, code, hs, start, a), Run(sem, land, out, hs', start', b);
    }
    var b' := Concludes(sem, land, rel, fin, code, hs, es, s, ts, out, hs', i, x, y);
    RunAdds(sem, land, out, hs', start', b, b');
    if b + b' <= m {
      FinishedStays(sem, land, out, hs', start', b + b', m);
    } else {
      FinishedStays(sem, land, out, hs', start', m, b + b');
    }
  }

  ghost predicate Equal(a: State, b: State) { a == b }

  ghost function Same(): Relation {
    (i, x, a, b) => a == b
  }

  /** Each text computes exactly what the range it replaces computed. */
  ghost predicate Interchangeable(sem: Semantics, code: seq<Byte>, es: seq<Edit>) {
    forall i, st :: 0 <= i < |es| ==> Interchanges(sem, code, es, i, st)
  }

  ghost predicate Interchanges(sem: Semantics, code: seq<Byte>, es: seq<Edit>, i: int, st: State)
    requires 0 <= i < |es|
  {
    Flow(sem, es[i].bytes, 0, |es[i].bytes|, st) == Flow(sem, code, es[i].start, es[i].end, st)
  }

  /** Replacing code by code that does the same everywhere is right locally. */
  lemma SameIsRight(sem: Semantics, land: Land, code: seq<Byte>, hs: seq<Handler>, es: seq<Edit>, s: seq<int>,
                    ts: seq<seq<int>>)
    requires Layout(code, s) && Interchangeable(sem, code, es) && Sensible(sem)
    requires Apart(es, |code|) && EditsAligned(code, es, s) && ClearTargets(code, hs, es, s) && StraightTexts(es, ts)
    ensures LocallyRight(sem, land, Same(), Equal, code, hs, es, s)
  {
    hide Layout, Interchangeable, TextRight, StepRight, Sensible, ClearTargets, Apart, EditsAligned, StraightTexts,
         PointOk;
    forall i | 0 <= i < |es|
      ensures TextRight(sem, land, Same(), Equal, code, hs, es, i)
    {
      SameText(sem, land, code, hs, es, s, ts, i);
    }
    InstrsInside(code, s);
    forall i: nat, k | 0 <= k < |s| - 1
      ensures StepRight(sem, land, Same(), Equal, code, hs, es, i, s[k])
    {
      SameStep(sem, land, code, hs, es, i, s[k]);
    }
  }

  lemma SameText(sem: Semantics, land: Land, code: seq<Byte>, hs: seq<Handler>, es: seq<Edit>, s: seq<int>,
                 ts: seq<seq<int>>, i: nat)
    requires Layout(code, s) && Interchangeable(sem, code, es) && Sensible(sem) && i < |es|
    requires Apart(es, |code|) && EditsAligned(code, es, s) && ClearTargets(code, hs, es, s) && StraightTexts(es, ts)
    ensures TextRight(sem, land, Same(), Equal, code, hs, es, i)
  {
    hide Layout, Flow, HandlerFor, Landing, Sensible, ClearTargets, Apart, EditsAligned, StraightTexts;
    forall a
      ensures !Flow(sem, code, es[i].start, es[i].end, a).Jump?
      ensures Flow(sem, es[i].bytes, 0, |es[i].bytes|, a) == Flow(sem, code, es[i].start, es[i].end, a)
    {
      RangeStraight(sem, land, code, hs, es, s, ts, i, a);
      assert Interchanges(sem, code, es, i, a);
    }
  }

  lemma SameStep(sem: Semantics, land: Land, code: seq<Byte>, hs: seq<Handler>, es: seq<Edit>, i: nat, x: int)
    requires 0 <= x < |code|
    ensures StepRight(sem, land, Same(), Equal, code, hs, es, i, x)
  {
    hide HandlerFor, Core, Width, Target, Landing;
  }

  lemma RangeStraight(sem: Semantics, land: Land, code: seq<Byte>, hs: seq<Handler>, es: seq<Edit>, s: seq<int>,
                      ts: seq<seq<int>>, i: nat, st: State)
    requires Layout(code, s) && Sensible(sem) && i < |es|
    requires Apart(es, |code|) && EditsAligned(code, es, s) && ClearTargets(code, hs, es, s) && StraightTexts(es, ts)
    ensures !Flow(sem, code, es[i].start, es[i].end, st).Jump?
  {
    hide Layout, Sensible, Flow, ClearTargets, Apart, EditsAligned, Stretch;
    EditEnds(code, hs, es, s, ts, i);
    var j := InOffsets(code, s, es[i].start);
    var m := InOffsets(code, s, es[i].end);
    Ordered(code, s, m, j);
    OldStretch(code, hs, es, s, i, j, m);
    var n := FlowRuns(sem, land, code, hs, HandlerFor(hs, es[i].end - 1), 0, code, s, j, m, st);
  }

  /** One result, the ends of the two bodies being one place. */
  ghost predicate SameEnd(code: seq<Byte>, out: seq<Byte>, x: Config, y: Config) {
    if x.At? then x.ip == |code| && y == Config.At(|out|, x.state) else x == y
  }

  lemma ConcludedSame(code: seq<Byte>, es: seq<Edit>, out: seq<Byte>, x: Config, y: Config)
    requires Concluded(Same(), Equal, code, es, out, x, y)
    ensures SameEnd(code, out, x, y)
  {
  }

  /** A body edited by code that does the same gives the same results. */
  lemma SameResults(sem: Semantics, land: Land, code: seq<Byte>, hs: seq<Handler>, es: seq<Edit>, s: seq<int>,
                    ts: seq<seq<int>>, out: seq<Byte>, hs': seq<Handler>, st: State, n: nat) returns (b: nat)
    requires Layout(code, s) && Sensible(sem) && Interchangeable(sem, code, es)
    requires Apart(es, |code|) && EditsAligned(code, es, s) && ClearTargets(code, hs, es, s) && StraightTexts(es, ts)
    requires Faithful(code, hs, es, s, out, hs')
    requires Finished(code, Run(sem, land, code, hs, Config.At(0, st), n))
    ensures SameEnd(code, out, Run(sem, land, code, hs, Config.At(0, st), n),
                    Run(sem, land, out, hs', Config.At(0, st), b))
  {
    hide Layout, Sensible, Interchangeable, LocallyRight, Apart, EditsAligned, ClearTargets, StraightTexts, Faithful,
         Run, Concluded, SameEnd;
    SameIsRight(sem, land, code, hs, es, s, ts);
    b := ResultsPreserved(sem, land, Same(), Equal, code, hs, es, s, ts, out, hs', st, st, n);
    ConcludedSame(code, es, out, Run(sem, land, code, hs, Config.At(0, st), n),
                  Run(sem, land, out, hs', Config.At(0, st), b));
  }

  /** And it gives no others. */
  lemma SameResultsBack(sem: Semantics, land: Land, code: seq<Byte>, hs: seq<Handler>, es: seq<Edit>, s: seq<int>,
                        ts: seq<seq<int>>, out: seq<Byte>, hs': seq<Handler>, st: State, m: nat) returns (a: nat)
    requires Layout(code, s) && Sensible(sem) && Interchangeable(sem, code, es)
    requires Apart(es, |code|) && EditsAligned(code, es, s) && ClearTargets(code, hs, es, s) && StraightTexts(es, ts)
    requires Faithful(code, hs, es, s, out, hs')
    requires Finished(out, Run(sem, land, out, hs', Config.At(0, st), m))
    ensures SameEnd(code, out, Run(sem, land, code, hs, Config.At(0, st), a),
                    Run(sem, land, out, hs', Config.At(0, st), m))
  {
    hide Layout, Sensible, Interchangeable, LocallyRight, Apart, EditsAligned, ClearTargets, StraightTexts, Faithful,
         Run, Concluded, SameEnd;
    SameIsRight(sem, land, code, hs, es, s, ts);
    a := ResultsReflected(sem, land, Same(), Equal, code, hs, es, s, ts, out, hs', st, st, m);
    ConcludedSame(code, es, out, Run(sem, land, code, hs, Config.At(0, st), a),
                  Run(sem, land, out, hs', Config.At(0, st), m));
  }
}
