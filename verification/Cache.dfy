/** The compile-request protocol of a pool: which function is built next, what waits, and when code buffers
    are freed. Each locked operation is one step; runs are any interleaving of steps. */
module CacheProtocol {

  datatype Trigger = NoTrigger | Hot | SideExit
  datatype Anchor = Anchor(addr: int, ip: int)
  datatype Request = Request(root: Anchor, trigger: Trigger)
  datatype State = Cold | Building | Ready
  datatype Option<T> = None | Some(value: T)

  const NONE := Request(Anchor(0, 0), NoTrigger)

  /** Per-function state, active request and queue; installed modules by their entry points; buffers held,
      and those freed so far. */
  datatype Pool = Pool(state: seq<State>, active: seq<Request>, pending: seq<seq<Request>>, modules: seq<set<Anchor>>,
                       buffers: seq<int>, refs: int, closed: bool, freed: seq<int>)

  /** prior asks for the same root with at least next's priority. */
  predicate Covers(prior: Request, next: Request) {
    prior.trigger != NoTrigger && prior.root == next.root && (prior.trigger == SideExit || next.trigger == Hot)
  }

  predicate Sized(p: Pool) {
    |p.state| == |p.active| == |p.pending|
  }

  predicate Known(p: Pool, addr: int) {
    0 <= addr < |p.state|
  }

  /** The queue without the first request for the root. */
  function Without(q: seq<Request>, root: Anchor): seq<Request> {
    if q == [] then [] else if q[0].root == root then q[1..] else [q[0]] + Without(q[1..], root)
  }

  /** How many side exits lead the queue. */
  function Exits(q: seq<Request>): (n: nat)
    ensures n <= |q|
  {
    if q != [] && q[0].trigger == SideExit then 1 + Exits(q[1..]) else 0
  }

  /** Side exits queue behind side exits, hot roots behind everything. */
  function Queued(q: seq<Request>, next: Request): seq<Request> {
    if next.trigger == SideExit then q[..Exits(q)] + [next] + q[Exits(q)..] else q + [next]
  }

  ghost predicate AnyCovers(q: seq<Request>, next: Request) {
    exists i :: 0 <= i < |q| && Covers(q[i], next)
  }

  ghost function Claimed(p: Pool, addr: int): Pool
    requires Sized(p)
  {
    if !Known(p, addr) || p.state[addr] != Cold then p
    else
      var waiting := p.pending[addr];
      var next := if waiting != [] then waiting[0] else Request(Anchor(addr, 0), Hot);
      p.(state := p.state[addr := Building], active := p.active[addr := next],
         pending := p.pending[addr := if waiting != [] then waiting[1..] else waiting])
  }

  ghost function Requested(p: Pool, next: Request): Pool
    requires Sized(p)
  {
    var addr := next.root.addr;
    if !Known(p, addr) || Covers(p.active[addr], next) || AnyCovers(p.pending[addr], next) then p
    else
      p.(pending := p.pending[addr := Queued(Without(p.pending[addr], next.root), next)],
         state := if p.state[addr] == Ready then p.state[addr := Cold] else p.state)
  }

  ghost function Finished(p: Pool, addr: int): Pool
    requires Sized(p)
  {
    if !Known(p, addr) then p
    else p.(active := p.active[addr := NONE], state := p.state[addr := if p.pending[addr] == [] then Ready else Cold])
  }

  /** Cold functions without requests that the module has an entry for become ready. */
  ghost function Entered(p: Pool, addr: int, entries: set<Anchor>): (r: seq<State>)
    requires Sized(p)
    ensures |r| == |p.state|
  {
    seq(|p.state|, x requires 0 <= x < |p.state| =>
      if x != addr && p.state[x] == Cold && p.pending[x] == [] && (exists a :: a in entries && a.addr == x) then Ready
          else p.state[x])
  }

  ghost function Published(p: Pool, addr: int, mod: Option<set<Anchor>>, buf: Option<int>): Pool
    requires Sized(p)
  {
    var held := if buf.Some? then p.(buffers := p.buffers + [buf.value]) else p;
    var entered := if mod.Some? && mod.value != {}
        then held.(modules := held.modules + [mod.value], state := Entered(held, addr, mod.value)) else held;
    Finished(entered, addr)
  }

  ghost function Released(p: Pool): Pool {
    if p.refs - 1 > 0 then p.(refs := p.refs - 1)
        else p.(refs := p.refs - 1, freed := p.freed + p.buffers, buffers := [])
  }

  ghost function Closed(p: Pool): Pool {
    if p.closed then p else Released(p.(closed := true))
  }

  ghost function Attached(p: Pool): Pool {
    if p.closed then p else p.(refs := p.refs + 1)
  }

  /** The shared cache. Its lock makes each method one step. */
  class Cache {
    var state: seq<State>
    var active: seq<Request>
    var pending: seq<seq<Request>>
    var modules: seq<set<Anchor>>
    var buffers: seq<int>
    var hits: seq<int>
    var refs: int
    var closed: bool
    ghost var freed: seq<int>

    ghost function View(): Pool
      reads this
    {
      Pool(state, active, pending, modules, buffers, refs, closed, freed)
    }

    constructor (constants: nat)
      ensures Sized(View()) && |state| == constants + 1 && |hits| == |state|
      ensures View() == Start(constants + 1)
    {
      state := seq(constants + 1, _ => Cold);
      active := seq(constants + 1, _ => NONE);
      pending := seq(constants + 1, _ => []);
      hits := seq(constants + 1, _ => 0);
      modules, buffers, refs, closed, freed := [], [], 1, false, [];
    }

    /** The unlocked half of a claim: counts a hit on a cold function and compares it with the threshold. */
    method Warm(addr: int, threshold: int) returns (hot: bool)
      requires |hits| == |state|
      modifies this`hits
      ensures |hits| == |state|
      ensures hot <==> threshold >= 0 && Known(View(), addr) && state[addr] == Cold && old(hits)[addr] + 1 >= threshold
      ensures forall x :: 0 <= x < |hits| ==>
                hits[x] == old(hits)[x] + (if x == addr && threshold >= 0 && state[x] == Cold then 1 else 0)
    {
      if threshold < 0 || addr < 0 || addr >= |hits| {
        return false;
      }
      if state[addr] != Cold {
        return false;
      }
      hits := hits[addr := hits[addr] + 1];
      hot := hits[addr] >= threshold;
    }

    /** The locked half: takes the first waiting request, or the function's entry, and starts its build. */
    method Claim(addr: int) returns (r: Option<Request>)
      requires Sized(View()) && Known(View(), addr)
      modifies this
      ensures View() == Claimed(old(View()), addr) && hits == old(hits)
      ensures r.Some? <==> old(state)[addr] == Cold
      ensures r.Some? ==> r.value == active[addr]
    {
      if state[addr] != Cold {
        return None;
      }
      var next := Request(Anchor(addr, 0), Hot);
      if |pending[addr]| > 0 {
        next := pending[addr][0];
        pending := pending[addr := pending[addr][1..]];
      }
      active := active[addr := next];
      state := state[addr := Building];
      assert pending[addr] == if old(pending)[addr] != [] then old(pending)[addr][1..] else old(pending)[addr];
      assert pending == old(pending)[addr := pending[addr]];
      r := Some(next);
    }

    /** Queues a request unless the active build or a waiting request covers it. */
    method Ask(next: Request)
      requires Sized(View()) && forall q :: q in pending ==> DistinctRoots(q)
      modifies this
      ensures View() == Requested(old(View()), next) && hits == old(hits)
    {
      var addr := next.root.addr;
      if addr < 0 || addr >= |state| {
        return;
      }
      if Covers(active[addr], next) {
        return;
      }
      var waiting := pending[addr];
      var covered, rest := Replace(waiting, next);
      if covered {
        return;
      }
      var queue := Insert(rest, next);
      pending := pending[addr := queue];
      if state[addr] == Ready {
        state := state[addr := Cold];
      }
    }

    method Finish(addr: int)
      requires Sized(View())
      modifies this
      ensures View() == Finished(old(View()), addr) && hits == old(hits)
    {
      if addr >= 0 && addr < |state| {
        active := active[addr := NONE];
        if |pending[addr]| == 0 {
          state := state[addr := Ready];
        } else {
          state := state[addr := Cold];
        }
      }
    }

    /** Ends a build that produced nothing. */
    method Fail(addr: int)
      requires Sized(View())
      modifies this
      ensures View() == Finished(old(View()), addr)
    {
      Finish(addr);
    }

    /** Readies the cold, unrequested functions a module has entries for. */
    method Enter(addr: int, entries: set<Anchor>)
      requires Sized(View())
      modifies this`state
      ensures state == Entered(old(View()), addr, entries)
    {
      ghost var before := View();
      var left := entries;
      ghost var done: set<Anchor> := {};
      EnteredNothing(before, addr);
      while left != {}
        invariant left + done == entries && left !! done && |state| == |before.state|
        invariant forall x :: 0 <= x < |state| ==> state[x] == EnteredAt(before, addr, done, x)
        decreases |left|
      {
        var target :| target in left;
        EnteredNext(before, addr, done, target);
        if target.addr >= 0 && target.addr < |state| && target.addr != addr && state[target.addr] == Cold &&
            |pending[target.addr]| == 0 {
          state := state[target.addr := Ready];
        }
        left := left - {target};
        done := done + {target};
      }
      assert done == entries;
    }

    /** Ends a build with its module and buffer. */
    method Publish(addr: int, mod: Option<set<Anchor>>, buf: Option<int>)
      requires Sized(View())
      modifies this
      ensures View() == Published(old(View()), addr, mod, buf)
    {
      hide Entered;
      if buf.Some? {
        buffers := buffers + [buf.value];
      }
      if mod.Some? && |mod.value| > 0 {
        ghost var held := View();
        Enter(addr, mod.value);
        modules := modules + [mod.value];
      }
      Finish(addr);
    }

    method Release()
      modifies this
      ensures View() == Released(old(View()))
    {
      refs := refs - 1;
      if refs > 0 {
        return;
      }
      freed := freed + buffers;
      buffers := [];
    }

    method Close()
      modifies this
      ensures View() == Closed(old(View()))
    {
      if closed {
        return;
      }
      closed := true;
      Release();
    }

    method Attach() returns (ok: bool)
      modifies this
      ensures View() == Attached(old(View())) && ok == !old(closed)
    {
      if closed {
        return false;
      }
      refs := refs + 1;
      ok := true;
    }

    method Detach()
      modifies this
      ensures View() == Released(old(View()))
    {
      Release();
    }
  }

  ghost function Start(n: nat): Pool {
    Pool(seq(n, _ => Cold), seq(n, _ => NONE), seq(n, _ => []), [], [], 1, false, [])
  }

  ghost function EnteredAt(p: Pool, addr: int, entries: set<Anchor>, x: int): State
    requires Sized(p) && Known(p, x)
  {
    if x != addr && p.state[x] == Cold && p.pending[x] == [] && (exists a :: a in entries && a.addr == x) then Ready
        else p.state[x]
  }

  lemma EnteredNothing(p: Pool, addr: int)
    requires Sized(p)
    ensures forall x :: Known(p, x) ==> EnteredAt(p, addr, {}, x) == p.state[x]
  {
  }

  lemma EnteredNext(p: Pool, addr: int, done: set<Anchor>, target: Anchor)
    requires Sized(p)
    ensures forall x :: Known(p, x) ==> EnteredAt(p, addr, done + {target}, x) == EnteredAfter(p, addr, done, target, x)
  {
    assert target in done + {target};
  }

  ghost function EnteredAfter(p: Pool, addr: int, done: set<Anchor>, target: Anchor, x: int): State
    requires Sized(p) && Known(p, x)
  {
    if x == target.addr && x != addr && p.pending[x] == [] && EnteredAt(p, addr, done, x) == Cold then Ready
        else EnteredAt(p, addr, done, x)
  }

  /** Looks for a request that covers next, and drops the first one it displaces. */
  method Replace(q: seq<Request>, next: Request) returns (covered: bool, rest: seq<Request>)
    requires DistinctRoots(q)
    ensures covered <==> AnyCovers(q, next)
    ensures !covered ==> rest == Without(q, next.root)
  {
    rest := q;
    covered := false;
    for i := 0 to |q|
      invariant rest == q && !covered && forall j :: 0 <= j < i ==> !Covers(q[j], next) && q[j].root != next.root
    {
      if Covers(q[i], next) {
        return true, q;
      }
      if q[i].root == next.root {
        WithoutAt(q, next.root, i);
        return false, q[..i] + q[i + 1..];
      }
    }
    WithoutNone(q, next.root);
  }

  ghost predicate DistinctRoots(q: seq<Request>) {
    forall i, j :: 0 <= i < j < |q| ==> q[i].root != q[j].root
  }

  lemma {:induction false} WithoutAt(q: seq<Request>, root: Anchor, i: nat)
    requires i < |q| && q[i].root == root && forall j :: 0 <= j < i ==> q[j].root != root
    ensures Without(q, root) == q[..i] + q[i + 1..]
  {
    if i > 0 {
      WithoutAt(q[1..], root, i - 1);
      assert q[..i] + q[i + 1..] == [q[0]] + (q[1..][..i - 1] + q[1..][i..]);
    }
  }

  lemma {:induction false} WithoutNone(q: seq<Request>, root: Anchor)
    requires forall j :: 0 <= j < |q| ==> q[j].root != root
    ensures Without(q, root) == q
  {
    if q != [] {
      WithoutNone(q[1..], root);
    }
  }

  method Insert(q: seq<Request>, next: Request) returns (r: seq<Request>)
    ensures r == Queued(q, next)
  {
    if next.trigger == SideExit {
      var at := 0;
      assert q[0..] == q;
      while at < |q| && q[at].trigger == SideExit
        invariant 0 <= at <= |q| && Exits(q) == at + Exits(q[at..])
      {
        assert q[at..][1..] == q[at + 1..];
        at := at + 1;
      }
      r := q[..at] + [next] + q[at..];
    } else {
      r := q + [next];
    }
  }

  datatype Step = ClaimStep(addr: int) | AskStep(next: Request) | PublishStep(addr: int, mod: Option<set<Anchor>>,
      buf: Option<int>)
                | FailStep(addr: int) | AttachStep | DetachStep | CloseStep

  /** The cache and what its users are doing: functions being built, and members still attached. */
  datatype World = World(pool: Pool, building: set<int>, members: nat)

  /** The users' side of the protocol: only a function that is claimed is published or failed, by an attached
      member, and a member detaches once. */
  predicate Allowed(w: World, s: Step) {
    match s
    case ClaimStep(addr) => w.members > 0 && Known(w.pool, addr)
    case AskStep(next) => w.members > 0 && next.trigger != NoTrigger
    case PublishStep(addr, _, _) => w.members > 0 && addr in w.building
    case FailStep(addr) => w.members > 0 && addr in w.building
    case AttachStep => true
    case DetachStep => w.members > 0
    case CloseStep => true
  }

  ghost function Stepped(w: World, s: Step): World
    requires Sized(w.pool) && Allowed(w, s)
  {
    match s
    case ClaimStep(addr) =>
      World(Claimed(w.pool, addr), if w.pool.state[addr] == Cold then w.building + {addr} else w.building, w.members)
    case AskStep(next) => World(Requested(w.pool, next), w.building, w.members)
    case PublishStep(addr, mod, buf) => World(Published(w.pool, addr, mod, buf), w.building - {addr}, w.members)
    case FailStep(addr) => World(Finished(w.pool, addr), w.building - {addr}, w.members)
    case AttachStep => World(Attached(w.pool), w.building, if w.pool.closed then w.members else w.members + 1)
    case DetachStep => World(Released(w.pool), w.building, w.members - 1)
    case CloseStep => World(Closed(w.pool), w.building, w.members)
  }

  /** Side exits come before hot roots. */
  ghost predicate ExitsFirst(q: seq<Request>) {
    forall i, j :: 0 <= i < j < |q| && q[j].trigger == SideExit ==> q[i].trigger == SideExit
  }

  ghost predicate QueueOk(q: seq<Request>, addr: int) {
    DistinctRoots(q) && ExitsFirst(q) && forall i ::
        0 <= i < |q| ==> q[i].root.addr == addr && q[i].trigger != NoTrigger
  }

  /** A function is building exactly while someone holds its build; a ready one has no requests; queues are
      distinct and in priority order. */
  ghost predicate FunctionOk(p: Pool, building: set<int>, addr: int)
    requires Sized(p) && Known(p, addr)
  {
    && (p.state[addr] == Building <==> addr in building)
    && (p.state[addr] == Ready ==> p.pending[addr] == [])
    && (p.active[addr].trigger != NoTrigger <==> addr in building)
    && (addr in building ==> p.active[addr].root.addr == addr)
    && QueueOk(p.pending[addr], addr)
  }

  /** References count the open cache and its members; buffers are held until the last goes. */
  ghost predicate BuffersOk(p: Pool, members: nat) {
    && p.refs == members + (if p.closed then 0 else 1)
    && (p.refs > 0 ==> p.freed == []) && (p.refs == 0 ==> p.buffers == [])
  }

  ghost predicate Valid(w: World) {
    && Sized(w.pool) && (forall x :: x in w.building ==> Known(w.pool, x))
    && (forall addr :: Known(w.pool, addr) ==> FunctionOk(w.pool, w.building, addr))
    && BuffersOk(w.pool, w.members)
  }

  lemma StartValid(n: nat)
    ensures Valid(World(Start(n), {}, 0))
  {
  }

  /** Index k of a queue that lost its element i. */
  function Skip(i: int, k: int): int {
    if k < i then k else k + 1
  }

  ghost predicate Deleted(q: seq<Request>, i: nat, r: seq<Request>) {
    i < |q| && |r| == |q| - 1 && forall k :: 0 <= k < |r| ==> r[k] == q[Skip(i, k)]
  }

  lemma DeletedKeeps(q: seq<Request>, i: nat, r: seq<Request>, addr: int)
    requires QueueOk(q, addr) && Deleted(q, i, r)
    ensures QueueOk(r, addr)
    ensures forall k :: 0 <= k < |r| ==> r[k].root != q[i].root
  {
    assert DistinctRoots(r);
    assert ExitsFirst(r);
  }

  lemma DeletedHas(q: seq<Request>, i: nat, r: seq<Request>, x: Request)
    requires Deleted(q, i, r) && x in q && x != q[i]
    ensures x in r
  {
    var k :| 0 <= k < |q| && q[k] == x;
    assert r[if k < i then k else k - 1] == x;
  }

  lemma WithoutKeeps(q: seq<Request>, root: Anchor, addr: int)
    requires QueueOk(q, addr)
    ensures QueueOk(Without(q, root), addr)
    ensures forall i :: 0 <= i < |Without(q, root)| ==> Without(q, root)[i].root != root
    ensures forall r :: r in q && r.root != root ==> r in Without(q, root)
  {
    hide QueueOk, Without, Skip, Deleted;
    var rest := Without(q, root);
    if i :| 0 <= i < |q| && q[i].root == root {
      NoEarlier(q, i, addr);
      WithoutAt(q, root, i);
      DeletedAt(q, i);
      DeletedKeeps(q, i, rest, addr);
      forall r | r in q && r.root != root
        ensures r in rest
      {
        DeletedHas(q, i, rest, r);
      }
    } else {
      WithoutNone(q, root);
    }
  }

  lemma NoEarlier(q: seq<Request>, i: nat, addr: int)
    requires QueueOk(q, addr) && i < |q|
    ensures forall j :: 0 <= j < i ==> q[j].root != q[i].root
  {
  }

  lemma DeletedAt(q: seq<Request>, i: nat)
    requires i < |q|
    ensures Deleted(q, i, q[..i] + q[i + 1..])
  {
  }

  lemma {:induction false} ExitsAre(q: seq<Request>)
    requires ExitsFirst(q)
    ensures forall i :: 0 <= i < |q| ==> (i < Exits(q) <==> q[i].trigger == SideExit)
  {
    if q != [] {
      ExitsAre(q[1..]);
      assert forall i :: 0 < i < |q| ==> q[i] == q[1..][i - 1];
      if q[0].trigger != SideExit {
        assert forall j :: 0 < j < |q| ==> q[j].trigger != SideExit;
      }
    }
  }

  ghost predicate Inserted(q: seq<Request>, n: nat, x: Request, r: seq<Request>) {
    n <= |q| && |r| == |q| + 1 && r[n] == x && (forall k :: 0 <= k < n ==> r[k] == q[k]) && forall k ::
        n < k < |r| ==> r[k] == q[k - 1]
  }

  lemma QueuedKeeps(q: seq<Request>, next: Request, addr: int)
    requires QueueOk(q, addr) && next.root.addr == addr && next.trigger != NoTrigger && forall i ::
      0 <= i < |q| ==> q[i].root != next.root
    ensures QueueOk(Queued(q, next), addr) && next in Queued(q, next)
    ensures forall r :: r in q ==> r in Queued(q, next)
  {
    hide QueueOk, Queued, Exits;
    var n := if next.trigger == SideExit then Exits(q) else |q|;
    QueuedIs(q, next, n);
    ExitsHere(q, addr);
    var r := Queued(q, next);
    assert r[n] == next;
    forall x | x in q
      ensures x in r
    {
      var k :| 0 <= k < |q| && q[k] == x;
      assert r[if k < n then k else k + 1] == x;
    }
    InsertedKeeps(q, n, next, r, addr);
  }

  lemma QueuedIs(q: seq<Request>, next: Request, n: nat)
    requires n == if next.trigger == SideExit then Exits(q) else |q|
    ensures Inserted(q, n, next, Queued(q, next))
  {
    hide Inserted, Exits;
    InsertedAt(q, n, next);
    if next.trigger != SideExit {
      assert q[..n] == q && q[n..] == [];
      assert q[..n] + [next] + q[n..] == q + [next];
    }
  }

  lemma InsertedAt(q: seq<Request>, n: nat, x: Request)
    requires n <= |q|
    ensures Inserted(q, n, x, q[..n] + [x] + q[n..])
  {
  }

  lemma ExitsHere(q: seq<Request>, addr: int)
    requires QueueOk(q, addr)
    ensures forall i :: 0 <= i < |q| ==> (i < Exits(q) <==> q[i].trigger == SideExit)
  {
    ExitsAre(q);
  }

  lemma InsertedKeeps(q: seq<Request>, n: nat, x: Request, r: seq<Request>, addr: int)
    requires QueueOk(q, addr) && Inserted(q, n, x, r) && x.root.addr == addr && x.trigger != NoTrigger
    requires forall i :: 0 <= i < |q| ==> q[i].root != x.root
    requires x.trigger == SideExit ==> forall i :: 0 <= i < n ==> q[i].trigger == SideExit
    requires forall i :: n <= i < |q| ==> q[i].trigger != SideExit
    ensures QueueOk(r, addr)
  {
    forall i, j | 0 <= i < j < |r|
      ensures r[i].root != r[j].root && (r[j].trigger == SideExit ==> r[i].trigger == SideExit)
    {
      InsertedPair(q, n, x, r, addr, i, j);
    }
  }

  lemma InsertedPair(q: seq<Request>, n: nat, x: Request, r: seq<Request>, addr: int, i: int, j: int)
    requires QueueOk(q, addr) && Inserted(q, n, x, r) && 0 <= i < j < |r|
    requires forall i :: 0 <= i < |q| ==> q[i].root != x.root
    requires x.trigger == SideExit ==> forall i :: 0 <= i < n ==> q[i].trigger == SideExit
    requires forall i :: n <= i < |q| ==> q[i].trigger != SideExit
    ensures r[i].root != r[j].root && (r[j].trigger == SideExit ==> r[i].trigger == SideExit)
  {
  }

  /** A change at one function leaves the others as they were. */
  lemma OthersOk(p: Pool, p': Pool, building: set<int>, building': set<int>, addr: int)
    requires Sized(p) && Sized(p') && |p.state| == |p'.state|
    requires forall x :: Known(p, x) ==> FunctionOk(p, building, x)
    requires forall x :: Known(p, x) && x != addr ==>
               p'.pending[x] == p.pending[x] && p'.active[x] == p.active[x] && (x in building' <==> x in building)
    requires forall x :: Known(p, x) && x != addr ==>
               p'.state[x] == p.state[x] || (p.state[x] == Cold && p'.state[x] == Ready && p.pending[x] == [])
    requires Known(p', addr) ==> FunctionOk(p', building', addr)
    ensures forall x :: Known(p', x) ==> FunctionOk(p', building', x)
  {
    hide QueueOk;
    forall x | Known(p', x)
      ensures FunctionOk(p', building', x)
    {
      assert FunctionOk(p, building, x);
    }
  }

  lemma ClaimValid(w: World, addr: int)
    requires Valid(w) && Allowed(w, ClaimStep(addr))
    ensures Valid(Stepped(w, ClaimStep(addr)))
  {
    var w' := Stepped(w, ClaimStep(addr));
    assert FunctionOk(w.pool, w.building, addr);
    OthersOk(w.pool, w'.pool, w.building, w'.building, addr);
  }

  lemma AskValid(w: World, next: Request)
    requires Valid(w) && Allowed(w, AskStep(next))
    ensures Valid(Stepped(w, AskStep(next)))
  {
    hide QueueOk, Queued, Without, AnyCovers;
    var addr := next.root.addr;
    var w' := Stepped(w, AskStep(next));
    if w'.pool != w.pool {
      assert FunctionOk(w.pool, w.building, addr);
      WithoutKeeps(w.pool.pending[addr], next.root, addr);
      QueuedKeeps(Without(w.pool.pending[addr], next.root), next, addr);
      OthersOk(w.pool, w'.pool, w.building, w'.building, addr);
    }
  }

  lemma FinishValid(w: World, addr: int, w': World)
    requires Valid(w) && addr in w.building && w.members > 0
    requires Sized(w'.pool) && |w'.pool.state| == |w.pool.state| && w'.building == w.building - {addr}
    requires w'.members == w.members
    requires w'.pool.pending == w.pool.pending && w'.pool.active == w.pool.active[addr := NONE]
    requires w'.pool.state[addr] == (if w.pool.pending[addr] == [] then Ready else Cold)
    requires forall x :: Known(w.pool, x) && x != addr ==>
               w'.pool.state[x] == w.pool.state[x] ||
                   (w.pool.state[x] == Cold && w'.pool.state[x] == Ready && w.pool.pending[x] == [])
    requires w'.pool.refs == w.pool.refs && w'.pool.closed == w.pool.closed && w'.pool.freed == w.pool.freed
    ensures Valid(w')
  {
    hide QueueOk;
    assert FunctionOk(w.pool, w.building, addr);
    OthersOk(w.pool, w'.pool, w.building, w'.building, addr);
  }

  /** Every step keeps the protocol. */
  lemma StepValid(w: World, s: Step)
    requires Valid(w) && Allowed(w, s)
    ensures Valid(Stepped(w, s))
  {
    hide FunctionOk, QueueOk;
    match s
    case ClaimStep(addr) => ClaimValid(w, addr);
    case AskStep(next) => AskValid(w, next);
    case PublishStep(addr, mod, buf) =>
      BuildingHas(w, addr);
      FinishValid(w, addr, Stepped(w, s));
    case FailStep(addr) =>
      BuildingHas(w, addr);
      FinishValid(w, addr, Stepped(w, s));
    case AttachStep => SameFunctions(w, Stepped(w, s));
    case DetachStep => SameFunctions(w, Stepped(w, s));
    case CloseStep => SameFunctions(w, Stepped(w, s));
  }

  lemma BuildingHas(w: World, addr: int)
    requires Valid(w) && addr in w.building
    ensures Known(w.pool, addr) && w.pool.state[addr] == Building
  {
    assert FunctionOk(w.pool, w.building, addr);
  }

  lemma SameFunctions(w: World, w': World)
    requires Valid(w) && w'.building == w.building && BuffersOk(w'.pool, w'.members)
    requires w'.pool.state == w.pool.state && w'.pool.active == w.pool.active && w'.pool.pending == w.pool.pending
    ensures Valid(w')
  {
    hide QueueOk;
    forall addr | Known(w'.pool, addr)
      ensures FunctionOk(w'.pool, w'.building, addr)
    {
      assert FunctionOk(w.pool, w.building, addr);
    }
  }

  /** The request is answered: the active build or a waiting request covers it. */
  ghost predicate Served(p: Pool, r: Request)
    requires Sized(p)
  {
    Known(p, r.root.addr) && (Covers(p.active[r.root.addr], r) || AnyCovers(p.pending[r.root.addr], r))
  }

  /** A request, once made, is served. */
  lemma AskServes(w: World, next: Request)
    requires Valid(w) && Allowed(w, AskStep(next)) && Known(w.pool, next.root.addr)
    ensures Served(Stepped(w, AskStep(next)).pool, next)
  {
    hide QueueOk, Queued, Without;
    var addr := next.root.addr;
    assert FunctionOk(w.pool, w.building, addr);
    if !Covers(w.pool.active[addr], next) && !AnyCovers(w.pool.pending[addr], next) {
      WithoutKeeps(w.pool.pending[addr], next.root, addr);
      var q := Queued(Without(w.pool.pending[addr], next.root), next);
      QueuedKeeps(Without(w.pool.pending[addr], next.root), next, addr);
      var i :| 0 <= i < |q| && q[i] == next;
      assert Covers(q[i], next);
    }
  }

  /** r answers next: it is for the same root, and for a side exit if next is for one. */
  ghost predicate Answers(r: Request, next: Request) {
    r.root == next.root && r.trigger != NoTrigger && (next.trigger == SideExit ==> r.trigger == SideExit)
  }

  /** A request changes nothing exactly when one that answers it is being built or waits; and if none did, it waits
      itself from then on. */
  lemma AskedOnce(w: World, next: Request)
    requires Valid(w) && Allowed(w, AskStep(next)) && Known(w.pool, next.root.addr)
    ensures var p, p' := w.pool, Stepped(w, AskStep(next)).pool;
            var addr := next.root.addr;
            var answered := Answers(p.active[addr], next) || exists r :: r in p.pending[addr] && Answers(r, next);
            (p' == p <==> answered) && (!answered ==> next in p'.pending[addr] && next !in p.pending[addr])
  {
    hide QueueOk, Queued, Without;
    var addr := next.root.addr;
    assert FunctionOk(w.pool, w.building, addr);
    if !Covers(w.pool.active[addr], next) && !AnyCovers(w.pool.pending[addr], next) {
      WithoutKeeps(w.pool.pending[addr], next.root, addr);
      QueuedKeeps(Without(w.pool.pending[addr], next.root), next, addr);
      forall r | r in w.pool.pending[addr]
        ensures !Answers(r, next)
      {
        var i :| 0 <= i < |w.pool.pending[addr]| && w.pool.pending[addr][i] == r;
        assert !Covers(w.pool.pending[addr][i], next);
      }
    } else if AnyCovers(w.pool.pending[addr], next) {
      var i :| 0 <= i < |w.pool.pending[addr]| && Covers(w.pool.pending[addr][i], next);
      assert w.pool.pending[addr][i] in w.pool.pending[addr];
    }
  }

  /** A request stays served until the build that covers it ends. */
  lemma ServedStays(w: World, s: Step, r: Request)
    requires Valid(w) && Allowed(w, s) && r.trigger != NoTrigger && Served(w.pool, r)
    requires s.PublishStep? || s.FailStep? ==> s.addr != r.root.addr || !Covers(w.pool.active[r.root.addr], r)
    ensures Served(Stepped(w, s).pool, r)
  {
    hide FunctionOk, QueueOk, Queued, Without, Covers;
    match s
    case ClaimStep(addr) => ClaimServes(w, addr, r);
    case AskStep(next) => AskKeepsServing(w, next, r);
    case PublishStep(_, _, _) =>
    case FailStep(_) =>
    case AttachStep =>
    case DetachStep =>
    case CloseStep =>
  }

  lemma ClaimServes(w: World, addr: int, r: Request)
    requires Valid(w) && Allowed(w, ClaimStep(addr)) && Served(w.pool, r)
    ensures Served(Stepped(w, ClaimStep(addr)).pool, r)
  {
    var p, p' := w.pool, Stepped(w, ClaimStep(addr)).pool;
    assert FunctionOk(p, w.building, addr);
    if r.root.addr == addr && p.state[addr] == Cold {
      var i :| 0 <= i < |p.pending[addr]| && Covers(p.pending[addr][i], r);
      if i > 0 {
        assert p'.pending[addr][i - 1] == p.pending[addr][i];
      }
    }
  }

  /** What a displaced request covered, the one that displaced it covers. */
  lemma AskKeepsServing(w: World, next: Request, r: Request)
    requires Valid(w) && Allowed(w, AskStep(next)) && r.trigger != NoTrigger && Served(w.pool, r)
    ensures Served(Stepped(w, AskStep(next)).pool, r)
  {
    hide QueueOk, Queued, Without;
    var addr := next.root.addr;
    var p, p' := w.pool, Stepped(w, AskStep(next)).pool;
    if p' != p && r.root.addr == addr && !Covers(p.active[addr], r) {
      assert FunctionOk(p, w.building, addr);
      WithoutKeeps(p.pending[addr], next.root, addr);
      QueuedKeeps(Without(p.pending[addr], next.root), next, addr);
      var i :| 0 <= i < |p.pending[addr]| && Covers(p.pending[addr][i], r);
      var prior := p.pending[addr][i];
      var heir := if prior.root == next.root then next else prior;
      assert prior in p.pending[addr];
      assert heir in p'.pending[addr];
      assert !Covers(prior, next);
      var k :| 0 <= k < |p'.pending[addr]| && p'.pending[addr][k] == heir;
      assert Covers(p'.pending[addr][k], r);
    }
  }

  /** A run of the protocol from an empty cache. */
  ghost predicate IsRun(n: nat, steps: seq<Step>, worlds: seq<World>) {
    && |worlds| == |steps| + 1 && worlds[0] == World(Start(n), {}, 0)
    && forall i :: 0 <= i < |steps| ==>
       Sized(worlds[i].pool) && Allowed(worlds[i], steps[i]) && worlds[i + 1] == Stepped(worlds[i], steps[i])
  }

  /** Every state of every run is valid. */
  lemma {:induction false} RunsValid(n: nat, steps: seq<Step>, worlds: seq<World>, i: nat)
    requires IsRun(n, steps, worlds) && i < |worlds|
    ensures Valid(worlds[i])
  {
    hide Valid, Stepped, Allowed;
    if i == 0 {
      StartValid(n);
    } else {
      RunsValid(n, steps, worlds, i - 1);
      StepValid(worlds[i - 1], steps[i - 1]);
    }
  }

  /** The buffers published by the first i steps. */
  ghost function PublishedBy(steps: seq<Step>, i: nat): multiset<int>
    requires i <= |steps|
  {
    if i == 0 then multiset{}
    else PublishedBy(steps, i - 1) +
         (if steps[i - 1].PublishStep? && steps[i - 1].buf.Some? then multiset{steps[i - 1].buf.value} else multiset{})
  }

  /** Every buffer is held or has been freed once, and they are freed exactly when the cache is closed and the
      last member has left. */
  lemma {:induction false} BuffersFreedOnce(n: nat, steps: seq<Step>, worlds: seq<World>, i: nat)
    requires IsRun(n, steps, worlds) && i < |worlds|
    ensures var p := worlds[i].pool;
            && multiset(p.buffers) + multiset(p.freed) == PublishedBy(steps, i)
            && (if p.closed && worlds[i].members == 0 then p.buffers == [] else p.freed == [])
  {
    hide Allowed, FunctionOk;
    RunsValid(n, steps, worlds, i);
    if i > 0 {
      BuffersFreedOnce(n, steps, worlds, i - 1);
      RunsValid(n, steps, worlds, i - 1);
      HeldPlusFreed(worlds[i - 1], steps[i - 1]);
    }
  }

  /** Only publishing and the last release touch the buffers. */
  lemma StepBuffers(w: World, s: Step)
    requires Valid(w) && Allowed(w, s)
    ensures var p, p' := w.pool, Stepped(w, s).pool;
            var added := p.buffers + (if s.PublishStep? && s.buf.Some? then [s.buf.value] else []);
            (p'.buffers == added && p'.freed == p.freed) || (p'.buffers == [] && p'.freed == p.freed + added)
  {
    hide FunctionOk, Entered;
  }

  lemma HeldPlusFreed(w: World, s: Step)
    requires Valid(w) && Allowed(w, s)
    ensures var p, p' := w.pool, Stepped(w, s).pool;
            multiset(p'.buffers) + multiset(p'.freed) ==
              multiset(p.buffers) + multiset(p.freed) + (if s.PublishStep? && s.buf.Some? then multiset{s.buf.value}
                  else multiset{})
  {
    hide FunctionOk, Claimed, Requested, Entered, Finished, Sized;
    var p := w.pool;
    StepBuffers(w, s);
    if s.PublishStep? && s.buf.Some? {
      assert multiset(p.buffers + [s.buf.value]) == multiset(p.buffers) + multiset{s.buf.value};
    }
  }

  /** While a function is being built no second build of it can start. */
  lemma OneBuild(n: nat, steps: seq<Step>, worlds: seq<World>, i: nat, addr: int)
    requires IsRun(n, steps, worlds) && i < |steps| && steps[i] == ClaimStep(addr) && addr in worlds[i].building
    ensures worlds[i + 1] == worlds[i]
  {
    RunsValid(n, steps, worlds, i);
    assert FunctionOk(worlds[i].pool, worlds[i].building, addr);
  }

  /** a waits in front of b. */
  ghost predicate Ahead(q: seq<Request>, a: Request, b: Request) {
    exists i, j :: 0 <= i < j < |q| && q[i] == a && q[j] == b
  }

  /** A new request is queued behind the waiting side exits, and behind hot roots exactly when it is one itself. */
  lemma QueuesBehind(w: World, next: Request)
    requires Valid(w) && Allowed(w, AskStep(next)) && Stepped(w, AskStep(next)).pool != w.pool
    ensures var q := Stepped(w, AskStep(next)).pool.pending[next.root.addr];
            && next in q
            && forall r :: r in q && r != next ==>
                 if r.trigger == SideExit || next.trigger == Hot then Ahead(q, r, next) else Ahead(q, next, r)
  {
    hide QueueOk, Queued, Without, AnyCovers, Exits;
    var addr := next.root.addr;
    assert FunctionOk(w.pool, w.building, addr);
    WithoutKeeps(w.pool.pending[addr], next.root, addr);
    var rest := Without(w.pool.pending[addr], next.root);
    QueuedKeeps(rest, next, addr);
    var n := if next.trigger == SideExit then Exits(rest) else |rest|;
    QueuedIs(rest, next, n);
    ExitsHere(rest, addr);
    InsertedOrder(rest, n, next, Queued(rest, next));
  }

  lemma InsertedOrder(q: seq<Request>, n: nat, x: Request, r: seq<Request>)
    requires Inserted(q, n, x, r)
    requires forall i :: 0 <= i < |q| ==> (i < n <==> q[i].trigger == SideExit || x.trigger != SideExit)
    ensures x in r && forall y :: y in r && y != x ==>
              if y.trigger == SideExit || x.trigger != SideExit then Ahead(r, y, x) else Ahead(r, x, y)
  {
    assert r[n] == x;
    forall y | y in r && y != x
      ensures if y.trigger == SideExit || x.trigger != SideExit then Ahead(r, y, x) else Ahead(r, x, y)
    {
      var k :| 0 <= k < |r| && r[k] == y;
      if k < n {
        assert y == q[k];
      } else {
        assert y == q[k - 1];
      }
    }
  }

  /** A build takes up a side exit whenever one is waiting. */
  lemma ExitsBuiltFirst(w: World, addr: int, r: Request)
    requires Valid(w) && Allowed(w, ClaimStep(addr)) && w.pool.state[addr] == Cold
    requires r in w.pool.pending[addr] && r.trigger == SideExit
    ensures Stepped(w, ClaimStep(addr)).pool.active[addr].trigger == SideExit
  {
    assert FunctionOk(w.pool, w.building, addr);
    assert ExitsFirst(w.pool.pending[addr]);
    var i :| 0 <= i < |w.pool.pending[addr]| && w.pool.pending[addr][i] == r;
  }

  /** A build of a is taken up, or a side exit asked for takes the place of a hot request a or b. */
  ghost predicate GivesWay(w: World, s: Step, addr: int, a: Request, b: Request) {
    match s
    case ClaimStep(x) => x == addr && Known(w.pool, x) && Sized(w.pool) && w.pool.state[x] == Cold &&
        w.pool.pending[x] != []
                         && w.pool.pending[x][0] == a
    case AskStep(next) =>
      next.trigger == SideExit &&
          ((next.root == a.root && a.trigger == Hot) || (next.root == b.root && b.trigger == Hot))
    case _ => false
  }

  /** The order of waiting requests stays, but for a's build or an exit that takes a hot request's place. */
  lemma AheadStays(w: World, s: Step, addr: int, a: Request, b: Request)
    requires Valid(w) && Allowed(w, s) && Known(w.pool, addr) && Ahead(w.pool.pending[addr], a, b)
    ensures Known(Stepped(w, s).pool, addr)
    ensures Ahead(Stepped(w, s).pool.pending[addr], a, b) || GivesWay(w, s, addr, a, b)
    ensures s == ClaimStep(addr) && w.pool.state[addr] == Cold ==> Stepped(w, s).pool.active[addr] != b
  {
    hide QueueOk, Queued, Without, Covers, AnyCovers, Entered;
    assert FunctionOk(w.pool, w.building, addr);
    match s
    case ClaimStep(x) =>
      if x == addr {
        ClaimOrder(w.pool.pending[addr], addr, a, b);
      }
    case AskStep(next) =>
      if next.root.addr == addr && Stepped(w, s).pool != w.pool {
        AskOrder(w, next, a, b);
      }
    case _ =>
  }

  lemma ClaimOrder(q: seq<Request>, addr: int, a: Request, b: Request)
    requires QueueOk(q, addr) && Ahead(q, a, b)
    ensures q != [] && q[0] != b && (q[0] == a || Ahead(q[1..], a, b))
  {
    var i, j :| 0 <= i < j < |q| && q[i] == a && q[j] == b;
    assert q[0].root != q[j].root;
    if i > 0 {
      assert q[1..][i - 1] == a && q[1..][j - 1] == b;
    }
  }

  lemma AskOrder(w: World, next: Request, a: Request, b: Request)
    requires Valid(w) && Allowed(w, AskStep(next)) && Stepped(w, AskStep(next)).pool != w.pool
    requires Ahead(w.pool.pending[next.root.addr], a, b)
    ensures Ahead(Stepped(w, AskStep(next)).pool.pending[next.root.addr], a, b) ||
      GivesWay(w, AskStep(next), next.root.addr, a, b)
  {
    hide QueueOk, Queued, Without, AnyCovers, Exits, Ahead;
    var addr := next.root.addr;
    var q := w.pool.pending[addr];
    assert FunctionOk(w.pool, w.building, addr);
    Displaces(w, next, a, b);
    if a.root != next.root && b.root != next.root {
      WithoutOrder(q, next.root, a, b, addr);
      var rest := Without(q, next.root);
      QueuedIs(rest, next, if next.trigger == SideExit then Exits(rest) else |rest|);
      InsertedAhead(rest, if next.trigger == SideExit then Exits(rest) else |rest|, next, Queued(rest, next), a, b);
    }
  }

  /** What a request that changes anything displaces is a hot one, displaced by an exit. */
  lemma Displaces(w: World, next: Request, a: Request, b: Request)
    requires Valid(w) && Allowed(w, AskStep(next)) && Stepped(w, AskStep(next)).pool != w.pool
    requires Ahead(w.pool.pending[next.root.addr], a, b)
    ensures a.root == next.root || b.root == next.root ==> GivesWay(w, AskStep(next), next.root.addr, a, b)
  {
    hide Queued, Without;
    var q := w.pool.pending[next.root.addr];
    assert FunctionOk(w.pool, w.building, next.root.addr);
    var i, j :| 0 <= i < j < |q| && q[i] == a && q[j] == b;
    assert !Covers(q[i], next) && !Covers(q[j], next);
  }

  lemma WithoutOrder(q: seq<Request>, root: Anchor, a: Request, b: Request, addr: int)
    requires QueueOk(q, addr) && Ahead(q, a, b) && a.root != root && b.root != root
    ensures Ahead(Without(q, root), a, b)
  {
    hide QueueOk, Without;
    if n :| 0 <= n < |q| && q[n].root == root {
      NoEarlier(q, n, addr);
      WithoutAt(q, root, n);
      DeletedAt(q, n);
      DeletedAhead(q, n, Without(q, root), a, b);
    } else {
      WithoutNone(q, root);
    }
  }

  lemma DeletedAhead(q: seq<Request>, n: nat, r: seq<Request>, a: Request, b: Request)
    requires Deleted(q, n, r) && Ahead(q, a, b) && q[n] != a && q[n] != b
    ensures Ahead(r, a, b)
  {
    var i, j :| 0 <= i < j < |q| && q[i] == a && q[j] == b;
    assert r[if i < n then i else i - 1] == a && r[if j < n then j else j - 1] == b;
  }

  lemma InsertedAhead(q: seq<Request>, n: nat, x: Request, r: seq<Request>, a: Request, b: Request)
    requires Inserted(q, n, x, r) && Ahead(q, a, b)
    ensures Ahead(r, a, b)
  {
    var i, j :| 0 <= i < j < |q| && q[i] == a && q[j] == b;
    assert r[if i < n then i else i + 1] == a && r[if j < n then j else j + 1] == b;
  }

  /** Of two requests that wait at the same time the one in front is built first, whatever steps interleave, unless an
      exit takes the place of either. */
  lemma {:induction false} BuiltInOrder(n: nat, steps: seq<Step>, worlds: seq<World>, i: nat, j: nat, addr: int,
                                        a: Request, b: Request)
    requires IsRun(n, steps, worlds) && i <= j < |steps|
    requires Sized(worlds[i].pool) && Known(worlds[i].pool, addr) && Ahead(worlds[i].pool.pending[addr], a, b)
    requires forall k :: i <= k < j ==> !GivesWay(worlds[k], steps[k], addr, a, b)
    ensures Valid(worlds[j]) && Known(worlds[j].pool, addr) && Ahead(worlds[j].pool.pending[addr], a, b)
    ensures steps[j] == ClaimStep(addr) && worlds[j].pool.state[addr] == Cold ==> worlds[j + 1].pool.active[addr] != b
  {
    hide Valid, Stepped, Allowed, GivesWay, Ahead;
    RunsValid(n, steps, worlds, j);
    if i < j {
      BuiltInOrder(n, steps, worlds, i, j - 1, addr, a, b);
      AheadStays(worlds[j - 1], steps[j - 1], addr, a, b);
    }
    AheadStays(worlds[j], steps[j], addr, a, b);
  }
}
