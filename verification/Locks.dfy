/**
  The locks of the agent: the registry's reader-writer lock, the coordinator's lock, one
  lock per app for its manager cache, one per manager. Each command and each exit callback
  acquires and releases them in a fixed pattern; however they interleave, none of them can
  block all of them for ever.
 */
module Locks {
  import opened Common

  datatype Lock = Registry | Coordinator | Cache(app: string) | Manager(app: string, name: string)
  datatype Mode = Read | Write
  datatype Op = Acquire(lock: Lock, mode: Mode) | Release(lock: Lock)

  function Rank(l: Lock): (r: nat)
    ensures r <= 3
  {
    match l
    case Registry => 0
    case Coordinator => 1
    case Cache(_) => 2
    case Manager(_, _) => 3
  }

  // ---------------------------------------------------------------- what the code does

  /** One critical section: enter the lock, leave it. */
  datatype Use = Use(lock: Lock, mode: Mode)

  /** How far GetOrCreate and the call after it come: a bad name, a path outside, or the manager. */
  datatype Reach = BadName | Outside | Served

  /** The same for DeleteInstance: refused before it looks for the manager, no manager, or one to ask. */
  datatype Asking = Refused | NoManager | Asked

  /** Agent entry points, with the data that decides which locks they take and where they stop. */
  datatype Command =
    | ListApps
    | RegisterApp(valid: bool, added: bool)
    | UnregisterApp(app: string, asked: Option<seq<string>>, running: bool, known: bool)
    | ListInstances(app: string, known: bool, found: seq<(string, Reach)>)
    | CreateInstance(app: string, known: bool)
    | DeleteInstance(app: string, known: bool, name: string, asking: Asking)
    | OnInstance(app: string, known: bool, name: string, reach: Reach)    // Start, Stop, Status
    | GetDefaultManagers(apps: seq<string>)
    | ExitCallback(app: string, name: string, sleeps: bool)

  /** Get and then EnsureScope, which a command on an unknown app does not reach. */
  function FindScope(known: bool): seq<Use> {
    [Use(Registry, Read)] + if known then [Use(Coordinator, Write)] else []
  }

  /** GetOrCreate, and a call of the manager. */
  function Instance(app: string, name: string, reach: Reach): seq<Use> {
    match reach
    case BadName => []
    case Outside => [Use(Cache(app), Write)]
    case Served => [Use(Cache(app), Write), Use(Manager(app, name), Write)]
  }

  function EachInstance(app: string, found: seq<(string, Reach)>): seq<Use> {
    if found == [] then [] else Instance(app, found[0].0, found[0].1) + EachInstance(app, found[1..])
  }

  /** One manager lock after the other: GetAll().Values.Any(m => m.IsRunning). */
  function EachManager(app: string, names: seq<string>): (us: seq<Use>)
    ensures forall i | 0 <= i < |us| :: us[i].lock.Manager?
  {
    if names == [] then [] else [Use(Manager(app, names[0]), Write)] + EachManager(app, names[1..])
  }

  /** EachManager after the cache lock, or nothing: the question UnregisterApp asks first. */
  function RunningCheck(app: string, asked: Option<seq<string>>): (us: seq<Use>)
    ensures forall i | 0 <= i < |us| :: us[i].lock.Cache? || us[i].lock.Manager?
  {
    match asked
    case None => []
    case Some(names) => [Use(Cache(app), Write)] + EachManager(app, names)
  }

  function EachDefault(apps: seq<string>): seq<Use> {
    if apps == [] then []
    else [Use(Coordinator, Write), Use(Cache(apps[0]), Write)] + EachDefault(apps[1..])
  }

  /** The critical sections of a command that holds no lock between them. */
  function Uses(c: Command): seq<Use> {
    match c
    case ListApps => [Use(Registry, Read)]
    case RegisterApp(valid, added) =>
      if !valid then []
      else [Use(Registry, Write)] + if added then [Use(Coordinator, Write)] else []
    case UnregisterApp(_, _, running, known) =>
      if running then []
      else [Use(Registry, Write)] + if known then [Use(Coordinator, Write)] else []
    case ListInstances(app, known, found) => FindScope(known) + if known then EachInstance(app, found) else []
    case CreateInstance(_, known) => FindScope(known)
    case DeleteInstance(app, known, name, asking) =>
      FindScope(known) +
      (if !known || asking.Refused? then []
       else Instance(app, name, if asking.Asked? then Served else Outside))
    case OnInstance(app, known, name, reach) => FindScope(known) + if known then Instance(app, name, reach) else []
    case GetDefaultManagers(apps) => [Use(Registry, Read)] + EachDefault(apps)
    case ExitCallback(app, name, sleeps) =>
      [Use(Manager(app, name), Write)] + if sleeps then [Use(Manager(app, name), Write)] else []
  }

  function Sections(us: seq<Use>): seq<Op> {
    if us == [] then []
    else [Acquire(us[0].lock, us[0].mode), Release(us[0].lock)] + Sections(us[1..])
  }

  /** UnregisterApp alone nests: it asks the managers under the coordinator's lock. */
  function Program(c: Command): seq<Op> {
    if c.UnregisterApp? then
      [Acquire(Coordinator, Write)] + Sections(RunningCheck(c.app, c.asked)) + [Release(Coordinator)] + Sections(Uses(c))
    else Sections(Uses(c))
  }

  /** A thread's work: any commands one after the other. */
  function Work(cs: seq<Command>): seq<Op> {
    if cs == [] then [] else Program(cs[0]) + Work(cs[1..])
  }

  // ---------------------------------------------------------------- one strict order

  /** Holding `held`, every acquisition of the rest is above all it holds, and all is released. */
  predicate Ordered(held: set<Lock>, rest: seq<Op>)
    decreases |rest|
  {
    if rest == [] then held == {}
    else match rest[0]
      case Acquire(l, _) => (forall h | h in held :: Rank(h) < Rank(l)) && Ordered(held + {l}, rest[1..])
      case Release(l) => l in held && Ordered(held - {l}, rest[1..])
  }

  /** One critical section after the other, inside what is held. */
  lemma {:induction false} SectionsOrdered(held: set<Lock>, us: seq<Use>, tail: seq<Op>)
    requires Ordered(held, tail)
    requires forall i, h | 0 <= i < |us| && h in held :: Rank(h) < Rank(us[i].lock)
    ensures Ordered(held, Sections(us) + tail)
    decreases |us|
  {
    if us == [] {
      assert Sections(us) + tail == tail;
    } else {
      SectionsOrdered(held, us[1..], tail);
      SectionFirst(held, us[0], Sections(us[1..]) + tail);
      assert Sections(us) + tail == [Acquire(us[0].lock, us[0].mode), Release(us[0].lock)] + (Sections(us[1..]) + tail);
    }
  }

  lemma SectionFirst(held: set<Lock>, u: Use, tail: seq<Op>)
    requires Ordered(held, tail) && forall h | h in held :: Rank(h) < Rank(u.lock)
    ensures Ordered(held, [Acquire(u.lock, u.mode), Release(u.lock)] + tail)
  {
    var ops := [Acquire(u.lock, u.mode), Release(u.lock)] + tail;
    assert ops[1..] == [Release(u.lock)] + tail && ops[1..][1..] == tail;
    assert u.lock !in held;
    assert held + {u.lock} - {u.lock} == held;
    assert Ordered(held + {u.lock}, ops[1..]);
  }

  /** A lock around sections that may assume it. */
  lemma HeldAround(l: Lock, m: Mode, us: seq<Use>, tail: seq<Op>)
    requires Ordered({}, tail) && forall i | 0 <= i < |us| :: Rank(l) < Rank(us[i].lock)
    ensures Ordered({}, [Acquire(l, m)] + (Sections(us) + ([Release(l)] + tail)))
  {
    var last := [Release(l)] + tail;
    assert last[0] == Release(l) && last[1..] == tail && {l} - {l} == {};
    SectionsOrdered({l}, us, last);
    var all := [Acquire(l, m)] + (Sections(us) + last);
    assert all[0] == Acquire(l, m) && all[1..] == Sections(us) + last && {} + {l} == {l};
  }

  lemma Regroup(a: seq<Op>, b: seq<Op>, c: seq<Op>, d: seq<Op>, tail: seq<Op>)
    ensures a + b + c + d + tail == a + (b + (c + (d + tail)))
  {
  }

  /** Every command, wherever it stops, follows the order, whatever follows it. */
  lemma ProgramOrdered(c: Command, tail: seq<Op>)
    requires Ordered({}, tail)
    ensures Ordered({}, Program(c) + tail)
  {
    SectionsOrdered({}, Uses(c), tail);
    if c.UnregisterApp? {
      var check := RunningCheck(c.app, c.asked);
      HeldAround(Coordinator, Write, check, Sections(Uses(c)) + tail);
      Regroup([Acquire(Coordinator, Write)], Sections(check), [Release(Coordinator)], Sections(Uses(c)), tail);
    }
  }

  lemma {:induction false} WorkOrdered(cs: seq<Command>)
    ensures Ordered({}, Work(cs))
    decreases |cs|
  {
    if cs != [] {
      WorkOrdered(cs[1..]);
      ProgramOrdered(cs[0], Work(cs[1..]));
    }
  }

  // ---------------------------------------------------------------- all threads together

  /** A thread: the locks it holds, in which mode, and what it has still to do. */
  datatype Thread = Thread(held: map<Lock, Mode>, rest: seq<Op>)

  /** Thread j holds the lock that thread i wants, and not both are readers. */
  predicate HoldsUp(ts: seq<Thread>, j: nat, i: nat)
    requires i < |ts| && j < |ts|
  {
    i != j && ts[i].rest != [] && ts[i].rest[0].Acquire? &&
    ts[i].rest[0].lock in ts[j].held &&
    (ts[i].rest[0].mode == Write || ts[j].held[ts[i].rest[0].lock] == Write)
  }

  /** Thread i would read what thread j stands waiting to write: new readers queue behind it. */
  predicate QueuesBefore(ts: seq<Thread>, j: nat, i: nat)
    requires i < |ts| && j < |ts|
  {
    i != j && ts[i].rest != [] && ts[i].rest[0].Acquire? && ts[i].rest[0].mode == Read &&
    ts[j].rest != [] && ts[j].rest[0] == Acquire(ts[i].rest[0].lock, Write)
  }

  /** Thread j keeps thread i from its next acquisition. */
  predicate Blocks(ts: seq<Thread>, j: nat, i: nat)
    requires i < |ts| && j < |ts|
  {
    HoldsUp(ts, j, i) || QueuesBefore(ts, j, i)
  }

  /** Thread i can move, however many writers wait. */
  ghost predicate CanStep(ts: seq<Thread>, i: nat)
    requires i < |ts|
  {
    ts[i].rest != [] && forall j | 0 <= j < |ts| :: !Blocks(ts, j, i)
  }

  /** Thread i may move: a writer that is about to wait need not have queued yet. */
  ghost predicate MayStep(ts: seq<Thread>, i: nat)
    requires i < |ts|
  {
    ts[i].rest != [] && forall j | 0 <= j < |ts| :: !HoldsUp(ts, j, i)
  }

  function Step(ts: seq<Thread>, i: nat): seq<Thread>
    requires i < |ts| && ts[i].rest != []
  {
    var t := ts[i];
    ts[i := match t.rest[0]
            case Acquire(l, m) => Thread(t.held[l := m], t.rest[1..])
            case Release(l) => Thread(t.held - {l}, t.rest[1..])]
  }

  /** A schedule: which thread moves next, each move possible when it is made. */
  ghost predicate Schedule(ts: seq<Thread>, moves: seq<nat>)
    decreases |moves|
  {
    moves == [] ||
    (moves[0] < |ts| && MayStep(ts, moves[0]) && Schedule(Step(ts, moves[0]), moves[1..]))
  }

  ghost function After(ts: seq<Thread>, moves: seq<nat>): seq<Thread>
    requires Schedule(ts, moves)
    decreases |moves|
  {
    if moves == [] then ts else After(Step(ts, moves[0]), moves[1..])
  }

  ghost predicate Start(ts: seq<Thread>) {
    forall i | 0 <= i < |ts| :: ts[i].held == map[] && exists cs :: ts[i].rest == Work(cs)
  }

  ghost predicate Inv(ts: seq<Thread>) {
    forall i | 0 <= i < |ts| :: Ordered(ts[i].held.Keys, ts[i].rest)
  }

  lemma InvStep(ts: seq<Thread>, i: nat)
    requires Inv(ts) && i < |ts| && ts[i].rest != []
    ensures Inv(Step(ts, i))
  {
    var t := ts[i];
    match t.rest[0] {
      case Acquire(l, m) => assert t.held[l := m].Keys == t.held.Keys + {l};
      case Release(l) => assert (t.held - {l}).Keys == t.held.Keys - {l};
    }
  }

  lemma {:induction false} InvAfter(ts: seq<Thread>, moves: seq<nat>)
    requires Inv(ts) && Schedule(ts, moves)
    ensures Inv(After(ts, moves)) && |After(ts, moves)| == |ts|
    decreases |moves|
  {
    if moves != [] {
      InvStep(ts, moves[0]);
      InvAfter(Step(ts, moves[0]), moves[1..]);
    }
  }

  /** The order in which waits ascend: by lock, and a writer above the readers of its lock. */
  function Level(op: Op): (n: nat)
    requires op.Acquire?
    ensures n <= 7
  {
    2 * Rank(op.lock) + if op.mode == Write then 1 else 0
  }

  /** No lock is held by a writer and anyone else. */
  ghost predicate Exclusive(ts: seq<Thread>) {
    forall i, j, l | 0 <= i < |ts| && 0 <= j < |ts| && i != j && l in ts[i].held && l in ts[j].held ::
      ts[i].held[l] == Read && ts[j].held[l] == Read
  }

  lemma ExclusiveStep(ts: seq<Thread>, k: nat)
    requires Exclusive(ts) && k < |ts| && MayStep(ts, k)
    ensures Exclusive(Step(ts, k))
  {
    var after := Step(ts, k);
    forall i, j, l | 0 <= i < |ts| && 0 <= j < |ts| && i != j && l in after[i].held && l in after[j].held
      ensures after[i].held[l] == Read && after[j].held[l] == Read
    {
      assert !HoldsUp(ts, i, k) && !HoldsUp(ts, j, k);
    }
  }

  /** Mutual exclusion: whatever the threads run and however they interleave. */
  lemma {:induction false} MutualExclusion(ts: seq<Thread>, moves: seq<nat>)
    requires Exclusive(ts) && Schedule(ts, moves)
    ensures Exclusive(After(ts, moves))
    decreases |moves|
  {
    if moves != [] {
      ExclusiveStep(ts, moves[0]);
      MutualExclusion(Step(ts, moves[0]), moves[1..]);
    }
  }

  /** A thread that blocks another is unfinished, and if it waits itself, it waits higher up. */
  lemma BlockerIsHigher(ts: seq<Thread>, j: nat, i: nat)
    requires Inv(ts) && i < |ts| && j < |ts| && Blocks(ts, j, i)
    ensures ts[j].rest != []
    ensures ts[j].rest[0].Acquire? ==> Level(ts[i].rest[0]) < Level(ts[j].rest[0])
    ensures ts[j].rest[0].Acquire? && HoldsUp(ts, j, i) ==> Rank(ts[i].rest[0].lock) < Rank(ts[j].rest[0].lock)
  {
    assert Ordered(ts[j].held.Keys, ts[j].rest);
    if HoldsUp(ts, j, i) {
      assert ts[i].rest[0].lock in ts[j].held.Keys;
    }
  }

  /** Following blockers from any unfinished thread leads to one that can move. */
  lemma {:induction false} SomeoneCanStep(ts: seq<Thread>, i: nat) returns (k: nat)
    requires Inv(ts) && i < |ts| && ts[i].rest != []
    ensures k < |ts| && CanStep(ts, k)
    decreases if ts[i].rest[0].Acquire? then 8 - Level(ts[i].rest[0]) else 0
  {
    if CanStep(ts, i) {
      k := i;
    } else {
      var j: nat :| j < |ts| && Blocks(ts, j, i);
      BlockerIsHigher(ts, j, i);
      k := SomeoneCanStep(ts, j);
    }
  }

  /** Each blocks the one before it. */
  ghost predicate WaitChain(ts: seq<Thread>, chain: seq<nat>) {
    (forall c | 0 <= c < |chain| :: chain[c] < |ts|) &&
    forall c | 0 <= c < |chain| - 1 :: Blocks(ts, chain[c + 1], chain[c])
  }

  lemma {:induction false} WaitsAscend(ts: seq<Thread>, chain: seq<nat>)
    requires Inv(ts) && WaitChain(ts, chain) && |chain| >= 2
    requires ts[chain[|chain| - 1]].rest != [] && ts[chain[|chain| - 1]].rest[0].Acquire?
    ensures ts[chain[0]].rest != [] && ts[chain[0]].rest[0].Acquire?
    ensures Level(ts[chain[0]].rest[0]) < Level(ts[chain[|chain| - 1]].rest[0])
    decreases |chain|
  {
    var last := |chain| - 1;
    assert Blocks(ts, chain[last - 1 + 1], chain[last - 1]);
    BlockerIsHigher(ts, chain[last], chain[last - 1]);
    if |chain| > 2 {
      WaitsAscend(ts, chain[..last]);
    }
  }

  /** The wait-for graph never has a cycle. */
  lemma NoCycle(ts: seq<Thread>, moves: seq<nat>, chain: seq<nat>)
    requires Start(ts) && Schedule(ts, moves) && WaitChain(After(ts, moves), chain) && |chain| >= 2
    ensures chain[0] != chain[|chain| - 1]
  {
    StartInv(ts);
    InvAfter(ts, moves);
    var now := After(ts, moves);
    assert Blocks(now, chain[0 + 1], chain[0]);
    if chain[0] == chain[|chain| - 1] {
      WaitsAscend(now, chain);
    }
  }

  lemma StartInv(ts: seq<Thread>)
    requires Start(ts)
    ensures Inv(ts)
  {
    forall i | 0 <= i < |ts|
      ensures Ordered(ts[i].held.Keys, ts[i].rest)
    {
      var cs :| ts[i].rest == Work(cs);
      WorkOrdered(cs);
      assert ts[i].held.Keys == {};
    }
  }

  /**
    Deadlock freedom: any number of threads run any commands and exit callbacks, in any
    interleaving; as long as one of them is unfinished, one of them can move.
   */
  lemma NoDeadlock(ts: seq<Thread>, moves: seq<nat>, i: nat)
    requires Start(ts) && Schedule(ts, moves)
    requires i < |After(ts, moves)| && After(ts, moves)[i].rest != []
    ensures exists k :: 0 <= k < |After(ts, moves)| && CanStep(After(ts, moves), k)
  {
    StartInv(ts);
    InvAfter(ts, moves);
    var k := SomeoneCanStep(After(ts, moves), i);
  }
}
