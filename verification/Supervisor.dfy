/**
  ProcessManagerService over a shared operating system. Every method body is one critical
  section of the manager's lock. Wherever the source touches a process, `Others` lets all
  other parties take any legal steps first; a method is correct when its own steps are
  legal too, so its object always stands at the end of a legal run of the state machine.
 */
module Supervisor {
  import opened Common
  import opened FileTree
  import opened Supervision
  import opened SupervisionRuns

  /**
    The process table with its history. When `benign` holds, scans are complete, kills,
    adoptions and launches of an executable that is there succeed, and nobody else acts
    during a call.
   */
  class OperatingSystem {
    var world: World
    const benign: bool
    ghost const origin: World
    ghost var trace: seq<Step>

    /**
      The world stands at the end of the history, which is a legal run. The quantifier only
      keeps callers from unfolding the run; `History` opens it.
     */
    ghost predicate Valid()
      reads this
    {
      forall i: nat :: StandsAt(i)
    }

    ghost predicate StandsAt(i: nat)
      reads this
    {
      i == |trace| ==> Initial(origin) && Legal(origin, trace) && world == Run(origin, trace)
    }

    lemma History()
      requires Valid()
      ensures Initial(origin) && Legal(origin, trace) && world == Run(origin, trace)
    {
      assert StandsAt(|trace|);
    }

    /** Whatever was made in the history is a manager now. */
    lemma MadeAreManagers()
      requires Valid()
      ensures forall c | 0 <= c < |trace| && trace[c].Create? :: trace[c].id in world.managers
    {
      History();
      AtEnd(origin, trace);
      forall c | 0 <= c < |trace| && trace[c].Create?
        ensures trace[c].id in world.managers
      {
        StaysAsMade(origin, trace, c, |trace|, trace[c].id, trace[c].exe, trace[c].home);
      }
    }

    lemma InvNow()
      requires Valid()
      ensures Inv(world)
    {
      History();
      InvAt(origin, trace, |trace|);
      AtEnd(origin, trace);
    }

    lemma FilesAreTree()
      requires Valid()
      ensures WellFormed(world.files)
    {
      History();
      FilesAt(origin, trace, |trace|);
      AtEnd(origin, trace);
    }

    constructor (start: World, benign: bool)
      requires Initial(start)
      ensures Valid() && world == start && trace == [] && this.benign == benign
    {
      world, this.benign := start, benign;
      origin, trace := start, [];
    }

    /** One step, taken by whoever owns it. */
    method Do(s: Step)
      requires Valid() && Enabled(world, s)
      modifies this
      ensures Valid() && world == Apply(old(world), s) && trace == old(trace) + [s]
    {
      History();
      RunConcat(origin, trace, [s]);
      assert [s][1..] == [];
      assert Legal(world, [s]) && Run(world, [s]) == Run(Apply(world, s), []);
      world := Apply(world, s);
      trace := trace + [s];
    }

    /** Any number of legal steps by anyone but manager `me`. */
    method Others(me: Id)
      requires Valid() && me in world.managers
      modifies this
      ensures Valid() && me in world.managers && world.managers[me] == old(world.managers[me])
      ensures Later(old(world.table), world.table)
      ensures NotBy(old(trace), trace, me)
      ensures benign ==> world == old(world)
    {
      var steps: seq<Step> := *;
      if !benign && Legal(world, steps) && forall s | s in steps :: Owner(s) != Some(me) {
        History();
        RunConcat(origin, trace, steps);
        InitialInv(origin);
        InvRun(origin, trace);
        InvRun(world, steps);
        Untouched(world, steps, me);
        world := Run(world, steps);
        trace := trace + steps;
      }
    }

    /** Process.GetProcessesByName: a snapshot, which may miss processes, or an exception. */
    method Processes() returns (found: Option<seq<Pid>>)
      ensures found.Some? ==> forall p | p in found.value :: p in world.table
      ensures benign ==> found.Some? && forall p | Alive(world.table, p) :: p in found.value
    {
      var fails: bool := *;
      if fails && !benign {
        return None;
      }
      var list: seq<Pid> := [];
      var rest := world.table.Keys;
      while rest != {}
        invariant rest <= world.table.Keys
        invariant forall p | p in list :: p in world.table
        invariant benign ==> forall p | Alive(world.table, p) && p !in rest :: p in list
        decreases rest
      {
        var p :| p in rest;
        rest := rest - {p};
        var missed: bool := *;
        if world.table[p].alive && (benign || !missed) {
          list := list + [p];
        }
      }
      found := Some(list);
    }

    /** p.MainModule?.FileName: nothing for a process that is gone or denies access. */
    method ModulePath(p: Pid) returns (path: Option<Exe>)
      requires p in world.table
      ensures path.Some? ==> Alive(world.table, p) && path.value == world.table[p].exe
      ensures benign && Alive(world.table, p) ==> path.Some?
    {
      var denied: bool := *;
      path := if world.table[p].alive && (benign || !denied) then Some(world.table[p].exe) else None;
    }

    /** p.Kill(entireProcessTree: true): which processes of the tree die, and whether it throws. */
    method KillTree(p: Pid) returns (victims: set<Pid>, ok: bool)
      requires p in world.table
      ensures forall v | v in victims :: Descends(world.table, v, p)
      ensures benign ==> ok && forall v | v in world.table && Descends(world.table, v, p) :: v in victims
    {
      var tree := set v | v in world.table && Descends(world.table, v, p);
      var spared: set<Pid> := *;
      var throws: bool := *;
      if benign {
        victims, ok := tree, true;
      } else {
        victims, ok := tree - spared, !throws;
      }
    }

    method FreshPid() returns (p: Pid)
      ensures p !in world.table
    {
      p := Unused(world.table.Keys);
    }

    method FreshId() returns (n: Id)
      ensures n !in world.managers
    {
      n := Unused(world.managers.Keys);
    }
  }

  method Unused(taken: set<nat>) returns (n: nat)
    ensures n !in taken
  {
    n := 0;
    var rest := taken;
    while rest != {}
      invariant rest <= taken
      invariant forall q | q in taken && q !in rest :: q < n
      decreases rest
    {
      var q :| q in rest;
      rest := rest - {q};
      if n <= q {
        n := q + 1;
      }
    }
  }

  /** `after` continues `before` with no step of manager `me`. */
  ghost predicate NotBy(before: seq<Step>, after: seq<Step>, me: Id) {
    before <= after && forall i | |before| <= i < |after| :: Owner(after[i]) != Some(me)
  }

  /** `after` continues `before`, and `me` only adopted or evicted in between. */
  ghost predicate ScansBy(before: seq<Step>, after: seq<Step>, me: Id) {
    before <= after &&
    forall i | |before| <= i < |after| && Owner(after[i]) == Some(me) ::
      after[i].Adopt? || after[i].AdoptFails? || after[i].KillDuplicate?
  }

  /** `after` continues `before` with the Begin of a call of `me` and steps that such a call takes. */
  ghost predicate CallSoFar(before: seq<Step>, after: seq<Step>, me: Id, call: Call) {
    && before < after && after[|before|] == Begin(me, call)
    && forall i | |before| < i < |after| && Owner(after[i]) == Some(me) ::
         after[i].Adopt? || after[i].AdoptFails? || after[i].KillDuplicate? ||
         (call == Start && after[i].Clear?) || (call == Stop && (after[i].Mark? || after[i].KillTracked?))
  }

  /** One whole call of `me`: the last step is the one that gives the answer. */
  ghost predicate CallBy(before: seq<Step>, after: seq<Step>, me: Id, call: Call, reply: ProcessReply) {
    after != [] && CallSoFar(before, after[..|after| - 1], me, call) &&
    Owner(after[|after| - 1]) == Some(me) && Answer(after[|after| - 1]) == Some(reply)
  }

  lemma CallGoesOn(before: seq<Step>, mid: seq<Step>, after: seq<Step>, me: Id, call: Call)
    requires CallSoFar(before, mid, me, call) && (NotBy(mid, after, me) || ScansBy(mid, after, me))
    ensures CallSoFar(before, after, me, call)
  {
  }

  lemma {:induction false} Untouched(w: World, steps: seq<Step>, me: Id)
    requires Legal(w, steps) && me in w.managers
    requires forall s | s in steps :: Owner(s) != Some(me)
    ensures me in Run(w, steps).managers && Run(w, steps).managers[me] == w.managers[me]
    decreases |steps|
  {
    if steps != [] {
      assert steps[0] in steps;
      Untouched(Apply(w, steps[0]), steps[1..], me);
    }
  }

  /** Nobody but `me` acted, as far as managers and files show. */
  ghost predicate Alone(w: World, v: World, me: Id) {
    v.files == w.files && forall k | k in w.managers && k != me :: k in v.managers && v.managers[k] == w.managers[k]
  }

  /** No copy of the executable is a descendant of another one. */
  ghost predicate Flat(t: Table, exe: Exe) {
    forall p, q | p in Copies(t, exe) && q in Copies(t, exe) && p != q :: !Descends(t, p, q)
  }

  ghost predicate OnlyDeaths(t: Table, u: Table) {
    Later(t, u) && u.Keys == t.Keys
  }

  /** Killing processes does not change whose descendant anyone is. */
  lemma {:induction false} DescendsStays(t: Table, u: Table, p: Pid, root: Pid)
    requires OnlyDeaths(t, u)
    ensures Descends(u, p, root) == Descends(t, p, root)
    decreases p
  {
    if p != root && p in t && t[p].parent.Some? && t[p].parent.value < p {
      DescendsStays(t, u, t[p].parent.value, root);
    }
  }

  /** Whoever died belonged to the tree of a live copy of the executable other than those spared. */
  ghost predicate OnlyTreesDied(t: Table, u: Table, exe: Exe, spared: set<Pid>) {
    forall p | Alive(t, p) && !Alive(u, p) :: InTreeOfCopy(t, p, exe, spared)
  }

  ghost predicate InTreeOfCopy(t: Table, p: Pid, exe: Exe, spared: set<Pid>) {
    exists root :: root in Copies(t, exe) && root !in spared && Descends(t, p, root)
  }

  lemma OnlyTreesDiedTwice(t: Table, u: Table, v: Table, exe: Exe, spared: set<Pid>)
    requires OnlyDeaths(t, u) && OnlyTreesDied(t, u, exe, spared) && OnlyTreesDied(u, v, exe, spared)
    ensures OnlyTreesDied(t, v, exe, spared)
  {
    forall p | Alive(t, p) && !Alive(v, p)
      ensures InTreeOfCopy(t, p, exe, spared)
    {
      if Alive(u, p) {
        var root :| root in Copies(u, exe) && root !in spared && Descends(u, p, root);
        DescendsStays(t, u, p, root);
        assert root in Copies(t, exe);
      }
    }
  }

  lemma FewerSpared(t: Table, u: Table, exe: Exe, spared: set<Pid>, fewer: set<Pid>)
    requires OnlyTreesDied(t, u, exe, spared) && fewer <= spared
    ensures OnlyTreesDied(t, u, exe, fewer)
  {
    forall p | Alive(t, p) && !Alive(u, p)
      ensures InTreeOfCopy(t, p, exe, fewer)
    {
      var root :| root in Copies(t, exe) && root !in spared && Descends(t, p, root);
    }
  }

  /** Everything in the process tree of root is dead. */
  ghost predicate TreeEnded(t: Table, u: Table, root: Pid) {
    forall q | Alive(t, q) && Descends(t, q, root) :: !Alive(u, q)
  }

  /** No copy of the executable died without its whole process tree, but for those excepted. */
  ghost predicate TreesEnded(t: Table, u: Table, exe: Exe, but: set<Pid>) {
    forall c | c in Copies(t, exe) && c !in Copies(u, exe) && c !in but :: TreeEnded(t, u, c)
  }

  /** Whoever was there is as before; others may have appeared. */
  ghost predicate OnlyNewcomers(t: Table, u: Table) {
    forall p | p in t :: p in u && u[p] == t[p]
  }

  lemma {:induction false} DescendsFurther(t: Table, p: Pid, q: Pid, root: Pid)
    requires Descends(t, p, q) && Descends(t, q, root)
    ensures Descends(t, p, root)
    decreases p
  {
    if p != q {
      DescendsFurther(t, t[p].parent.value, q, root);
    }
  }

  lemma TreeWithSubtrees(t: Table, u: Table, exe: Exe, root: Pid)
    requires TreeEnded(t, u, root)
    requires forall c | c in Copies(t, exe) && c !in Copies(u, exe) :: Descends(t, c, root)
    ensures TreesEnded(t, u, exe, {})
  {
    forall c, q | c in Copies(t, exe) && c !in Copies(u, exe) && Alive(t, q) && Descends(t, q, c)
      ensures !Alive(u, q)
    {
      DescendsFurther(t, q, c, root);
    }
  }

  lemma TreesEndedTwice(t: Table, u: Table, v: Table, exe: Exe, but: set<Pid>)
    requires OnlyDeaths(t, u) && OnlyDeaths(u, v) && TreesEnded(t, u, exe, {}) && TreesEnded(u, v, exe, but)
    ensures TreesEnded(t, v, exe, but)
  {
    forall c, q | c in Copies(t, exe) && c !in Copies(v, exe) && c !in but && Alive(t, q) && Descends(t, q, c)
      ensures !Alive(v, q)
    {
      DescendsStays(t, u, q, c);
      assert c !in Copies(u, exe) ==> TreeEnded(t, u, c);
      assert c in Copies(u, exe) ==> TreeEnded(u, v, c);
    }
  }

  lemma TreesEndedThenMore(t: Table, u: Table, v: Table, exe: Exe)
    requires OnlyDeaths(t, u) && OnlyNewcomers(u, v) && TreesEnded(t, u, exe, {})
    ensures TreesEnded(t, v, exe, {})
  {
    forall c, q | c in Copies(t, exe) && c !in Copies(v, exe) && Alive(t, q) && Descends(t, q, c)
      ensures !Alive(v, q)
    {
      assert c !in Copies(u, exe) && TreeEnded(t, u, c);
    }
  }

  /** The tracked process ended by itself, as its close request asked it to. */
  ghost predicate Closed(before: seq<Step>, after: seq<Step>, p: Pid) {
    exists i :: |before| <= i < |after| && after[i] == Die(p)
  }

  lemma TreeKilled(t: Table, victims: set<Pid>, exe: Exe, root: Pid, spared: set<Pid>)
    requires root in Copies(t, exe) && root !in spared && forall v | v in victims :: Descends(t, v, root)
    ensures OnlyTreesDied(t, Killed(t, victims), exe, spared) && OnlyDeaths(t, Killed(t, victims))
  {
    forall p | Alive(t, p) && !Alive(Killed(t, victims), p)
      ensures InTreeOfCopy(t, p, exe, spared)
    {
      assert p in victims;
    }
  }

  /** In a flat table the eviction of one duplicate cannot hit another copy. */
  lemma OthersSurvive(start: Table, t: Table, u: Table, exe: Exe, tracked: Pid, p: Pid)
    requires Flat(start, exe) && OnlyDeaths(start, t)
    requires tracked in Copies(t, exe) && p != tracked
    requires tracked in Copies(u, exe) || (p in Copies(t, exe) && Descends(t, tracked, p))
    ensures tracked in Copies(u, exe)
  {
    DescendsStays(start, t, tracked, p);
    assert tracked in Copies(start, exe);
    assert p in Copies(t, exe) ==> p in Copies(start, exe);
  }

  class ProcessManagerService {
    const os: OperatingSystem
    const id: Id
    const exe: Exe
    const home: Path
    var managedProcess: Handle
    var intentionalStop: bool

    /** The fields agree with the state machine, whose lock for this manager is at `op`. */
    ghost predicate Holds(op: Operation)
      reads this, os
    {
      os.Valid() && id in os.world.managers &&
      var m := os.world.managers[id];
      && m.exe == exe && m.home == home && m.handle == managedProcess && m.intentional == intentionalStop && m.op == op
      && (managedProcess.Attached? ==>
            managedProcess.pid in os.world.table && os.world.table[managedProcess.pid].exe == exe)
    }

    ghost predicate Valid()
      reads this, os
    {
      Holds(Idle)
    }

    /** The live processes that run this manager's executable. */
    ghost function LiveCopies(): set<Pid>
      reads this, os
    {
      Copies(os.world.table, exe)
    }

    /** The tracked process, if it lives. */
    ghost function Tracked(): set<Pid>
      reads this, os
    {
      if Exited(os.world.table, managedProcess) then {} else {managedProcess.pid}
    }

    /** The process that an eviction leaves alone. */
    ghost function Spared(): set<Pid>
      reads this
    {
      if managedProcess.Attached? then {managedProcess.pid} else {}
    }

    /** On a benign system, what a call has ended so far. */
    ghost predicate Ended(before: Table, spared: set<Pid>)
      reads this, os
    {
      os.benign ==> OnlyTreesDied(before, os.world.table, exe, spared)
    }

    /** On a benign system, whatever copy was killed so far is gone with its tree. */
    ghost predicate Cleared(before: Table)
      reads this, os
    {
      os.benign ==> TreesEnded(before, os.world.table, exe, {})
    }

    constructor (os: OperatingSystem, exe: Exe, home: Path)
      requires os.Valid()
      modifies os
      ensures Valid() && this.os == os && this.exe == exe && this.home == home
      ensures managedProcess == Absent && !intentionalStop
      ensures id !in old(os.world.managers) && os.trace == old(os.trace) + [Create(id, exe, home)]
      ensures os.world.table == old(os.world.table) && Alone(old(os.world), os.world, id)
    {
      var n := os.FreshId();
      this.os, this.id, this.exe, this.home := os, n, exe, home;
      managedProcess, intentionalStop := Absent, false;
      new;
      os.Do(Create(id, exe, home));
    }

    method HasExitedSafe() returns (exited: bool)
      ensures exited == Exited(os.world.table, managedProcess)
    {
      exited := match managedProcess
        case Attached(p) => !(p in os.world.table && os.world.table[p].alive)
        case _ => true;
    }

    method AttachExistingUnderLock(ghost call: Call)
      requires Holds(Scanning(call))
      modifies this, os
      ensures os.benign ==> Alone(old(os.world), os.world, id)
      ensures Holds(Scanning(call)) && ScansBy(old(os.trace), os.trace, id)
      ensures os.benign && Exited(os.world.table, managedProcess) ==> LiveCopies() == {}
      ensures os.benign ==> os.world.table == old(os.world.table)
    {
      os.Others(id);
      var exited := HasExitedSafe();
      if !exited {
        return;
      }
      os.Others(id);
      var found := os.Processes();
      if found.None? {
        return;
      }
      var i := 0;
      while i < |found.value|
        invariant 0 <= i <= |found.value|
        invariant Holds(Scanning(call)) && ScansBy(old(os.trace), os.trace, id)
        invariant os.benign ==> Alone(old(os.world), os.world, id)
        invariant Exited(os.world.table, managedProcess)
        invariant forall p | p in found.value :: p in os.world.table
        invariant os.benign ==> LiveCopies() <= set p | p in found.value[i..]
        invariant os.benign ==> os.world.table == old(os.world.table)
      {
        var adopted := TryAdopt(found.value[i], call);
        if adopted {
          return;
        }
        i := i + 1;
      }
    }

    /** One round of the adoption loop: takes p over if it runs this executable. */
    method TryAdopt(p: Pid, ghost call: Call) returns (adopted: bool)
      requires Holds(Scanning(call)) && Exited(os.world.table, managedProcess) && p in os.world.table
      modifies this, os
      ensures os.benign ==> Alone(old(os.world), os.world, id)
      ensures Holds(Scanning(call)) && ScansBy(old(os.trace), os.trace, id)
      ensures Later(old(os.world.table), os.world.table)
      ensures adopted ==> managedProcess == Attached(p) && !intentionalStop && Alive(os.world.table, p)
      ensures !adopted ==> Exited(os.world.table, managedProcess)
      ensures os.benign ==> os.world.table == old(os.world.table) && adopted == (p in LiveCopies())
    {
      adopted := false;
      os.Others(id);
      var path := os.ModulePath(p);
      if path == Some(exe) {
        var throws: bool := *;
        intentionalStop := false;
        if os.benign || !throws {
          os.Do(Adopt(id, p));
          managedProcess := Attached(p);
          adopted := true;
        } else {
          os.Do(AdoptFails(id, p));
          managedProcess := Detached;
        }
      }
    }

    method KillDuplicatesUnderLock(ghost call: Call)
      requires Holds(Scanning(call))
      requires os.benign && Exited(os.world.table, managedProcess) ==> LiveCopies() == {}
      modifies this, os
      ensures os.benign ==> Alone(old(os.world), os.world, id)
      ensures Holds(Scanning(call)) && ScansBy(old(os.trace), os.trace, id)
      ensures managedProcess == old(managedProcess) && intentionalStop == old(intentionalStop)
      ensures os.benign ==> LiveCopies() == Tracked() && LiveCopies() <= old(LiveCopies())
      ensures Ended(old(os.world.table), Spared()) && (os.benign ==> OnlyDeaths(old(os.world.table), os.world.table))
      ensures Cleared(old(os.world.table))
      ensures os.benign && Flat(old(os.world.table), exe) ==> Tracked() == old(Tracked())
    {
      os.Others(id);
      var exited := HasExitedSafe();
      if exited {
        return;
      }
      os.Others(id);
      var found := os.Processes();
      if found.None? {
        return;
      }
      EvictAll(found.value, call);
    }

    /** The eviction loop over the processes found. */
    method EvictAll(found: seq<Pid>, ghost call: Call)
      requires Holds(Scanning(call)) && managedProcess.Attached?
      requires forall p | p in found :: p in os.world.table
      modifies os
      ensures os.benign ==> Alone(old(os.world), os.world, id)
      ensures Holds(Scanning(call)) && ScansBy(old(os.trace), os.trace, id)
      ensures os.benign ==> LiveCopies() <= old(LiveCopies())
      ensures Ended(old(os.world.table), Spared()) && (os.benign ==> OnlyDeaths(old(os.world.table), os.world.table))
      ensures Cleared(old(os.world.table))
      ensures os.benign && (forall p | p in old(LiveCopies()) :: p in found) ==> LiveCopies() <= {managedProcess.pid}
      ensures os.benign && Flat(old(os.world.table), exe) && managedProcess.pid in old(LiveCopies()) ==>
                managedProcess.pid in LiveCopies()
    {
      var i := 0;
      while i < |found|
        invariant 0 <= i <= |found|
        invariant Holds(Scanning(call)) && ScansBy(old(os.trace), os.trace, id)
        invariant os.benign ==> Alone(old(os.world), os.world, id)
        invariant Later(old(os.world.table), os.world.table)
        invariant os.benign ==> LiveCopies() <= old(LiveCopies())
        invariant os.benign ==> forall j | 0 <= j < i :: found[j] in LiveCopies() ==> found[j] == managedProcess.pid
        invariant Ended(old(os.world.table), Spared()) && Cleared(old(os.world.table))
        invariant os.benign ==> OnlyDeaths(old(os.world.table), os.world.table)
        invariant os.benign && Flat(old(os.world.table), exe) && managedProcess.pid in old(LiveCopies()) ==>
                    managedProcess.pid in LiveCopies()
      {
        if found[i] != managedProcess.pid {
          ghost var before := os.world.table;
          EvictIfDuplicate(found[i], call, old(os.world.table));
          if os.benign {
            OnlyTreesDiedTwice(old(os.world.table), before, os.world.table, exe, Spared());
            TreesEndedTwice(old(os.world.table), before, os.world.table, exe, {});
          }
        }
        i := i + 1;
      }
    }

    /** One round of the eviction loop: kills p and its descendants if p runs this executable. */
    method EvictIfDuplicate(p: Pid, ghost call: Call, ghost start: Table)
      requires Holds(Scanning(call)) && managedProcess.Attached? && p != managedProcess.pid && p in os.world.table
      modifies os
      ensures os.benign ==> Alone(old(os.world), os.world, id)
      ensures Holds(Scanning(call)) && ScansBy(old(os.trace), os.trace, id)
      ensures Later(old(os.world.table), os.world.table)
      ensures os.benign ==> LiveCopies() <= old(LiveCopies()) - {p} && OnlyDeaths(old(os.world.table), os.world.table)
      ensures Ended(old(os.world.table), Spared()) && Cleared(old(os.world.table))
      ensures os.benign && Flat(start, exe) && OnlyDeaths(start, old(os.world.table)) ==>
                managedProcess.pid in old(LiveCopies()) ==> managedProcess.pid in LiveCopies()
    {
      os.Others(id);
      var path := os.ModulePath(p);
      if path == Some(exe) {
        os.Others(id);
        ghost var before := os.world.table;
        Evict(p, call);
        if os.benign && Flat(start, exe) && OnlyDeaths(start, before) && managedProcess.pid in Copies(before, exe) {
          OthersSurvive(start, before, os.world.table, exe, managedProcess.pid, p);
        }
      }
    }

    /** p.Kill(entireProcessTree: true) on a duplicate, and whatever comes of it. */
    method Evict(p: Pid, ghost call: Call)
      requires Holds(Scanning(call)) && managedProcess.Attached? && p != managedProcess.pid
      requires p in os.world.table && os.world.table[p].exe == exe && (os.benign ==> Alive(os.world.table, p))
      modifies os
      ensures os.benign ==> Alone(old(os.world), os.world, id)
      ensures Holds(Scanning(call)) && ScansBy(old(os.trace), os.trace, id)
      ensures OnlyDeaths(old(os.world.table), os.world.table)
      ensures os.benign ==> LiveCopies() <= old(LiveCopies()) - {p}
      ensures Ended(old(os.world.table), Spared()) && Cleared(old(os.world.table))
      ensures os.benign ==> TreeEnded(old(os.world.table), os.world.table, p)
      ensures forall c | c in old(LiveCopies()) && c !in LiveCopies() :: Descends(old(os.world.table), c, p)
    {
      ghost var before := os.world.table;
      var victims, _ := os.KillTree(p);
      os.Do(KillDuplicate(id, p, victims));
      CopiesAfterKill(before, victims, exe);
      assert os.benign ==> Descends(before, p, p) && p in victims;
      if os.benign {
        TreeKilled(before, victims, exe, p, Spared());
        TreeWithSubtrees(before, os.world.table, exe, p);
      }
    }

    /** Launches the executable; the caller holds the lock and has decided to launch. */
    method StartInternal(ghost cause: Cause) returns (reply: ProcessReply)
      requires Holds(Launching(cause))
      modifies this, os
      ensures os.benign ==> Alone(old(os.world), os.world, id)
      ensures Valid() && old(os.trace) < os.trace
      ensures NotBy(old(os.trace), os.trace[..|os.trace| - 1], id)
      ensures var last := os.trace[|os.trace| - 1];
              Owner(last) == Some(id) && (last.Launch? || last.LaunchFails?) && Answer(last) == Some(reply)
      ensures reply.status == Ok ==> reply.pid.Some? && managedProcess == Attached(reply.pid.value)
      ensures reply.status != Ok ==> reply == ProcessReply(Error, false, None)
      ensures os.benign ==>
                LiveCopies() == old(LiveCopies()) + if reply.status == Ok then {reply.pid.value} else {}
      ensures os.benign ==> (reply.status == Ok <==> IsFile(os.world.files, home))
      ensures os.benign ==> OnlyNewcomers(old(os.world.table), os.world.table)
    {
      os.Others(id);
      var throws: bool := *;
      ghost var before := os.trace;
      if (throws && !os.benign) || !IsFile(os.world.files, home) {
        os.Do(LaunchFails(id));
        managedProcess := Detached;
        reply := ProcessReply(Error, false, None);
      } else {
        var p := os.FreshPid();
        os.Do(Launch(id, p));
        managedProcess := Attached(p);
        reply := ProcessReply(Ok, true, Some(p));
      }
      assert os.trace[..|os.trace| - 1] == before;
    }

    /** How every public call begins: take the lock, adopt, evict. */
    method EnterAndScan(call: Call)
      requires Valid()
      modifies this, os
      ensures os.benign ==> Alone(old(os.world), os.world, id)
      ensures Holds(Scanning(call)) && CallSoFar(old(os.trace), os.trace, id, call)
      ensures os.benign ==> LiveCopies() == Tracked() && LiveCopies() <= old(LiveCopies())
      ensures Ended(old(os.world.table), Spared()) && (os.benign ==> OnlyDeaths(old(os.world.table), os.world.table))
      ensures Cleared(old(os.world.table))
      ensures os.benign && Flat(old(os.world.table), exe) && old(LiveCopies()) != {} ==> Tracked() != {}
    {
      os.Do(Begin(id, call));
      ghost var begun := os.trace;
      AttachExistingUnderLock(call);
      CallGoesOn(old(os.trace), begun, os.trace, id, call);
      begun := os.trace;
      KillDuplicatesUnderLock(call);
      CallGoesOn(old(os.trace), begun, os.trace, id, call);
      begun := os.trace;
      os.Others(id);
      CallGoesOn(old(os.trace), begun, os.trace, id, call);
    }

    method Start() returns (reply: ProcessReply)
      requires Valid()
      modifies this, os
      ensures os.benign ==> Alone(old(os.world), os.world, id)
      ensures Valid() && CallBy(old(os.trace), os.trace, id, Call.Start, reply)
      ensures reply.status in {Ok, AlreadyRunning, Error}
      ensures reply.pid.Some? <==> reply.status != Error
      ensures reply.pid.Some? ==> managedProcess == Attached(reply.pid.value)
      ensures os.benign ==> LiveCopies() == if reply.pid.Some? then {reply.pid.value} else {}
      ensures os.benign && reply.status == Error ==> !IsFile(os.world.files, home)
      ensures os.benign && reply.status == AlreadyRunning ==> reply.pid.value in old(LiveCopies())
      ensures os.benign && Flat(old(os.world.table), exe) && old(LiveCopies()) != {} ==> reply.status == AlreadyRunning
      ensures Ended(old(os.world.table), if reply.status == AlreadyRunning then {reply.pid.value} else {})
      ensures Cleared(old(os.world.table))
    {
      EnterAndScan(Call.Start);
      var exited := HasExitedSafe();
      if exited {
        if os.benign {
          FewerSpared(old(os.world.table), os.world.table, exe, Spared(), {});
        }
        ghost var scanned := os.world.table;
        reply := FinishStart(old(os.trace));
        if os.benign {
          TreesEndedThenMore(old(os.world.table), scanned, os.world.table, exe);
        }
      } else {
        ghost var begun := os.trace;
        reply := ProcessReply(AlreadyRunning, true, Some(managedProcess.pid));
        os.Do(Reply(id, reply));
        assert os.trace[..|os.trace| - 1] == begun;
      }
    }

    /** The launching branch of Start, entered when no live process is tracked. */
    method FinishStart(ghost before: seq<Step>) returns (reply: ProcessReply)
      requires Holds(Scanning(Call.Start)) && Exited(os.world.table, managedProcess)
      requires CallSoFar(before, os.trace, id, Call.Start)
      modifies this, os
      ensures os.benign ==> Alone(old(os.world), os.world, id)
      ensures Valid() && CallBy(before, os.trace, id, Call.Start, reply)
      ensures reply.status in {Ok, Error} && (reply.pid.Some? <==> reply.status == Ok)
      ensures reply.pid.Some? ==> managedProcess == Attached(reply.pid.value)
      ensures os.benign ==>
                LiveCopies() == old(LiveCopies()) + if reply.pid.Some? then {reply.pid.value} else {}
      ensures os.benign && reply.status == Error ==> !IsFile(os.world.files, home)
      ensures os.benign ==> OnlyNewcomers(old(os.world.table), os.world.table)
    {
      intentionalStop := false;
      os.Do(Clear(id));
      ghost var begun := os.trace;
      reply := StartInternal(ByCaller);
      CallGoesOn(before, begun, os.trace[..|os.trace| - 1], id, Call.Start);
    }

    /** Either every killed copy is gone with its tree, or the tracked process closed and all others are. */
    ghost predicate ClearedOrClosed(before: Table, trace: seq<Step>)
      reads this, os
    {
      os.benign ==>
        TreesEnded(before, os.world.table, exe, {}) ||
        (managedProcess.Attached? && Closed(trace, os.trace, managedProcess.pid) &&
         TreesEnded(before, os.world.table, exe, {managedProcess.pid}))
    }

    lemma ClearedAfterScan(before: Table, scanned: Table, start: seq<Step>, begun: seq<Step>)
      requires os.benign && start <= begun && ClearedOrClosed(scanned, begun)
      requires OnlyDeaths(before, scanned) && OnlyDeaths(scanned, os.world.table) && TreesEnded(before, scanned, exe, {})
      ensures ClearedOrClosed(before, start)
    {
      if TreesEnded(scanned, os.world.table, exe, {}) {
        TreesEndedTwice(before, scanned, os.world.table, exe, {});
      } else {
        TreesEndedTwice(before, scanned, os.world.table, exe, {managedProcess.pid});
      }
    }

    method Stop() returns (reply: ProcessReply)
      requires Valid()
      modifies this, os
      ensures os.benign ==> Alone(old(os.world), os.world, id)
      ensures Valid() && CallBy(old(os.trace), os.trace, id, Call.Stop, reply)
      ensures reply.status in {Ok, NotRunning, Error} && !reply.isRunning && reply.pid.None?
      ensures reply.status == Ok ==> intentionalStop
      ensures reply.status == Error ==> !intentionalStop
      ensures os.benign ==> reply.status != Error && LiveCopies() == {}
      ensures os.benign && reply.status == Ok ==> old(LiveCopies()) != {}
      ensures os.benign && Flat(old(os.world.table), exe) && old(LiveCopies()) != {} ==> reply.status == Ok
      ensures Ended(old(os.world.table), {}) && ClearedOrClosed(old(os.world.table), old(os.trace))
    {
      EnterAndScan(Call.Stop);
      ghost var begun, scanned := os.trace, os.world.table;
      if os.benign {
        FewerSpared(old(os.world.table), scanned, exe, Spared(), {});
      }
      var exited := HasExitedSafe();
      if exited {
        reply := ProcessReply(NotRunning, false, None);
        os.Do(Reply(id, reply));
        assert os.trace[..|os.trace| - 1] == begun;
        return;
      }
      reply := StopTracked(old(os.trace));
      if os.benign {
        OnlyTreesDiedTwice(old(os.world.table), scanned, os.world.table, exe, {});
        ClearedAfterScan(old(os.world.table), scanned, old(os.trace), begun);
      }
    }

    /** Stop once a live process is tracked: raise the flag, then the try block. */
    method StopTracked(ghost before: seq<Step>) returns (reply: ProcessReply)
      requires Holds(Scanning(Call.Stop)) && !Exited(os.world.table, managedProcess)
      requires CallSoFar(before, os.trace, id, Call.Stop)
      modifies this, os
      ensures os.benign ==> Alone(old(os.world), os.world, id)
      ensures Valid() && CallBy(before, os.trace, id, Call.Stop, reply)
      ensures reply == ProcessReply(if intentionalStop then Ok else Error, false, None)
      ensures os.benign ==> reply.status == Ok && LiveCopies() <= old(LiveCopies() - {managedProcess.pid})
      ensures Ended(old(os.world.table), {}) && ClearedOrClosed(old(os.world.table), old(os.trace))
      ensures os.benign ==> OnlyDeaths(old(os.world.table), os.world.table)
    {
      intentionalStop := true;
      os.Do(Mark(id));
      reply := FinishStop(before);
    }

    /** The try block of Stop, entered with the flag up. */
    method FinishStop(ghost before: seq<Step>) returns (reply: ProcessReply)
      requires Holds(Stopping) && managedProcess.Attached? && CallSoFar(before, os.trace, id, Call.Stop)
      requires intentionalStop
      modifies this, os
      ensures os.benign ==> Alone(old(os.world), os.world, id)
      ensures Valid() && CallBy(before, os.trace, id, Call.Stop, reply)
      ensures reply == ProcessReply(if intentionalStop then Ok else Error, false, None)
      ensures os.benign ==> reply.status == Ok && LiveCopies() <= old(LiveCopies() - {managedProcess.pid})
      ensures Ended(old(os.world.table), {}) && ClearedOrClosed(old(os.world.table), old(os.trace))
      ensures os.benign ==> OnlyDeaths(old(os.world.table), os.world.table)
    {
      var stopped := CloseOrKill(before);
      ghost var mid := os.trace;
      if stopped {
        reply := ProcessReply(Ok, false, None);
        os.Do(StopDone(id));
      } else {
        intentionalStop := false;
        reply := ProcessReply(Error, false, None);
        os.Do(StopFails(id));
      }
      assert os.trace[..|os.trace| - 1] == mid;
    }

    /** CloseMainWindow, the grace period, and the forced kill; false stands for an exception. */
    method CloseOrKill(ghost start: seq<Step>) returns (ok: bool)
      requires Holds(Stopping) && managedProcess.Attached? && CallSoFar(start, os.trace, id, Call.Stop)
      modifies os
      ensures os.benign ==> Alone(old(os.world), os.world, id)
      ensures Holds(Stopping) && CallSoFar(start, os.trace, id, Call.Stop)
      ensures os.benign ==> ok && LiveCopies() <= old(LiveCopies()) - {managedProcess.pid}
      ensures Ended(old(os.world.table), {}) && ClearedOrClosed(old(os.world.table), old(os.trace))
      ensures os.benign ==> OnlyDeaths(old(os.world.table), os.world.table)
    {
      var throws: bool := *;
      if throws && !os.benign {
        return false;
      }
      CloseMainWindow();
      ghost var asked := os.trace;
      os.Others(id);
      var exited := HasExitedSafe();
      if exited {
        if os.benign {
          EndedByItself(old(os.world.table), old(os.trace), asked);
        }
        return true;
      }
      ok := ForceKill(start);
    }

    /** The process may react to the close request, and nothing else happens. */
    method CloseMainWindow()
      requires Holds(Stopping) && managedProcess.Attached?
      modifies os
      ensures Holds(Stopping) && Alone(old(os.world), os.world, id)
      ensures if Alive(old(os.world.table), managedProcess.pid) && !Alive(os.world.table, managedProcess.pid)
              then os.trace == old(os.trace) + [Die(managedProcess.pid)] &&
                   os.world.table == Killed(old(os.world.table), {managedProcess.pid})
              else os.trace == old(os.trace) && os.world.table == old(os.world.table)
    {
      var closes: bool := *;
      if closes && os.world.table[managedProcess.pid].alive {
        os.Do(Die(managedProcess.pid));
      }
    }

    lemma EndedByItself(before: Table, start: seq<Step>, asked: seq<Step>)
      requires os.benign && Holds(Stopping) && managedProcess.Attached? && asked <= os.trace
      requires if Alive(before, managedProcess.pid)
               then asked == start + [Die(managedProcess.pid)] && os.world.table == Killed(before, {managedProcess.pid})
               else os.world.table == before
      ensures Ended(before, {}) && ClearedOrClosed(before, start) && OnlyDeaths(before, os.world.table)
    {
      var pid := managedProcess.pid;
      if Alive(before, pid) {
        assert Descends(before, pid, pid) && pid in Copies(before, exe);
        TreeKilled(before, {pid}, exe, pid, {});
        CopiesAfterKill(before, {pid}, exe);
        assert os.trace[|start|] == Die(pid);
      }
    }

    /** p.Kill(entireProcessTree: true) on the tracked process. */
    method ForceKill(ghost start: seq<Step>) returns (ok: bool)
      requires Holds(Stopping) && !Exited(os.world.table, managedProcess) && CallSoFar(start, os.trace, id, Call.Stop)
      modifies os
      ensures os.benign ==> Alone(old(os.world), os.world, id)
      ensures Holds(Stopping) && CallSoFar(start, os.trace, id, Call.Stop)
      ensures os.benign ==> ok && LiveCopies() <= old(LiveCopies()) - {managedProcess.pid}
      ensures Ended(old(os.world.table), {}) && Cleared(old(os.world.table))
      ensures os.benign ==> TreeEnded(old(os.world.table), os.world.table, managedProcess.pid)
      ensures OnlyDeaths(old(os.world.table), os.world.table)
    {
      ghost var before := os.world.table;
      var victims: set<Pid>;
      victims, ok := os.KillTree(managedProcess.pid);
      os.Do(KillTracked(id, victims));
      CopiesAfterKill(before, victims, exe);
      assert os.benign ==> Descends(before, managedProcess.pid, managedProcess.pid);
      TreeKilled(before, victims, exe, managedProcess.pid, {});
      if os.benign {
        TreeWithSubtrees(before, os.world.table, exe, managedProcess.pid);
      }
    }

    method GetStatus() returns (reply: ProcessReply)
      requires Valid()
      modifies this, os
      ensures os.benign ==> Alone(old(os.world), os.world, id)
      ensures Valid() && CallBy(old(os.trace), os.trace, id, Call.Poll, reply)
      ensures reply.status == Ok && reply.isRunning == reply.pid.Some?
      ensures reply.pid.Some? ==> managedProcess == Attached(reply.pid.value)
      ensures os.benign ==>
                LiveCopies() == (if reply.pid.Some? then {reply.pid.value} else {}) && LiveCopies() <= old(LiveCopies())
      ensures os.benign && Flat(old(os.world.table), exe) && old(LiveCopies()) != {} ==> reply.isRunning
      ensures Ended(old(os.world.table), if reply.isRunning then {reply.pid.value} else {})
      ensures Cleared(old(os.world.table))
    {
      EnterAndScan(Call.Poll);
      ghost var begun := os.trace;
      var exited := HasExitedSafe();
      reply := ProcessReply(Ok, !exited, if exited then None else Some(managedProcess.pid));
      if os.benign && exited {
        FewerSpared(old(os.world.table), os.world.table, exe, Spared(), {});
      }
      os.Do(Reply(id, reply));
      assert os.trace[..|os.trace| - 1] == begun;
    }

    /** OnProcessExited up to the sleep: whether the callback goes on to its second section. */
    method ExitSeenUnderLock(p: Pid) returns (sleeps: bool)
      requires Valid() && p in os.world.managers[id].watched && !Alive(os.world.table, p)
      modifies os
      ensures Alone(old(os.world), os.world, id)
      ensures Valid() && os.trace == old(os.trace) + [ExitSeen(id, p)]
      ensures sleeps == !intentionalStop
      ensures os.world.managers[id].sleeping == old(os.world.managers[id].sleeping) + if sleeps then 1 else 0
    {
      sleeps := !intentionalStop;
      os.Do(ExitSeen(id, p));
    }

    /** OnProcessExited after the sleep: restarts unless the flag is up or a process runs. */
    method WakeUnderLock() returns (reply: Option<ProcessReply>)
      requires Valid() && 0 < os.world.managers[id].sleeping
      modifies this, os
      ensures os.benign ==> Alone(old(os.world), os.world, id)
      ensures Valid() && old(os.trace) < os.trace
      ensures exists i :: |old(os.trace)| <= i < |os.trace| && os.trace[i] == Wake(id) &&
                NotBy(old(os.trace), os.trace[..i], id) &&
                (reply.None? ==> i == |os.trace| - 1) &&
                (reply.Some? ==> NotBy(os.trace[..i + 1], os.trace[..|os.trace| - 1], id) &&
                                 Owner(os.trace[|os.trace| - 1]) == Some(id) &&
                                 Answer(os.trace[|os.trace| - 1]) == reply)
      ensures old(intentionalStop) ==> reply.None? && intentionalStop
      ensures os.benign ==> (reply.Some? <==> !old(intentionalStop) && old(Exited(os.world.table, managedProcess)))
      ensures os.benign && reply.Some? ==> (reply.value.status == Ok <==> IsFile(os.world.files, home))
    {
      os.Others(id);
      var exited := HasExitedSafe();
      var declined := intentionalStop || !exited;
      ghost var i := |os.trace|;
      ghost var before := os.trace;
      os.Do(Wake(id));
      assert os.trace[i] == Wake(id) && os.trace[..i] == before;
      if declined {
        return None;
      }
      ghost var woken := os.trace;
      var r := StartInternal(ByCallback);
      reply := Some(r);
      assert os.trace[..i + 1] == woken;
    }
  }
}
