/**
  The process supervisor as a state machine.

  One operating system process table is shared by any number of managers, one per
  instance. Every access that a manager makes to shared state is one step, and the steps
  of different managers, of the exit callbacks and of the outside world interleave freely.
  A manager's lock is its `op` field: between `Begin` and the step that answers, only the
  caller inside the lock takes steps of that manager.
 */
module Supervision {
  import opened Common
  import opened FileTree

  /** Process identifiers are allocation order: never reused, and a parent precedes its child. */
  type Pid = nat
  /** A manager object; numbered as they are made, whatever app and instance they are for. */
  type Id = nat
  /** Full path of an executable, normalised and case-folded. */
  type Exe = string

  datatype Process = Process(exe: Exe, parent: Option<Pid>, alive: bool)
  type Table = map<Pid, Process>

  /**
    `_managedProcess`: null, a Process object that is attached to no process (its Start
    threw, or it was disposed after a failed adoption), or one that is attached to a pid.
   */
  datatype Handle = Absent | Detached | Attached(pid: Pid)

  datatype Call = Start | Stop | Poll
  datatype Cause = ByCaller | ByCallback

  /** Which part of a critical section the holder of a manager's lock has reached. */
  datatype Operation =
    | Idle
    | Scanning(call: Call)
    | Launching(cause: Cause)
    | Stopping

  /**
    `launched`, `watched` and `sleeping` are bookkeeping: the pids this manager launched,
    those whose exit event is still to be delivered, and the number of exit callbacks that
    are between their two lock sections.
   */
  datatype Manager = Manager(
    exe: Exe, home: Path, handle: Handle, intentional: bool, op: Operation,
    launched: set<Pid>, watched: set<Pid>, sleeping: nat)

  /** `files` is the file system; a launch fails unless the executable is at the manager's `home`. */
  datatype World = World(table: Table, managers: map<Id, Manager>, files: Tree)

  datatype Step =
    // the outside world
    | Die(pid: Pid)
    | Appear(pid: Pid, exe: Exe, parent: Option<Pid>)
    // registry and folder commands
    | Create(id: Id, exe: Exe, home: Path)
    | AddFiles(files: Tree)
    | RemoveFiles(checked: Option<Id>, root: Path, files: Tree)
    // the critical sections of one manager
    | Begin(id: Id, call: Call)
    | Adopt(id: Id, pid: Pid)
    | AdoptFails(id: Id, pid: Pid)
    | KillDuplicate(id: Id, pid: Pid, victims: set<Pid>)
    | Clear(id: Id)
    | Launch(id: Id, pid: Pid)
    | LaunchFails(id: Id)
    | Mark(id: Id)
    | KillTracked(id: Id, victims: set<Pid>)
    | StopDone(id: Id)
    | StopFails(id: Id)
    | Reply(id: Id, reply: ProcessReply)
    // the two lock sections of the exit callback
    | ExitSeen(id: Id, pid: Pid)
    | Wake(id: Id)

  function Owner(s: Step): Option<Id> {
    match s
    case Die(_) => None
    case Appear(_, _, _) => None
    case Create(_, _, _) => None
    case AddFiles(_) => None
    case RemoveFiles(_, _, _) => None
    case _ => Some(s.id)
  }

  predicate Alive(t: Table, p: Pid) {
    p in t && t[p].alive
  }

  /** HasExitedSafe: null and unattached Process objects count as exited. */
  predicate Exited(t: Table, h: Handle) {
    h.Attached? ==> !Alive(t, h.pid)
  }

  /** p belongs to the process tree rooted at `root`. */
  predicate Descends(t: Table, p: Pid, root: Pid)
    decreases p
  {
    p == root ||
    (p in t && t[p].parent.Some? && t[p].parent.value < p && Descends(t, t[p].parent.value, root))
  }

  /** From p by parents to root. */
  ghost predicate Ancestry(t: Table, chain: seq<Pid>, p: Pid, root: Pid) {
    chain != [] && chain[0] == p && chain[|chain| - 1] == root &&
    forall i | 0 <= i < |chain| - 1 :: chain[i] in t && t[chain[i]].parent == Some(chain[i + 1]) && chain[i + 1] < chain[i]
  }

  /** The process tree of root is everything from which the parents lead to it. */
  lemma {:induction false} DescendsExactly(t: Table, p: Pid, root: Pid)
    ensures Descends(t, p, root) <==> exists chain :: Ancestry(t, chain, p, root)
    decreases p
  {
    assert p == root ==> Ancestry(t, [p], p, root);
    if p != root && p in t && t[p].parent.Some? && t[p].parent.value < p {
      var q := t[p].parent.value;
      DescendsExactly(t, q, root);
      if chain :| Ancestry(t, chain, q, root) {
        OneChild(t, chain, p, q, root);
      }
    }
    forall chain | Ancestry(t, chain, p, root) && p != root
      ensures Descends(t, p, root)
    {
      FromParent(t, chain, p, root);
    }
  }

  lemma OneChild(t: Table, chain: seq<Pid>, p: Pid, q: Pid, root: Pid)
    requires Ancestry(t, chain, q, root) && p in t && t[p].parent == Some(q) && q < p
    ensures Ancestry(t, [p] + chain, p, root)
  {
    var more := [p] + chain;
    forall i | 0 <= i < |more| - 1
      ensures more[i] in t && t[more[i]].parent == Some(more[i + 1]) && more[i + 1] < more[i]
    {
      if i > 0 {
        assert more[i] == chain[i - 1] && more[i + 1] == chain[i - 1 + 1];
      }
    }
  }

  lemma {:induction false} FromParent(t: Table, chain: seq<Pid>, p: Pid, root: Pid)
    requires Ancestry(t, chain, p, root)
    ensures Descends(t, p, root)
    decreases |chain|
  {
    if |chain| > 1 {
      var rest := chain[1..];
      forall i | 0 <= i < |rest| - 1
        ensures rest[i] in t && t[rest[i]].parent == Some(rest[i + 1]) && rest[i + 1] < rest[i]
      {
        assert rest[i] == chain[i + 1] && rest[i + 1] == chain[i + 1 + 1];
      }
      assert chain[0 + 1] == rest[0];
      FromParent(t, rest, rest[0], root);
    }
  }

  function Killed(t: Table, victims: set<Pid>): Table {
    map p | p in t :: if p in victims then t[p].(alive := false) else t[p]
  }

  /** The live processes that run an executable. */
  ghost function Copies(t: Table, exe: Exe): set<Pid> {
    set p | p in t && t[p].alive && t[p].exe == exe
  }

  lemma CopiesAfterKill(t: Table, victims: set<Pid>, exe: Exe)
    ensures Copies(Killed(t, victims), exe) == Copies(t, exe) - victims
  {
  }

  predicate Enabled(w: World, s: Step) {
    match s
    case Die(p) => Alive(w.table, p)
    case Appear(p, _, parent) =>
      p !in w.table && (parent.Some? ==> parent.value in w.table && parent.value < p)
    case Create(n, _, _) => n !in w.managers
    case AddFiles(files) => WellFormed(files) && Keeps(w.files, files)
    case RemoveFiles(checked, root, files) =>
      && WellFormed(files) && Keeps(files, w.files) && KeepsOutside(w.files, files, root)
      && (checked.Some? ==> checked.value in w.managers && w.managers[checked.value].op == Idle &&
                            Exited(w.table, w.managers[checked.value].handle))
    case _ => s.id in w.managers && ManagerEnabled(w, w.managers[s.id], s)
  }

  predicate ManagerEnabled(w: World, m: Manager, s: Step)
    requires Owner(s).Some?
  {
    match s
    case Begin(_, _) => m.op == Idle
    case Adopt(_, p) =>
      m.op.Scanning? && Exited(w.table, m.handle) && Alive(w.table, p) && w.table[p].exe == m.exe
    case AdoptFails(_, p) =>
      m.op.Scanning? && Exited(w.table, m.handle) && Alive(w.table, p) && w.table[p].exe == m.exe
    case KillDuplicate(_, p, victims) =>
      m.op.Scanning? && m.handle.Attached? && p != m.handle.pid &&
      p in w.table && w.table[p].exe == m.exe &&
      forall v | v in victims :: Descends(w.table, v, p)
    case Clear(_) => m.op == Scanning(Start) && Exited(w.table, m.handle)
    case Launch(_, p) => m.op.Launching? && p !in w.table && IsFile(w.files, m.home)
    case LaunchFails(_) => m.op.Launching?
    case Mark(_) => m.op == Scanning(Stop) && !Exited(w.table, m.handle)
    case KillTracked(_, victims) =>
      m.op == Stopping && m.handle.Attached? &&
      forall v | v in victims :: Descends(w.table, v, m.handle.pid)
    case StopDone(_) => m.op == Stopping
    case StopFails(_) => m.op == Stopping
    case Reply(_, r) => m.op.Scanning? && r == Observation(w.table, m, m.op.call) &&
                        (m.op.call == Start ==> r.isRunning) && (m.op.call == Stop ==> !r.isRunning)
    case ExitSeen(_, p) => m.op == Idle && p in m.watched && !Alive(w.table, p)
    case Wake(_) => m.op == Idle && 0 < m.sleeping
  }

  /** What a call answers when it changes nothing further: the tracked process as it is. */
  function Observation(t: Table, m: Manager, call: Call): ProcessReply {
    var running := !Exited(t, m.handle);
    var status := match call
      case Start => AlreadyRunning
      case Stop => NotRunning
      case Poll => Ok;
    ProcessReply(status, running, if running then Some(m.handle.pid) else None)
  }

  function Apply(w: World, s: Step): World
    requires Enabled(w, s)
  {
    match s
    case Die(p) => w.(table := Killed(w.table, {p}))
    case Appear(p, exe, parent) => w.(table := w.table[p := Process(exe, parent, true)])
    case Create(n, exe, home) =>
      w.(managers := w.managers[n := Manager(exe, home, Absent, false, Idle, {}, {}, 0)])
    case AddFiles(files) => w.(files := files)
    case RemoveFiles(_, _, files) => w.(files := files)
    case _ =>
      World(TableAfter(w.table, w.managers[s.id], s),
            w.managers[s.id := ManagerAfter(w.table, w.managers[s.id], s)],
            w.files)
  }

  function TableAfter(t: Table, m: Manager, s: Step): Table {
    match s
    case KillDuplicate(_, _, victims) => Killed(t, victims)
    case KillTracked(_, victims) => Killed(t, victims)
    case Launch(_, p) => t[p := Process(m.exe, None, true)]
    case _ => t
  }

  function ManagerAfter(t: Table, m: Manager, s: Step): Manager
  {
    match s
    case Begin(_, c) => m.(op := Scanning(c))
    case Adopt(_, p) => m.(handle := Attached(p), intentional := false, watched := m.watched + {p})
    case AdoptFails(_, _) => m.(handle := Detached, intentional := false)
    case Clear(_) => m.(intentional := false, op := Launching(ByCaller))
    case Launch(_, p) =>
      m.(handle := Attached(p), op := Idle, launched := m.launched + {p}, watched := m.watched + {p})
    case LaunchFails(_) => m.(handle := Detached, op := Idle)
    case Mark(_) => m.(intentional := true, op := Stopping)
    case StopDone(_) => m.(op := Idle)
    case StopFails(_) => m.(intentional := false, op := Idle)
    case Reply(_, _) => m.(op := Idle)
    case ExitSeen(_, p) =>
      m.(watched := m.watched - {p}, sleeping := m.sleeping + if m.intentional then 0 else 1)
    case Wake(_) =>
      if m.sleeping == 0 then m
      else m.(sleeping := m.sleeping - 1,
              op := if m.intentional || !Exited(t, m.handle) then Idle else Launching(ByCallback))
    case _ => m
  }

  /** The answer a call gives, at the step that ends it. */
  function Answer(s: Step): Option<ProcessReply> {
    match s
    case Launch(_, p) => Some(ProcessReply(Ok, true, Some(p)))
    case LaunchFails(_) => Some(ProcessReply(Error, false, None))
    case StopDone(_) => Some(ProcessReply(Ok, false, None))
    case StopFails(_) => Some(ProcessReply(Error, false, None))
    case Reply(_, r) => Some(r)
    case _ => None
  }

  // ---------------------------------------------------------------- runs

  predicate Legal(w: World, steps: seq<Step>)
    decreases |steps|
  {
    steps == [] || (Enabled(w, steps[0]) && Legal(Apply(w, steps[0]), steps[1..]))
  }

  function Run(w: World, steps: seq<Step>): World
    requires Legal(w, steps)
    decreases |steps|
  {
    if steps == [] then w else Run(Apply(w, steps[0]), steps[1..])
  }

  /** Before the agent starts: whatever processes and files exist, no manager does. */
  predicate Initial(w: World) {
    w.managers == map[] && WellFormed(w.files) &&
    forall p | p in w.table :: w.table[p].parent.Some? ==> w.table[p].parent.value < p
  }

  lemma {:induction false} RunConcat(w: World, a: seq<Step>, b: seq<Step>)
    ensures Legal(w, a + b) <==> Legal(w, a) && Legal(Run(w, a), b)
    ensures Legal(w, a + b) ==> Run(w, a + b) == Run(Run(w, a), b)
    decreases |a|
  {
    if a == [] {
      assert a + b == b;
    } else {
      assert (a + b)[0] == a[0] && (a + b)[1..] == a[1..] + b;
      if Enabled(w, a[0]) {
        RunConcat(Apply(w, a[0]), a[1..], b);
      }
    }
  }

  /** The state before step i of a run, and the run's view of that step. */
  function At(w: World, steps: seq<Step>, i: nat): World
    requires Legal(w, steps) && i <= |steps|
  {
    RunConcat(w, steps[..i], steps[i..]);
    assert steps[..i] + steps[i..] == steps;
    Run(w, steps[..i])
  }

  lemma {:induction false} AtNext(w: World, steps: seq<Step>, i: nat)
    requires Legal(w, steps) && i < |steps|
    ensures Enabled(At(w, steps, i), steps[i])
    ensures At(w, steps, i + 1) == Apply(At(w, steps, i), steps[i])
  {
    RunConcat(w, steps[..i], steps[i..]);
    assert steps[..i] + steps[i..] == steps;
    assert steps[..i + 1] == steps[..i] + [steps[i]];
    RunConcat(w, steps[..i + 1], steps[i + 1..]);
    assert steps[..i + 1] + steps[i + 1..] == steps;
    RunConcat(w, steps[..i], [steps[i]]);
    var u := Run(w, steps[..i]);
    assert Legal(u, [steps[i]]);
    assert Run(u, [steps[i]]) == Run(Apply(u, steps[i]), []) by { assert [steps[i]][1..] == []; }
  }

  // ---------------------------------------------------------------- invariant

  /** One table is a later version of the other: processes only appear and die. */
  ghost predicate Later(t: Table, u: Table) {
    forall p | p in t :: p in u && u[p].exe == t[p].exe && u[p].parent == t[p].parent &&
                         (u[p].alive ==> t[p].alive)
  }

  ghost predicate ManagerInv(t: Table, m: Manager) {
    && (m.handle.Attached? ==> m.handle.pid in t && t[m.handle.pid].exe == m.exe)
    && (forall p | p in m.launched :: p in t && t[p].exe == m.exe && (t[p].alive ==> m.handle == Attached(p)))
    && (forall p | p in m.watched :: p in t && (t[p].alive ==> m.handle == Attached(p)))
    && (m.op.Launching? ==> !m.intentional && Exited(t, m.handle))
    && (m.op == Stopping ==> m.intentional && m.handle.Attached?)
  }

  ghost predicate Inv(w: World) {
    && (forall n | n in w.managers :: ManagerInv(w.table, w.managers[n]))
    && (forall n, k | n in w.managers && k in w.managers && n != k ::
          w.managers[n].launched !! w.managers[k].launched)
  }

  lemma StepIsLater(w: World, s: Step)
    requires Enabled(w, s)
    ensures Later(w.table, Apply(w, s).table)
  {
  }

  lemma ManagerInvLater(t: Table, u: Table, m: Manager)
    requires ManagerInv(t, m) && Later(t, u)
    ensures ManagerInv(u, m)
  {
  }

  /** A manager's own steps, those that kill first, keep what holds of it. */
  lemma OwnKillInv(w: World, m: Manager, s: Step)
    requires ManagerInv(w.table, m) && (s.KillDuplicate? || s.KillTracked?) && ManagerEnabled(w, m, s)
    ensures ManagerInv(TableAfter(w.table, m, s), ManagerAfter(w.table, m, s))
  {
    ManagerInvLater(w.table, Killed(w.table, s.victims), m);
  }

  lemma OwnLaunchInv(w: World, m: Manager, s: Step)
    requires ManagerInv(w.table, m) && s.Launch? && ManagerEnabled(w, m, s)
    ensures ManagerInv(TableAfter(w.table, m, s), ManagerAfter(w.table, m, s))
  {
  }

  lemma OwnQuietInv(w: World, m: Manager, s: Step)
    requires ManagerInv(w.table, m) && Owner(s).Some? && ManagerEnabled(w, m, s)
    requires !s.KillDuplicate? && !s.KillTracked? && !s.Launch?
    ensures ManagerInv(w.table, ManagerAfter(w.table, m, s))
  {
  }

  lemma ManagerInvStep(w: World, s: Step)
    requires Inv(w) && Enabled(w, s) && Owner(s).Some?
    ensures ManagerInv(Apply(w, s).table, Apply(w, s).managers[s.id])
  {
    var m := w.managers[s.id];
    if s.KillDuplicate? || s.KillTracked? {
      OwnKillInv(w, m, s);
    } else if s.Launch? {
      OwnLaunchInv(w, m, s);
    } else {
      OwnQuietInv(w, m, s);
    }
  }

  lemma ManagersInvStep(w: World, s: Step)
    requires Inv(w) && Enabled(w, s)
    ensures forall n | n in Apply(w, s).managers :: ManagerInv(Apply(w, s).table, Apply(w, s).managers[n])
  {
    var v := Apply(w, s);
    StepIsLater(w, s);
    forall n | n in v.managers
      ensures ManagerInv(v.table, v.managers[n])
    {
      if Owner(s) == Some(n) {
        ManagerInvStep(w, s);
      } else if n in w.managers {
        ManagerInvLater(w.table, v.table, w.managers[n]);
      }
    }
  }

  lemma LaunchedDisjointStep(w: World, s: Step, n: Id, k: Id)
    requires Inv(w) && Enabled(w, s)
    requires n in Apply(w, s).managers && k in Apply(w, s).managers && n != k
    ensures Apply(w, s).managers[n].launched !! Apply(w, s).managers[k].launched
  {
    if n in w.managers && k in w.managers {
      assert ManagerInv(w.table, w.managers[n]) && ManagerInv(w.table, w.managers[k]);
      assert w.managers[n].launched !! w.managers[k].launched;
    }
  }

  lemma InvStep(w: World, s: Step)
    requires Inv(w) && Enabled(w, s)
    ensures Inv(Apply(w, s))
  {
    var v := Apply(w, s);
    ManagersInvStep(w, s);
    forall n, k | n in v.managers && k in v.managers && n != k
      ensures v.managers[n].launched !! v.managers[k].launched
    {
      LaunchedDisjointStep(w, s, n, k);
    }
  }

  /** Every state of every run satisfies the invariant, and tables only move forward. */
  lemma {:induction false} InvRun(w: World, steps: seq<Step>)
    requires Inv(w) && Legal(w, steps)
    ensures Inv(Run(w, steps)) && Later(w.table, Run(w, steps).table)
    decreases |steps|
  {
    if steps != [] {
      InvStep(w, steps[0]);
      StepIsLater(w, steps[0]);
      InvRun(Apply(w, steps[0]), steps[1..]);
    }
  }
}
