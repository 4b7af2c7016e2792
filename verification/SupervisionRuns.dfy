/**
  What holds over whole runs of the supervisor, for every interleaving of callers, exit
  callbacks, crashes and outside launches.
 */
module SupervisionRuns {
  import opened Common
  import opened FileTree
  import opened Supervision

  lemma InitialInv(w: World)
    requires Initial(w)
    ensures Inv(w)
  {
  }

  lemma InvAt(w: World, steps: seq<Step>, i: nat)
    requires Initial(w) && Legal(w, steps) && i <= |steps|
    ensures Inv(At(w, steps, i))
  {
    InitialInv(w);
    RunConcat(w, steps[..i], steps[i..]);
    assert steps[..i] + steps[i..] == steps;
    InvRun(w, steps[..i]);
  }

  lemma AtEnd(w: World, steps: seq<Step>)
    requires Legal(w, steps)
    ensures At(w, steps, |steps|) == Run(w, steps)
  {
    assert steps[..|steps|] == steps;
  }

  // ---------------------------------------------------------------- single launched process

  /** A live process that a manager launched is the one it tracks, so there is at most one. */
  lemma LaunchedIsTracked(w: World, steps: seq<Step>, i: nat, n: Id, p: Pid)
    requires Initial(w) && Legal(w, steps) && i <= |steps|
    requires n in At(w, steps, i).managers
    requires p in At(w, steps, i).managers[n].launched && Alive(At(w, steps, i).table, p)
    ensures At(w, steps, i).managers[n].handle == Attached(p)
    ensures forall q | q in At(w, steps, i).managers[n].launched && Alive(At(w, steps, i).table, q) :: q == p
  {
    InvAt(w, steps, i);
    assert ManagerInv(At(w, steps, i).table, At(w, steps, i).managers[n]);
  }

  lemma ManagerStays(w: World, s: Step, n: Id)
    requires Enabled(w, s) && n in w.managers
    ensures n in Apply(w, s).managers
    ensures w.managers[n].launched <= Apply(w, s).managers[n].launched
    ensures w.managers[n].exe == Apply(w, s).managers[n].exe && w.managers[n].home == Apply(w, s).managers[n].home
  {
  }

  lemma {:induction false} LaunchedStays(w: World, steps: seq<Step>, i: nat, j: nat, n: Id)
    requires Legal(w, steps) && i <= j <= |steps| && n in At(w, steps, i).managers
    ensures n in At(w, steps, j).managers
    ensures At(w, steps, i).managers[n].launched <= At(w, steps, j).managers[n].launched
    ensures At(w, steps, i).managers[n].exe == At(w, steps, j).managers[n].exe
    ensures At(w, steps, i).managers[n].home == At(w, steps, j).managers[n].home
    decreases j - i
  {
    if i < j {
      LaunchedStays(w, steps, i, j - 1, n);
      AtNext(w, steps, j - 1);
      ManagerStays(At(w, steps, j - 1), steps[j - 1], n);
    }
  }

  /** A manager keeps the executable it was made for, and the place of it. */
  lemma {:induction false} StaysAsMade(w: World, steps: seq<Step>, c: nat, i: nat, n: Id, exe: Exe, home: Path)
    requires Legal(w, steps) && c < i <= |steps| && steps[c] == Create(n, exe, home)
    ensures n in At(w, steps, i).managers
    ensures At(w, steps, i).managers[n].exe == exe && At(w, steps, i).managers[n].home == home
    decreases i
  {
    AtNext(w, steps, i - 1);
    if c < i - 1 {
      StaysAsMade(w, steps, c, i - 1, n, exe, home);
    }
  }

  lemma {:induction false} MadeBefore(w: World, steps: seq<Step>, j: nat, n: Id) returns (c: nat)
    requires Initial(w) && Legal(w, steps) && j <= |steps| && n in At(w, steps, j).managers
    ensures c < j && steps[c].Create? && steps[c].id == n
    decreases j
  {
    if j == 0 {
      assert false;
    }
    AtNext(w, steps, j - 1);
    if n in At(w, steps, j - 1).managers {
      c := MadeBefore(w, steps, j - 1, n);
    } else {
      c := j - 1;
    }
  }

  /**
    Two successful launches of one manager never overlap: when the later one happens, by
    whatever mix of callers and racing callbacks, the process of the earlier one is dead.
   */
  lemma LaunchesNeverOverlap(w: World, steps: seq<Step>, i: nat, j: nat, n: Id)
    requires Initial(w) && Legal(w, steps) && i < j < |steps|
    requires steps[i].Launch? && steps[i].id == n && steps[j].Launch? && steps[j].id == n
    ensures steps[i].pid != steps[j].pid
    ensures !Alive(At(w, steps, j).table, steps[i].pid)
  {
    AtNext(w, steps, i);
    AtNext(w, steps, j);
    LaunchedStays(w, steps, i + 1, j, n);
    InvAt(w, steps, j);
    assert ManagerInv(At(w, steps, j).table, At(w, steps, j).managers[n]);
  }

  // ---------------------------------------------------------------- the stop flag

  /** The steps that reset `_intentionalStop`. */
  predicate Clears(s: Step, n: Id) {
    (s.Clear? || s.Adopt? || s.AdoptFails? || s.StopFails?) && s.id == n
  }

  /** Step i set the flag and no later step before `end` reset it. */
  ghost predicate MarkStands(steps: seq<Step>, n: Id, i: nat, end: nat)
    requires end <= |steps|
  {
    i < end && steps[i] == Mark(n) && forall k | i < k < end :: !Clears(steps[k], n)
  }

  lemma FlagStep(w: World, s: Step, n: Id)
    requires Enabled(w, s) && n in w.managers
    ensures n in Apply(w, s).managers
    ensures Apply(w, s).managers[n].intentional ==
            if s == Mark(n) then true else if Clears(s, n) then false else w.managers[n].intentional
  {
  }

  /** The flag is up exactly when the last step that touched it was a Stop's. */
  lemma {:induction false} FlagHistory(w: World, steps: seq<Step>, n: Id, end: nat)
    requires Initial(w) && Legal(w, steps) && end <= |steps|
    requires n in At(w, steps, end).managers
    ensures At(w, steps, end).managers[n].intentional <==> exists i :: MarkStands(steps, n, i, end)
    decreases end
  {
    if end > 0 {
      var last := end - 1;
      var s := steps[last];
      AtNext(w, steps, last);
      if n !in At(w, steps, end - 1).managers {
        NoStepsBeforeCreate(w, steps, n, end - 1);
      } else {
        FlagHistory(w, steps, n, last);
        FlagStep(At(w, steps, last), s, n);
        if s == Mark(n) {
          assert MarkStands(steps, n, end - 1, end);
        } else if Clears(s, n) {
          forall i: nat ensures !MarkStands(steps, n, i, end) {
          }
        } else {
          forall i: nat ensures MarkStands(steps, n, i, end) <==> MarkStands(steps, n, i, last) {
          }
        }
      }
    }
  }

  lemma {:induction false} NoStepsBeforeCreate(w: World, steps: seq<Step>, n: Id, end: nat)
    requires Legal(w, steps) && end <= |steps| && n !in At(w, steps, end).managers
    ensures forall i | 0 <= i < end :: Owner(steps[i]) != Some(n)
  {
    if end > 0 {
      AtNext(w, steps, end - 1);
      NoStepsBeforeCreate(w, steps, n, end - 1);
    }
  }

  /** The step is one of StartInternal run by an exit callback of n. */
  predicate RestartAttempt(w: World, s: Step, n: Id) {
    (s.Launch? || s.LaunchFails?) && s.id == n && n in w.managers && w.managers[n].op == Launching(ByCallback)
  }

  /** While a Stop is past its decision some mark stands; a callback that launches has seen none. */
  lemma MarkDuring(w: World, steps: seq<Step>, i: nat, n: Id)
    requires Initial(w) && Legal(w, steps) && i <= |steps| && n in At(w, steps, i).managers
    ensures At(w, steps, i).managers[n].op == Stopping ==> exists m :: MarkStands(steps, n, m, i)
    ensures At(w, steps, i).managers[n].op.Launching? ==> forall m :: !MarkStands(steps, n, m, i)
  {
    InvAt(w, steps, i);
    assert ManagerInv(At(w, steps, i).table, At(w, steps, i).managers[n]);
    FlagHistory(w, steps, n, i);
  }

  /**
    Stop safety: after Stop answers Ok, an exit callback, whether asleep already or still
    to be delivered, reaches StartInternal only if a Start, an adoption (even one that
    fails half-way) or a failing Stop reset the flag in between.
   */
  lemma StopSafety(w: World, steps: seq<Step>, i: nat, j: nat, n: Id)
    requires Initial(w) && Legal(w, steps) && i < j < |steps|
    requires steps[i] == StopDone(n) && RestartAttempt(At(w, steps, j), steps[j], n)
    ensures exists k :: i < k < j && Clears(steps[k], n)
  {
    AtNext(w, steps, i);
    MarkDuring(w, steps, i, n);
    var m :| MarkStands(steps, n, m, i);
    MarkDuring(w, steps, j, n);
    assert !MarkStands(steps, n, m, j);
  }

  /**
    Exactly when a sleeping callback goes on to restart the process: no Stop's mark stands
    and the tracked process is gone at the moment it wakes.
   */
  lemma RestartExactly(w: World, steps: seq<Step>, j: nat, n: Id)
    requires Initial(w) && Legal(w, steps) && j < |steps| && steps[j] == Wake(n)
    ensures n in At(w, steps, j).managers && n in At(w, steps, j + 1).managers
    ensures At(w, steps, j + 1).managers[n].op == Launching(ByCallback) <==>
            Exited(At(w, steps, j).table, At(w, steps, j).managers[n].handle) &&
            forall i :: !MarkStands(steps, n, i, j)
  {
    AtNext(w, steps, j);
    FlagHistory(w, steps, n, j);
  }

  /**
    Stop does not always stop. A Stop that finds the process already dead answers
    NotRunning without setting the flag, so a callback in its cool-down still restarts.
   */
  lemma StopDuringCooldownIsLost(w: World)
    requires w == World(map[], map[], DISK)
    ensures Initial(w)
    ensures Legal(w, Crash() + LostStop())
    ensures Alive(Run(w, Crash() + LostStop()).table, 1)
  {
    DiskIsTree();
    CrashRuns(w);
    LostStopRuns(CoolingDown());
    RunConcat(w, Crash(), LostStop());
  }

  /** A file system with one folder that has one executable. */
  const HOME: Path := ["d", "x"]
  const DISK: Tree := map[[] := Dir, ["d"] := Dir, HOME := File([])]

  lemma DiskIsTree()
    ensures WellFormed(DISK)
  {
    forall p, i | p in DISK && 0 <= i < |p|
      ensures IsDir(DISK, p[..i])
    {
      if p == HOME && i == 1 {
        assert p[..i] == ["d"];
      } else {
        assert p[..i] == [];
      }
    }
  }

  function Crash(): seq<Step> {
    [Create(0, "x", HOME), Begin(0, Start), Clear(0), Launch(0, 0), Die(0), ExitSeen(0, 0)]
  }

  function LostStop(): seq<Step> {
    [Begin(0, Stop), Reply(0, ProcessReply(NotRunning, false, None)), Wake(0), Launch(0, 1)]
  }

  function CoolingDown(): World {
    World(map[0 := Process("x", None, false)],
          map[0 := Manager("x", HOME, Attached(0), false, Idle, {0}, {}, 1)], DISK)
  }

  lemma CrashRuns(w: World)
    requires w == World(map[], map[], DISK)
    ensures Legal(w, Crash()) && Run(w, Crash()) == CoolingDown()
  {
    var s := Crash();
    var m := Manager("x", HOME, Absent, false, Idle, {}, {}, 0);
    var w1 := World(map[], map[0 := m], DISK);
    var w2 := World(map[], map[0 := m.(op := Scanning(Start))], DISK);
    var w3 := World(map[], map[0 := m.(op := Launching(ByCaller))], DISK);
    LaunchAndDie(w3, s[3..]);
    OneStep(w2, s[2..], w3);
    OneStep(w1, s[1..], w2);
    OneStep(w, s, w1);
  }

  lemma LaunchAndDie(w: World, s: seq<Step>)
    requires w == World(map[], map[0 := Manager("x", HOME, Absent, false, Launching(ByCaller), {}, {}, 0)], DISK)
    requires s == [Launch(0, 0), Die(0), ExitSeen(0, 0)]
    ensures Legal(w, s) && Run(w, s) == CoolingDown()
  {
    var l := Manager("x", HOME, Attached(0), false, Idle, {0}, {0}, 0);
    var w1 := World(map[0 := Process("x", None, true)], map[0 := l], DISK);
    var w2 := World(map[0 := Process("x", None, false)], map[0 := l], DISK);
    assert Apply(w2, s[2]).managers[0] == CoolingDown().managers[0];
    OneStep(w2, s[2..], CoolingDown());
    OneStep(w1, s[1..], w2);
    assert Apply(w, s[0]).managers[0] == l;
    OneStep(w, s, w1);
  }

  lemma LostStopRuns(w: World)
    requires w == CoolingDown()
    ensures Legal(w, LostStop()) && Alive(Run(w, LostStop()).table, 1)
  {
    var s := LostStop();
    var m := Manager("x", HOME, Attached(0), false, Idle, {0}, {}, 1);
    var w1 := w.(managers := map[0 := m.(op := Scanning(Stop))]);
    WakeAndLaunch(w, s[2..]);
    OneStep(w1, s[1..], w);
    OneStep(w, s, w1);
  }

  lemma WakeAndLaunch(w: World, s: seq<Step>)
    requires w == CoolingDown() && s == [Wake(0), Launch(0, 1)]
    ensures Legal(w, s) && Alive(Run(w, s).table, 1)
  {
    var m := Manager("x", HOME, Attached(0), false, Launching(ByCallback), {0}, {}, 0);
    var w1 := w.(managers := map[0 := m]);
    OneStep(w1, s[1..], Apply(w1, s[1]));
    OneStep(w, s, w1);
  }

  lemma OneStep(w: World, steps: seq<Step>, v: World)
    requires steps != [] && Enabled(w, steps[0]) && Apply(w, steps[0]) == v && Legal(v, steps[1..])
    ensures Legal(w, steps) && Run(w, steps) == Run(v, steps[1..])
  {
  }

  /**
    For every state in which a callback sleeps and a Stop gives its answer: the callback,
    if it wakes next, restarts the process if and only if the process is gone and the
    Stop either failed, or found nothing to stop while the flag was down. An Ok answer
    always suppresses it.
   */
  lemma StopSuppressesExactly(w: World, s: Step, n: Id)
    requires Inv(w) && n in w.managers && 0 < w.managers[n].sleeping
    requires w.managers[n].op in {Scanning(Stop), Stopping}
    requires Enabled(w, s) && Owner(s) == Some(n) && Answer(s).Some?
    ensures Enabled(Apply(w, s), Wake(n))
    ensures Apply(Apply(w, s), Wake(n)).managers[n].op == Launching(ByCallback) <==>
            Exited(w.table, w.managers[n].handle) &&
            (s.StopFails? || (Answer(s).value.status == NotRunning && !w.managers[n].intentional))
  {
    assert ManagerInv(w.table, w.managers[n]);
  }

  lemma StaysWatched(w: World, s: Step, n: Id, p: Pid)
    requires Enabled(w, s) && n in w.managers && p in w.managers[n].watched && s != ExitSeen(n, p)
    ensures n in Apply(w, s).managers && p in Apply(w, s).managers[n].watched
  {
  }

  /**
    No exit goes unnoticed: a process that a manager launched or adopted is watched until
    its exit event is delivered, and when it is dead and the lock is free the event can be.
   */
  lemma {:induction false} ExitIsDelivered(w: World, steps: seq<Step>, i: nat, j: nat, n: Id, p: Pid)
    requires Legal(w, steps) && i < j <= |steps| && (steps[i] == Launch(n, p) || steps[i] == Adopt(n, p))
    requires forall k | i < k < j :: steps[k] != ExitSeen(n, p)
    ensures n in At(w, steps, j).managers && p in At(w, steps, j).managers[n].watched
    ensures At(w, steps, j).managers[n].op == Idle && !Alive(At(w, steps, j).table, p) ==>
              Enabled(At(w, steps, j), ExitSeen(n, p))
    decreases j
  {
    AtNext(w, steps, j - 1);
    if i < j - 1 {
      ExitIsDelivered(w, steps, i, j - 1, n, p);
      StaysWatched(At(w, steps, j - 1), steps[j - 1], n, p);
    }
  }

  /**
    A crash is answered: if the tracked process dies while no Stop's mark stands, its exit
    event puts a callback to sleep, and that callback wakes to launch again.
   */
  lemma CrashIsAnswered(w: World, n: Id, p: Pid)
    requires Inv(w) && n in w.managers && w.managers[n].op == Idle && w.managers[n].handle == Attached(p)
    requires p in w.managers[n].watched && !Alive(w.table, p)
    ensures Enabled(w, ExitSeen(n, p))
    ensures var v := Apply(w, ExitSeen(n, p));
            if w.managers[n].intentional then v.managers[n].sleeping == w.managers[n].sleeping
            else v.managers[n].sleeping == w.managers[n].sleeping + 1 && Enabled(v, Wake(n)) &&
                 Apply(v, Wake(n)).managers[n].op == Launching(ByCallback)
  {
  }

  // ---------------------------------------------------------------- restart accounting

  datatype Tally = Tally(starts: nat, exits: nat, attempts: nat, launches: nat, adoptions: nat)

  /** What happened at manager n during a run. */
  function Count(steps: seq<Step>, n: Id): Tally {
    if steps == [] then Tally(0, 0, 0, 0, 0)
    else Plus(Count(steps[..|steps| - 1], n), steps[|steps| - 1], n)
  }

  function Plus(c: Tally, s: Step, n: Id): Tally {
    if Owner(s) != Some(n) then c
    else Tally(c.starts + (if s.Begin? && s.call == Start then 1 else 0),
               c.exits + (if s.ExitSeen? then 1 else 0),
               c.attempts + (if s.Launch? || s.LaunchFails? then 1 else 0),
               c.launches + (if s.Launch? then 1 else 0),
               c.adoptions + (if s.Adopt? then 1 else 0))
  }

  /** A Start in progress and a callback that decided to launch each own one attempt. */
  function Owed(op: Operation): nat {
    if op.Launching? || op == Scanning(Start) then 1 else 0
  }

  ghost predicate Balanced(c: Tally, w: World, n: Id) {
    if n in w.managers then BalancedManager(c, w.managers[n]) else c == Tally(0, 0, 0, 0, 0)
  }

  ghost predicate BalancedManager(c: Tally, m: Manager) {
    c.attempts + m.sleeping + Owed(m.op) <= c.starts + c.exits &&
    c.exits + |m.watched| == c.launches + c.adoptions
  }

  lemma BalancedStep(c: Tally, w: World, s: Step, n: Id)
    requires Inv(w) && Enabled(w, s) && Balanced(c, w, n)
    ensures Balanced(Plus(c, s, n), Apply(w, s), n)
  {
    if n in w.managers && Owner(s) == Some(n) {
      assert ManagerInv(w.table, w.managers[n]);
      BalancedOwnStep(c, w, s, n);
    }
  }

  lemma BalancedOwnStep(c: Tally, w: World, s: Step, n: Id)
    requires Enabled(w, s) && Owner(s) == Some(n) && n in w.managers && ManagerInv(w.table, w.managers[n])
    requires BalancedManager(c, w.managers[n])
    ensures n in Apply(w, s).managers && BalancedManager(Plus(c, s, n), Apply(w, s).managers[n])
  {
    WatchedCount(w, s, n);
  }

  lemma {:induction false} AccountingAt(w: World, steps: seq<Step>, n: Id, i: nat)
    requires Initial(w) && Legal(w, steps) && i <= |steps|
    ensures Balanced(Count(steps[..i], n), At(w, steps, i), n)
    decreases i
  {
    if i == 0 {
      assert At(w, steps, 0) == w;
    } else {
      AccountingAt(w, steps, n, i - 1);
      AtNext(w, steps, i - 1);
      InvAt(w, steps, i - 1);
      BalancedStep(Count(steps[..i - 1], n), At(w, steps, i - 1), steps[i - 1], n);
      assert steps[..i][..i - 1] == steps[..i - 1];
    }
  }

  /** A step adds a watched process only by launching or adopting one that was not watched. */
  lemma WatchedCount(w: World, s: Step, n: Id)
    requires Enabled(w, s) && n in w.managers && ManagerInv(w.table, w.managers[n])
    ensures |Apply(w, s).managers[n].watched| ==
            |w.managers[n].watched| +
            (if Owner(s) == Some(n) && (s.Launch? || s.Adopt?) then 1 else 0) -
            (if Owner(s) == Some(n) && s.ExitSeen? then 1 else 0)
  {
    if Owner(s) == Some(n) {
      WatchedAfter(w, s, w.managers[n]);
    }
  }

  lemma WatchedAfter(w: World, s: Step, m: Manager)
    requires Owner(s).Some? && ManagerEnabled(w, m, s) && ManagerInv(w.table, m)
    ensures |ManagerAfter(w.table, m, s).watched| ==
            |m.watched| + (if s.Launch? || s.Adopt? then 1 else 0) - (if s.ExitSeen? then 1 else 0)
  {
    if s.Launch? || s.Adopt? {
      assert s.pid !in m.watched;
      assert ManagerAfter(w.table, m, s).watched == m.watched + {s.pid};
    } else if s.ExitSeen? {
      assert s.pid in m.watched;
      assert ManagerAfter(w.table, m, s).watched == m.watched - {s.pid};
    }
  }

  /**
    In any run the launch attempts of a manager are at most its Start calls plus the exit
    events delivered to it, and those events at most its successful launches plus adoptions.
   */
  lemma RestartAccounting(w: World, steps: seq<Step>, n: Id)
    requires Initial(w) && Legal(w, steps)
    ensures Count(steps, n).attempts <= Count(steps, n).starts + Count(steps, n).exits
    ensures Count(steps, n).exits <= Count(steps, n).launches + Count(steps, n).adoptions
  {
    AccountingAt(w, steps, n, |steps|);
    assert steps[..|steps|] == steps;
  }

  // ---------------------------------------------------------------- several instances

  /** The process a step of a manager singles out: adopts, or kills as a duplicate. */
  predicate Selects(s: Step, n: Id, p: Pid) {
    (s.Adopt? || s.AdoptFails? || s.KillDuplicate?) && s.id == n && s.pid == p
  }

  /** What a manager launched descends from nothing but itself. */
  ghost predicate Rootless(w: World, n: Id) {
    n in w.managers ==> forall p | p in w.managers[n].launched :: p in w.table && w.table[p].parent == None
  }

  lemma RootlessStep(w: World, s: Step, n: Id)
    requires Enabled(w, s) && Rootless(w, n)
    ensures Rootless(Apply(w, s), n)
  {
    StepIsLater(w, s);
  }

  lemma {:induction false} RootlessAt(w: World, steps: seq<Step>, i: nat, n: Id)
    requires Initial(w) && Legal(w, steps) && i <= |steps|
    ensures Rootless(At(w, steps, i), n)
    decreases i
  {
    if i > 0 {
      RootlessAt(w, steps, i - 1, n);
      AtNext(w, steps, i - 1);
      RootlessStep(At(w, steps, i - 1), steps[i - 1], n);
    }
  }

  /** No step of a manager ends a process that a manager of another executable launched. */
  lemma LaunchedSurvives(w: World, s: Step, n: Id, k: Id, p: Pid)
    requires Inv(w) && Enabled(w, s) && Owner(s) == Some(n) && Rootless(w, k)
    requires n in w.managers && k in w.managers && w.managers[n].exe != w.managers[k].exe
    requires p in w.managers[k].launched && Alive(w.table, p)
    ensures Alive(Apply(w, s).table, p)
  {
    assert ManagerInv(w.table, w.managers[n]) && ManagerInv(w.table, w.managers[k]);
    if s.KillDuplicate? {
      assert p in s.victims ==> Descends(w.table, p, s.pid);
    } else if s.KillTracked? {
      assert p in s.victims ==> Descends(w.table, p, w.managers[n].handle.pid);
    }
  }

  /**
    Managers of different executables never select each other's processes, and no step of
    one changes what the other knows or ends what the other launched; a process that the
    other adopted dies in such a step only as a descendant of a process that runs the first
    one's executable.
   */
  lemma InstancesDoNotInterfere(w: World, steps: seq<Step>, i: nat, n: Id, k: Id)
    requires Initial(w) && Legal(w, steps) && i < |steps| && Owner(steps[i]) == Some(n)
    requires n in At(w, steps, i).managers && k in At(w, steps, i).managers
    requires At(w, steps, i).managers[n].exe != At(w, steps, i).managers[k].exe
    ensures k in At(w, steps, i + 1).managers
    ensures At(w, steps, i + 1).managers[k] == At(w, steps, i).managers[k]
    ensures forall p | Selects(steps[i], n, p) ::
              p !in At(w, steps, i).managers[k].launched && At(w, steps, i).managers[k].handle != Attached(p)
    ensures forall p | p in At(w, steps, i).managers[k].launched && Alive(At(w, steps, i).table, p) ::
              Alive(At(w, steps, i + 1).table, p)
    ensures var v, h := At(w, steps, i), At(w, steps, i).managers[k].handle;
            h.Attached? && Alive(v.table, h.pid) && !Alive(At(w, steps, i + 1).table, h.pid) ==>
              h.pid !in v.managers[k].launched &&
              exists root :: root in v.table && v.table[root].exe == v.managers[n].exe && root != h.pid &&
                             Descends(v.table, h.pid, root)
  {
    AtNext(w, steps, i);
    InvAt(w, steps, i);
    var v, s := At(w, steps, i), steps[i];
    assert ManagerInv(v.table, v.managers[n]) && ManagerInv(v.table, v.managers[k]);
    RootlessAt(w, steps, i, k);
    forall p | p in v.managers[k].launched && Alive(v.table, p)
      ensures Alive(At(w, steps, i + 1).table, p)
    {
      LaunchedSurvives(v, s, n, k, p);
    }
    var h := v.managers[k].handle;
    if h.Attached? && Alive(v.table, h.pid) && !Alive(At(w, steps, i + 1).table, h.pid) {
      if s.KillDuplicate? {
        assert Descends(v.table, h.pid, s.pid);
      } else {
        assert s.KillTracked? && Descends(v.table, h.pid, v.managers[n].handle.pid);
      }
    }
  }

  /**
    The only processes a manager ever kills: those in the tree of a process that runs its
    executable and is not the one it tracks, and, in a Stop, those in the tree of that one.
   */
  lemma DeathsByManager(w: World, steps: seq<Step>, i: nat, n: Id, p: Pid)
    requires Initial(w) && Legal(w, steps) && i < |steps| && Owner(steps[i]) == Some(n)
    requires Alive(At(w, steps, i).table, p) && !Alive(At(w, steps, i + 1).table, p)
    ensures n in At(w, steps, i).managers
    ensures var v, m := At(w, steps, i), At(w, steps, i).managers[n];
            if m.op == Stopping then m.handle.Attached? && Descends(v.table, p, m.handle.pid)
            else exists root :: root in v.table && v.table[root].exe == m.exe && m.handle != Attached(root) &&
                                Descends(v.table, p, root)
  {
    AtNext(w, steps, i);
    var v, s := At(w, steps, i), steps[i];
    if s.KillDuplicate? {
      assert Descends(v.table, p, s.pid);
    }
  }

  // ---------------------------------------------------------------- files

  lemma FilesStep(w: World, s: Step)
    requires Enabled(w, s) && WellFormed(w.files)
    ensures WellFormed(Apply(w, s).files)
  {
  }

  lemma {:induction false} FilesAt(w: World, steps: seq<Step>, i: nat)
    requires Initial(w) && Legal(w, steps) && i <= |steps|
    ensures WellFormed(At(w, steps, i).files)
    decreases i
  {
    if i > 0 {
      FilesAt(w, steps, i - 1);
      AtNext(w, steps, i - 1);
      FilesStep(At(w, steps, i - 1), steps[i - 1]);
    }
  }

  /** A deletion that reaches the executable of manager n was allowed by that manager. */
  predicate Asks(w: World, s: Step, n: Id) {
    s.RemoveFiles? && n in w.managers && s.root <= w.managers[n].home ==> s.checked == Some(n)
  }

  ghost predicate AlwaysAsks(w: World, steps: seq<Step>, end: nat, n: Id)
    requires Legal(w, steps) && end <= |steps|
  {
    forall j | 0 <= j < end :: Asks(At(w, steps, j), steps[j], n)
  }

  lemma HomeStep(w: World, s: Step, n: Id, p: Pid)
    requires Inv(w) && Enabled(w, s) && Asks(w, s, n)
    requires n in Apply(w, s).managers && p in Apply(w, s).managers[n].launched && Alive(Apply(w, s).table, p)
    requires n in w.managers && p in w.managers[n].launched && Alive(w.table, p) ==> IsFile(w.files, w.managers[n].home)
    ensures IsFile(Apply(w, s).files, Apply(w, s).managers[n].home)
  {
    if n in w.managers && !(s.Launch? && s.id == n) {
      StepIsLater(w, s);
      assert ManagerInv(w.table, w.managers[n]);
      assert w.managers[n].handle == Attached(p);
    }
  }

  /**
    While the deletions that reach it ask its manager first, the executable of every live
    process that the manager launched is still there, and so is every folder around it.
   */
  lemma {:induction false} ExecutableOutlivesProcess(w: World, steps: seq<Step>, i: nat, n: Id, p: Pid)
    requires Initial(w) && Legal(w, steps) && i <= |steps| && AlwaysAsks(w, steps, i, n)
    requires n in At(w, steps, i).managers
    requires p in At(w, steps, i).managers[n].launched && Alive(At(w, steps, i).table, p)
    ensures var v := At(w, steps, i);
            IsFile(v.files, v.managers[n].home) &&
            forall folder | folder < v.managers[n].home :: IsDir(v.files, folder)
    decreases i
  {
    if i > 0 {
      AtNext(w, steps, i - 1);
      InvAt(w, steps, i - 1);
      var v := At(w, steps, i - 1);
      if n in v.managers && p in v.managers[n].launched && Alive(v.table, p) {
        ExecutableOutlivesProcess(w, steps, i - 1, n, p);
      }
      HomeStep(v, steps[i - 1], n, p);
    }
    FilesAt(w, steps, i);
    FoldersAround(At(w, steps, i).files, At(w, steps, i).managers[n].home);
  }

  lemma FoldersAround(m: Tree, p: Path)
    requires WellFormed(m) && p in m
    ensures forall folder | folder < p :: IsDir(m, folder)
  {
    forall folder | folder < p
      ensures IsDir(m, folder)
    {
      assert folder == p[..|folder|];
    }
  }

  /** Every live process that a manager launched still has its executable. */
  ghost predicate HomesStand(w: World) {
    forall n, p | n in w.managers && p in w.managers[n].launched && Alive(w.table, p) ::
      IsFile(w.files, w.managers[n].home)
  }

  /**
    No manager, of this registration or a former one, has a live process of its own at or
    below the folder: what IsRunning says when it is asked of all of them.
   */
  ghost predicate NobodyRunsBelow(w: World, root: Path) {
    forall n, p | n in w.managers && root <= w.managers[n].home && p in w.managers[n].launched :: !Alive(w.table, p)
  }

  predicate Complete(s: Step) {
    s.RemoveFiles? ==> forall q | q in s.files :: !(s.root <= q)
  }

  /** A deletion below which nobody runs is harmless, and a complete one only then. */
  lemma DeletionExactly(w: World, s: Step)
    requires Inv(w) && HomesStand(w) && Enabled(w, s) && s.RemoveFiles?
    ensures NobodyRunsBelow(w, s.root) ==> HomesStand(Apply(w, s))
    ensures Complete(s) ==> (HomesStand(Apply(w, s)) <==> NobodyRunsBelow(w, s.root))
  {
    var v := Apply(w, s);
    assert v.managers == w.managers && v.table == w.table;
    if NobodyRunsBelow(w, s.root) {
      forall n, p | n in v.managers && p in v.managers[n].launched && Alive(v.table, p)
        ensures IsFile(v.files, v.managers[n].home)
      {
        assert !(s.root <= w.managers[n].home);
      }
    } else if Complete(s) {
      var n, p :| n in w.managers && s.root <= w.managers[n].home && p in w.managers[n].launched && Alive(w.table, p);
      assert !IsFile(v.files, v.managers[n].home);
    }
  }

  lemma OtherStepKeepsHomes(w: World, s: Step)
    requires Inv(w) && HomesStand(w) && Enabled(w, s) && !s.RemoveFiles?
    ensures HomesStand(Apply(w, s))
  {
    var v := Apply(w, s);
    forall n, p | n in v.managers && p in v.managers[n].launched && Alive(v.table, p)
      ensures IsFile(v.files, v.managers[n].home)
    {
      if n in w.managers && p in w.managers[n].launched {
        StepIsLater(w, s);
      }
      HomeStep(w, s, n, p);
    }
  }

  ghost predicate HomesAlwaysStand(w: World, steps: seq<Step>, end: nat)
    requires Legal(w, steps) && end <= |steps|
  {
    forall i | 0 <= i <= end :: HomesStand(At(w, steps, i))
  }

  ghost predicate DeletionsAreQuiet(w: World, steps: seq<Step>, end: nat)
    requires Legal(w, steps) && end <= |steps|
  {
    forall i | 0 <= i < end && steps[i].RemoveFiles? :: NobodyRunsBelow(At(w, steps, i), steps[i].root)
  }

  /**
    Over any run: no live process that was launched ever loses its executable if every
    deletion finds nobody running below its folder, and only if, when no deletion breaks off.
   */
  lemma {:induction false} RunningKeepExecutableExactly(w: World, steps: seq<Step>, end: nat)
    requires Initial(w) && Legal(w, steps) && end <= |steps|
    ensures DeletionsAreQuiet(w, steps, end) ==> HomesAlwaysStand(w, steps, end)
    ensures (forall i | 0 <= i < end :: Complete(steps[i])) ==>
              (HomesAlwaysStand(w, steps, end) <==> DeletionsAreQuiet(w, steps, end))
    decreases end
  {
    if end > 0 {
      var last := end - 1;
      RunningKeepExecutableExactly(w, steps, last);
      AtNext(w, steps, last);
      InvAt(w, steps, last);
      var v := At(w, steps, last);
      if HomesStand(v) {
        if steps[last].RemoveFiles? {
          DeletionExactly(v, steps[last]);
        } else {
          OtherStepKeepsHomes(v, steps[last]);
        }
      }
      assert HomesAlwaysStand(w, steps, end) <==> HomesAlwaysStand(w, steps, last) && HomesStand(At(w, steps, end));
    }
  }

  /**
    A deletion that asks another manager does not help: a manager of a former registration
    restarts its process after its cool-down, and DeleteInstance, which only knows the new
    manager of the same instance, takes the folder away under it.
   */
  lemma StaleManagerLosesFolder(w: World)
    requires w == World(map[], map[], DISK)
    ensures Initial(w) && Legal(w, Crash() + StaleRestart())
    ensures var v := Run(w, Crash() + StaleRestart());
            0 in v.managers && 1 in v.managers[0].launched && Alive(v.table, 1) && v.managers[0].home == HOME &&
            !IsFile(v.files, HOME) && !IsDir(v.files, ["d"])
  {
    DiskIsTree();
    CrashRuns(w);
    StaleRestartRuns(CoolingDown());
    RunConcat(w, Crash(), StaleRestart());
  }

  /** The app is registered again, the old callback wakes, and the instance is deleted. */
  function StaleRestart(): seq<Step> {
    [Create(1, "x", HOME), Wake(0), Launch(0, 1), RemoveFiles(Some(1), ["d"], map[[] := Dir])]
  }

  lemma StaleRestartRuns(w: World)
    requires w == CoolingDown()
    ensures Legal(w, StaleRestart())
    ensures var v := Run(w, StaleRestart());
            0 in v.managers && 1 in v.managers[0].launched && Alive(v.table, 1) && v.managers[0].home == HOME &&
            v.files == map[[] := Dir]
  {
    var s := StaleRestart();
    var old0, new1 := w.managers[0], Manager("x", HOME, Absent, false, Idle, {}, {}, 0);
    var w1 := w.(managers := map[0 := old0, 1 := new1]);
    var w2 := w.(managers := map[0 := old0.(op := Launching(ByCallback), sleeping := 0), 1 := new1]);
    LaunchAndDelete(w2, s[2..], new1);
    OneStep(w1, s[1..], w2);
    OneStep(w, s, w1);
  }

  lemma LaunchAndDelete(w: World, s: seq<Step>, new1: Manager)
    requires new1 == Manager("x", HOME, Absent, false, Idle, {}, {}, 0)
    requires w == CoolingDown().(managers :=
                    map[0 := Manager("x", HOME, Attached(0), false, Launching(ByCallback), {0}, {}, 0), 1 := new1])
    requires s == [Launch(0, 1), RemoveFiles(Some(1), ["d"], map[[] := Dir])]
    ensures Legal(w, s)
    ensures var v := Run(w, s);
            0 in v.managers && 1 in v.managers[0].launched && Alive(v.table, 1) && v.managers[0].home == HOME &&
            v.files == map[[] := Dir]
  {
    var w1 := Apply(w, s[0]);
    assert w1.managers[0].launched == {0, 1} && w1.managers[1] == new1;
    OneStep(w1, s[1..], Apply(w1, s[1]));
    OneStep(w, s, w1);
  }
}
