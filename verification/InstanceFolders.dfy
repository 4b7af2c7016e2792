/** InstanceManagerService: creating, deleting and listing the folders of an app's instances. */
module InstanceFolders {
  import opened Common
  import opened Paths
  import opened Names
  import opened FileTree
  import opened InstanceRegistry
  import opened Supervision
  import opened SupervisionRuns
  import Supervisor

  /**
    The commands of the service are whole commands: each works on the file system as it
    finds it, and what it did to it is one step of the state machine.
   */
  class InstanceManagerService {
    const options: AppOptions
    const setting: Setting
    const registry: ProcessManagerRegistry
    /** How the file system behaves; see FileSystem. */
    const maxDepth: nat
    const reliable: bool

    ghost predicate Valid()
      reads this, registry, registry.os
    {
      registry.Valid() && registry.options == options && registry.setting == setting && registry.os.Valid()
    }

    constructor (registry: ProcessManagerRegistry, maxDepth: nat, reliable: bool)
      requires registry.Valid() && registry.os.Valid()
      ensures Valid() && this.registry == registry && this.maxDepth == maxDepth && this.reliable == reliable
    {
      options, setting, this.registry := registry.options, registry.setting, registry;
      this.maxDepth, this.reliable := maxDepth, reliable;
    }

    /** The file system. */
    function Files(): Tree
      reads registry.os
    {
      registry.os.world.files
    }

    /** Processes and managers are as they were. */
    ghost predicate OnlyFiles(w: Supervision.World)
      reads registry.os
    {
      registry.os.world == w.(files := Files())
    }

    /** The path of a numbered folder, as a string and as components up to case. */
    function TargetPath(number: nat): string {
      Combine(options.instancesRootPath, InstanceName(options.instanceNamePrefix, number))
    }

    function Target(number: nat): Path
      requires setting.cwd != []
    {
      Place(options, InstanceName(options.instanceNamePrefix, number), setting)
    }

    /** The path string and the components are of the same folder. */
    lemma TargetIsPlace(number: nat)
      requires setting.cwd != []
      ensures FoldAll(Parts(TargetPath(number), setting.cwd)) == Target(number)
    {
    }

    /** IsContained for the target of a numbered instance. */
    predicate Allowed(number: nat)
      requires setting.cwd != []
    {
      IsContained(TargetPath(number), options.instancesRootPath, setting.cwd)
    }

    /** With simple paths the containment check lets every number through. */
    lemma EveryNumberAllowed(number: nat)
      requires Valid()
      ensures SimplePaths(options) ==>
                Allowed(number) &&
                Target(number) == RootFolder(options, setting) + [Fold(InstanceName(options.instanceNamePrefix, number))]
    {
      if SimplePaths(options) {
        TargetIsPlace(number);
        BuiltNameIsValid(options.instanceNamePrefix, number, setting.digit);
        NumberedPlace(options, InstanceName(options.instanceNamePrefix, number), setting);
        LongerIsContained(TargetPath(number), options.instancesRootPath, setting.cwd);
      }
    }

    /**
      Ok: the new folder holds exactly the Default tree, and nothing else changed. The other
      answers leave every existing file alone, and say why: a bad number, a target outside
      the root, a folder that exists already, a missing Default folder, or a failed copy.
     */
    method CreateInstance(number: int) returns (status: Status)
      requires Valid()
      modifies registry.os
      ensures Valid() && OnlyFiles(old(registry.os.world))
      ensures status in {Ok, AlreadyRunning, Error}
      ensures status == Ok ==>
                number > 0 && Allowed(number) && Disjoint(old(Files()), DefaultFolder(options, setting), Target(number)) &&
                Grafted(old(Files()), Files(), DefaultFolder(options, setting), Target(number))
      ensures status == AlreadyRunning <==> number > 0 && Allowed(number) && IsDir(old(Files()), Target(number))
      ensures status == AlreadyRunning || number <= 0 || !Allowed(number) ||
              !IsDir(old(Files()), DefaultFolder(options, setting)) ==>
                Files() == old(Files())
      ensures number > 0 ==> AddsAround(old(Files()), Files(), Target(number))
      ensures reliable && number > 0 && Allowed(number) &&
              Disjoint(old(Files()), DefaultFolder(options, setting), Target(number)) ==>
                Room(old(Files()), DefaultFolder(options, setting), Target(number), maxDepth) ==> status == Ok
      ensures SimplePaths(options) && number > 0 ==>
                (status == AlreadyRunning <==> IsDir(old(Files()), Target(number))) &&
                (reliable && CopyFits(old(Files()), number) ==> status == Ok)
      ensures Recorded(old(registry.os.trace), old(Files()), AddFiles(Files()))
      ensures old(registry.OnlyOwnDeletions()) ==> registry.OnlyOwnDeletions()
    {
      if number <= 0 {
        return Error;
      }
      EveryNumberAllowed(number);
      var targetPath := TargetPath(number);
      if !IsContained(targetPath, options.instancesRootPath, setting.cwd) {
        return Error;
      }
      status := CreateFolder(DefaultFolder(options, setting), Target(number));
      KeepsOwn(old(registry.os.trace), AddFiles(Files()));
    }

    /** There is a Default folder apart from the target, nothing at the target, and room. */
    ghost predicate CopyFits(files: Tree, number: nat)
      requires setting.cwd != []
    {
      Disjoint(files, DefaultFolder(options, setting), Target(number)) &&
      Room(files, DefaultFolder(options, setting), Target(number), maxDepth)
    }

    /** The history gained step s, unless nothing happened to the files. */
    ghost predicate Recorded(before: seq<Step>, files: Tree, s: Step)
      reads registry.os
    {
      registry.os.trace == before + [s] || (registry.os.trace == before && Files() == files)
    }

    /** A step that treats the folders of this scope as its own commands do keeps OnlyOwnDeletions. */
    lemma KeepsOwn(before: seq<Step>, s: Step)
      requires registry.Valid() && (registry.os.trace == before || registry.os.trace == before + [s])
      requires registry.options == options && registry.setting == setting
      requires forall key | key in registry.managers ::
                 Considerate(options, setting, s, registry.managers[key].id, registry.spelled[key])
      ensures AllOwn(options, setting, before, registry.ids, registry.spelled) ==> registry.OnlyOwnDeletions()
    {
      if AllOwn(options, setting, before, registry.ids, registry.spelled) {
        AllOwnGrows(options, setting, before, s, registry.ids, registry.spelled);
      }
    }

    /** CreateInstance from its directory checks on. */
    method CreateFolder(source: Path, target: Path) returns (status: Status)
      requires Valid()
      modifies registry.os
      ensures Valid() && OnlyFiles(old(registry.os.world)) && AddsAround(old(Files()), Files(), target)
      ensures status in {Ok, AlreadyRunning, Error}
      ensures status == Ok ==> Disjoint(old(Files()), source, target) && Grafted(old(Files()), Files(), source, target)
      ensures status == AlreadyRunning <==> IsDir(old(Files()), target)
      ensures status == AlreadyRunning || !IsDir(old(Files()), source) ==> Files() == old(Files())
      ensures reliable && Disjoint(old(Files()), source, target) ==>
                Room(old(Files()), source, target, maxDepth) ==> status == Ok
      ensures Recorded(old(registry.os.trace), old(Files()), AddFiles(Files()))
    {
      registry.os.FilesAreTree();
      if IsDir(Files(), target) {
        return AlreadyRunning;
      }
      if !IsDir(Files(), source) {
        return Error;
      }
      var fs := new FileSystem(Files(), maxDepth, reliable);
      var ok := CopyDirectory(fs, source, target);
      if ok {
        CopiedApart(Files(), source, target);
      }
      registry.os.Do(AddFiles(fs.nodes));
      return if ok then Ok else Error;
    }

    /** The names of the folders that ListInstances finds, up to letter case. */
    function Listed(): set<string>
      requires setting.cwd != []
      reads registry.os
    {
      set c | c in Directories(Files(), RootFolder(options, setting)) && MatchesPattern(options.instanceNamePrefix, c)
    }

    /**
      The names ListInstances reports, up to letter case: the Default instance first if its
      folder exists, then each folder below the root that matches the prefix, once.
     */
    method ListNames() returns (names: seq<string>)
      requires Valid()
      ensures var shown := options.defaultInstancePath != "" && IsDir(Files(), DefaultFolder(options, setting));
              var first := if shown then [options.defaultInstanceName] else [];
              first <= names && |names| == |first| + |Listed()| &&
              forall c :: c in names[|first|..] <==> c in Listed()
    {
      registry.os.FilesAreTree();
      names := [];
      if options.defaultInstancePath != "" && IsDir(Files(), DefaultFolder(options, setting)) {
        names := [options.defaultInstanceName];
      }
      if IsDir(Files(), RootFolder(options, setting)) {
        ghost var first := names;
        var todo := Listed();
        while todo != {}
          invariant todo <= Listed() && first <= names && |names| == |first| + |Listed()| - |todo|
          invariant forall c :: c in names[|first|..] <==> c in Listed() && c !in todo
          decreases todo
        {
          var c :| c in todo;
          todo := todo - {c};
          assert (names + [c])[|first|..] == names[|first|..] + [c];
          names := names + [c];
        }
      } else {
        NoChildren(Files(), RootFolder(options, setting));
        assert Listed() == {};
      }
    }

    /** What the listing contains, in terms of the file system and the prefix. */
    lemma ListedExactly(c: string)
      requires Valid()
      ensures c in Listed() <==>
              IsDir(Files(), RootFolder(options, setting) + [c]) &&
              exists t :: Fold(c) == Fold(options.instanceNamePrefix) + "-" + Fold(t)
    {
      ChildIn(Files(), RootFolder(options, setting), c);
      MatchesExactly(options.instanceNamePrefix, c);
    }

    /**
      The web client's Create against an agent that does nothing else: list, pick the next
      number, create. With simple paths the picked folder is never there already; a number
      out of range is refused.
     */
    method CreateNext() returns (number: int, status: Status)
      requires Valid()
      modifies registry.os
      ensures Valid() && (number <= 0 ==> status == Error)
      ensures SimplePaths(options) ==> status != AlreadyRunning && (number > 0 ==> !IsDir(old(Files()), Target(number)))
      ensures status == Ok ==>
                number > 0 && Grafted(old(Files()), Files(), DefaultFolder(options, setting), Target(number))
    {
      var names := ListNames();
      assert forall k | 0 <= k <= |names| :: forall c | c in names[k..] :: c in names;
      number := PickNumber(Some(names));
      if number > 0 {
        PickedIsFree(names, number);
      }
      status := CreateInstance(number);
    }

    lemma PickedIsFree(names: seq<string>, number: nat)
      requires Valid() && number > 0 && number == Next(Some(names))
      requires forall c | c in Listed() :: c in names
      ensures SimplePaths(options) ==> !IsDir(Files(), Target(number))
    {
      if SimplePaths(options) && IsDir(Files(), Target(number)) {
        ListedIfThere(number);
        FoldTwice(InstanceName(options.instanceNamePrefix, number));
        PickedIsFresh(names, options.instanceNamePrefix);
      }
    }

    lemma ListedIfThere(number: nat)
      requires Valid() && SimplePaths(options) && IsDir(Files(), Target(number))
      ensures Fold(InstanceName(options.instanceNamePrefix, number)) in Listed()
    {
      var stem, d := options.instanceNamePrefix + "-", Decimal(number);
      var name := InstanceName(options.instanceNamePrefix, number);
      BuiltNameIsValid(options.instanceNamePrefix, number, setting.digit);
      NumberedPlace(options, name, setting);
      ChildIn(Files(), RootFolder(options, setting), Fold(name));
      FoldTwice(name);
      FoldConcat(stem, d);
      assert name == stem + d;
      assert MatchesPattern(options.instanceNamePrefix, Fold(name));
    }

    /** registry.GetAll, and IsRunning of the manager found under the exact name. */
    method IsRunning(name: string) returns (running: bool)
      requires Valid() && ValidName(name, options.instanceNamePrefix, setting.digit) && !IsDefault(options, name)
      requires Fold(name) in registry.managers ==> registry.managers[Fold(name)].Valid()
      ensures running == (Fold(name) in registry.managers &&
                          !Exited(registry.os.world.table, registry.managers[Fold(name)].managedProcess))
    {
      var managers := registry.GetAll();
      if name !in managers {
        return false;
      }
      var exited := managers[name].HasExitedSafe();
      return !exited;
    }

    /**
      Ok: the folder and everything in it is gone, nothing else is, and the instance's
      manager, if there is one, tracked no live process. The Default instance and a running
      one are refused, a missing folder is reported, and all but a failing deletion leave
      the file system as it was.
     */
    method DeleteInstance(number: int) returns (status: Status)
      requires Valid() && (number > 0 ==> AtRest(number))
      modifies registry.os
      ensures Valid() && OnlyFiles(old(registry.os.world))
      ensures status in {Ok, NotRunning, Error}
      ensures number <= 0 ==> status == Error && Files() == old(Files())
      ensures number > 0 ==> Deleted(number, status, old(Files()), Files())
      ensures reliable && status == Error ==> Files() == old(Files())
      ensures number > 0 ==>
                Recorded(old(registry.os.trace), old(Files()), RemoveFiles(Checked(number), Target(number), Files()))
      ensures number > 0 && old(Tracked(number)) ==> status != Ok && Files() == old(Files())
      ensures reliable && number > 0 && Named(number) && old(IsDir(Files(), Target(number)) && !Tracked(number)) ==>
                status == Ok
      ensures SimplePaths(options) && number > 0 && !IsDefault(options, InstanceName(options.instanceNamePrefix, number)) ==>
                (status == NotRunning <==> !IsDir(old(Files()), Target(number))) &&
                (reliable && old(IsDir(Files(), Target(number)) && !Tracked(number)) ==> status == Ok)
      ensures old(registry.OnlyOwnDeletions()) ==> registry.OnlyOwnDeletions()
      ensures number > 0 && old(HomesStand(registry.os.world)) ==> HarmlessIfQuiet(number, status, old(registry.os.world))
    {
      if number <= 0 {
        return Error;
      }
      EveryNumberAllowed(number);
      var refusal := Refusal(number);
      if refusal.Some? {
        return refusal.value;
      }
      var ok := RemoveTree(number);
      return if ok then Ok else Error;
    }

    /** The checks of DeleteInstance, in the order of the code. */
    method Refusal(number: nat) returns (refusal: Option<Status>)
      requires Valid() && number > 0 && AtRest(number)
      ensures refusal in {None, Some(NotRunning), Some(Error)}
      ensures refusal == Some(NotRunning) <==> Named(number) && !IsDir(Files(), Target(number))
      ensures refusal == None <==> Named(number) && IsDir(Files(), Target(number)) && !Tracked(number)
    {
      var name := InstanceName(options.instanceNamePrefix, number);
      BuiltNameIsValid(options.instanceNamePrefix, number, setting.digit);
      if IsDefault(options, name) {
        return Some(Error);
      }
      if !IsContained(TargetPath(number), options.instancesRootPath, setting.cwd) {
        return Some(Error);
      }
      if !IsDir(Files(), Target(number)) {
        return Some(NotRunning);
      }
      var running := IsRunning(name);
      return if running then Some(Error) else None;
    }

    /**
      No live process lost its executable if nobody, known to this scope or not, ran below
      the folder; and after Ok only if.
     */
    ghost predicate HarmlessIfQuiet(number: nat, status: Status, before: Supervision.World)
      requires setting.cwd != []
      reads registry.os
    {
      && (NobodyRunsBelow(before, Target(number)) ==> HomesStand(registry.os.world))
      && (status == Ok ==> (HomesStand(registry.os.world) <==> NobodyRunsBelow(before, Target(number))))
    }

    lemma OwnCommandKeepsOwn(number: nat, before: seq<Step>)
      requires Valid() && number > 0 && Named(number)
      requires registry.os.trace == before + [RemoveFiles(Checked(number), Target(number), Files())]
      ensures AllOwn(options, setting, before, registry.ids, registry.spelled) ==> registry.OnlyOwnDeletions()
    {
      forall key | key in registry.managers
        ensures Considerate(options, setting, RemoveFiles(Checked(number), Target(number), Files()),
                            registry.managers[key].id, registry.spelled[key])
      {
        DeletionIsOwn(number, Files(), key);
      }
      KeepsOwn(before, RemoveFiles(Checked(number), Target(number), Files()));
    }

    /** The deletion itself, once nothing speaks against it. */
    method RemoveTree(number: nat) returns (ok: bool)
      requires Valid() && number > 0 && Named(number) && AtRest(number)
      requires IsDir(Files(), Target(number)) && !Tracked(number)
      modifies registry.os
      ensures Valid() && OnlyFiles(old(registry.os.world)) && (reliable ==> ok)
      ensures Deleted(number, if ok then Ok else Error, old(Files()), Files())
      ensures registry.os.trace == old(registry.os.trace) + [RemoveFiles(Checked(number), Target(number), Files())]
      ensures old(registry.OnlyOwnDeletions()) ==> registry.OnlyOwnDeletions()
      ensures old(HomesStand(registry.os.world)) ==>
                HarmlessIfQuiet(number, if ok then Ok else Error, old(registry.os.world))
    {
      registry.os.InvNow();
      ok := TakeAway(number);
      OwnCommandKeepsOwn(number, old(registry.os.trace));
      if old(HomesStand(registry.os.world)) {
        DeletionExactly(old(registry.os.world), RemoveFiles(Checked(number), Target(number), Files()));
      }
    }

    /** Directory.Delete, as one step of the state machine. */
    method TakeAway(number: nat) returns (ok: bool)
      requires Valid() && number > 0 && AtRest(number) && IsDir(Files(), Target(number)) && !Tracked(number)
      modifies registry.os
      ensures Valid() && OnlyFiles(old(registry.os.world)) && (reliable ==> ok)
      ensures Keeps(Files(), old(Files())) && KeepsOutside(old(Files()), Files(), Target(number))
      ensures if ok then forall q | q in Files() :: !(Target(number) <= q) else Target(number) in Files()
      ensures Enabled(old(registry.os.world), RemoveFiles(Checked(number), Target(number), Files()))
      ensures registry.os.world ==
              Apply(old(registry.os.world), RemoveFiles(Checked(number), Target(number), Files()))
      ensures registry.os.trace == old(registry.os.trace) + [RemoveFiles(Checked(number), Target(number), Files())]
    {
      PartsArePlain(TargetPath(number), setting.cwd);
      registry.os.FilesAreTree();
      var fs := new FileSystem(Files(), maxDepth, reliable);
      ok := DeleteTree(fs, Target(number));
      RemovalIsLegal(number, fs.nodes);
      registry.os.Do(RemoveFiles(if Key(number) in registry.managers then Some(registry.managers[Key(number)].id) else None,
                                 Target(number), fs.nodes));
    }

    /** The manager that a deletion asks, if there is one. */
    ghost function Checked(number: nat): Option<Id>
      reads registry
    {
      if Key(number) in registry.managers then Some(registry.managers[Key(number)].id) else None
    }

    /** No call of the instance's manager is in progress. */
    ghost predicate AtRest(number: nat)
      reads registry, registry.os, registry.managers.Values
    {
      Key(number) in registry.managers ==>
        registry.managers[Key(number)].os == registry.os && registry.managers[Key(number)].Valid()
    }

    /** The instance has a manager in the cache, and that tracks a live process. */
    ghost predicate Tracked(number: nat)
      reads registry, registry.os, registry.managers.Values
    {
      Key(number) in registry.managers &&
      !Exited(registry.os.world.table, registry.managers[Key(number)].managedProcess)
    }

    lemma RemovalIsLegal(number: nat, files: Tree)
      requires AtRest(number) && !Tracked(number)
      requires setting.cwd != [] && WellFormed(files)
      requires Keeps(files, Files()) && KeepsOutside(Files(), files, Target(number))
      ensures Enabled(registry.os.world, RemoveFiles(Checked(number), Target(number), files))
    {
    }

    function Key(number: nat): string {
      Fold(InstanceName(options.instanceNamePrefix, number))
    }

    /** For each instance of this scope, a deletion by it is one that asks that instance's manager. */
    lemma DeletionIsOwn(number: nat, files: Tree, key: string)
      requires Valid() && number > 0 && Named(number) && key in registry.managers
      ensures OwnDeletion(options, setting, RemoveFiles(Checked(number), Target(number), files),
                          registry.managers[key].id, registry.spelled[key])
    {
      BuiltNameIsValid(options.instanceNamePrefix, number, setting.digit);
    }

    /**
      The folder of every live instance of this scope is a directory, if all deletions since
      its manager was made were DeleteInstance commands of the scope, or somewhere else.
     */
    lemma LiveFoldersStand(key: string, p: Pid)
      requires Valid() && key in registry.managers
      requires IsDefault(options, registry.spelled[key]) ==> DefaultOutside(options, setting)
      requires var m := registry.managers[key];
               m.id in registry.os.world.managers && p in registry.os.world.managers[m.id].launched &&
               Alive(registry.os.world.table, p)
      requires registry.OnlyOwnDeletions()
      ensures IsFile(Files(), registry.managers[key].home)
      ensures var folder := Folder(options, registry.spelled[key], setting);
              folder < registry.managers[key].home ==> IsDir(Files(), folder)
    {
      var os := registry.os;
      os.History();
      AtEnd(os.origin, os.trace);
      FolderOutlivesProcess(options, setting, os.origin, os.trace, |os.trace|,
                            registry.managers[key].id, registry.spelled[key], p);
    }

    /** The number does not name the Default instance, nor a folder outside the root. */
    predicate Named(number: nat)
      requires setting.cwd != []
    {
      !IsDefault(options, InstanceName(options.instanceNamePrefix, number)) && Allowed(number)
    }

    /** What each answer of DeleteInstance means for the file system. */
    ghost predicate Deleted(number: nat, status: Status, m: Tree, n: Tree)
      requires setting.cwd != []
    {
      var t := Target(number);
      && (status == NotRunning <==> Named(number) && !IsDir(m, t))
      && (status == NotRunning ==> n == m)
      && (status == Ok ==> Named(number) && IsDir(m, t) && forall q :: q in n <==> q in m && !(t <= q))
      && (status == Error ==> n == m || (t in n && forall q | q in m && !(t <= q) :: q in n))
      && (forall q | q in n :: q in m && n[q] == m[q])
    }
  }

  lemma NoChildren(m: Tree, p: Path)
    requires WellFormed(m) && !IsDir(m, p)
    ensures Directories(m, p) == {}
  {
    forall q | q in m && |q| == |p| + 1 && p <= q
      ensures q[..|p|] == p
    {
      TakePrefix(p, q);
    }
  }

  lemma FoldTwice(s: string)
    ensures Fold(Fold(s)) == Fold(s)
  {
  }

  /** A copy that was not refused started from disjoint paths with nothing at the target. */
  lemma CopiedApart(m: Tree, src: Path, dst: Path)
    requires WellFormed(m) && IsDir(m, src) && !IsDir(m, dst) && !(src < dst)
    requires forall q | q in m && q <= dst :: m[q] == Dir
    ensures Disjoint(m, src, dst)
  {
    if dst <= src {
      TakePrefix(dst, src);
    }
    assert src != dst;
  }
}
