/**
  MultiAppManagerService: one runtime scope per registered app, cached by app id. Whole
  commands are atomic here; the last section shows what can go wrong when they are not.
 */
module Coordinator {
  import opened Common
  import opened Paths
  import opened Names
  import opened FileTree
  import opened AppRegistry
  import opened InstanceRegistry
  import opened Supervision
  import Supervisor

  /** BuildOptions: what a scope is made from. */
  function BuildOptions(def: AppDefinition): AppOptions {
    AppOptions(def.defaultInstancePath, "Default", def.instancesRootPath, def.instanceNamePrefix, def.executableName)
  }

  /** The definition's Default folder and executable are simple. */
  ghost predicate SimpleDefault(def: AppDefinition) {
    Anchored(def.defaultInstancePath) && SimpleFile(def.executableName)
  }

  /** So are its instances root, its prefix and its executable. */
  ghost predicate SimpleInstances(def: AppDefinition) {
    Anchored(def.instancesRootPath) && SEP !in def.instanceNamePrefix && !Rooted(def.instanceNamePrefix + "-") &&
    SimpleFile(def.executableName)
  }

  /** Default runs the executable of the definition's Default folder. */
  lemma DefaultServed(def: AppDefinition, z: Setting)
    requires Proper(z) && SimpleDefault(def)
    ensures Accepted(BuildOptions(def), "Default", z)
    ensures HomeOf(BuildOptions(def), "Default", z) ==
            FoldAll(Parts(def.defaultInstancePath, z.cwd)) + [Fold(def.executableName)]
  {
    DefaultAccepted(BuildOptions(def), z);
  }

  /** Instance n runs the executable of the folder prefix-n below the definition's root. */
  lemma NumberServed(def: AppDefinition, n: nat, z: Setting)
    requires Proper(z) && SimpleInstances(def)
    ensures Accepted(BuildOptions(def), InstanceName(def.instanceNamePrefix, n), z)
    ensures HomeOf(BuildOptions(def), InstanceName(def.instanceNamePrefix, n), z) ==
            FoldAll(Parts(def.instancesRootPath, z.cwd)) +
            [Fold(InstanceName(def.instanceNamePrefix, n))] + [Fold(def.executableName)]
  {
    var name := InstanceName(def.instanceNamePrefix, n);
    BuiltNameIsValid(def.instanceNamePrefix, n, z.digit);
    assert Fold(name)[|def.instanceNamePrefix|] == '-' && '-' !in Fold("Default");
    OrdinaryNamesAccepted(BuildOptions(def), name, z);
  }

  /** The cached ids are registered ones, and each scope is that of the current definition. */
  ghost predicate Coherent(registered: Apps, scopes: map<string, AppOptions>) {
    scopes.Keys <= registered.Keys && forall k | k in scopes :: scopes[k] == BuildOptions(registered[k])
  }

  lemma CoherentWithout(registered: Apps, scopes: map<string, AppOptions>, id: string)
    requires Coherent(registered, scopes)
    ensures Coherent(registered - {id}, scopes - {id})
  {
  }

  lemma CoherentWith(registered: Apps, scopes: map<string, AppOptions>, id: string, def: AppDefinition)
    requires Coherent(registered, scopes) && id !in registered
    ensures Coherent(registered[id := def], scopes)
  {
    assert id !in scopes;
  }

  /** The registered definition of the same id gives the same options. */
  predicate UpToDate(registered: Apps, def: AppDefinition) {
    Key(def) in registered && BuildOptions(registered[Key(def)]) == BuildOptions(def)
  }

  lemma CoherentWithScope(registered: Apps, scopes: map<string, AppOptions>, def: AppDefinition)
    requires Key(def) !in scopes
    ensures Coherent(registered, scopes) ==>
              (Coherent(registered, scopes[Key(def) := BuildOptions(def)]) <==> UpToDate(registered, def))
  {
    var more := scopes[Key(def) := BuildOptions(def)];
    assert more[Key(def)] == BuildOptions(def) && Key(def) in more.Keys;
  }

  class MultiAppManagerService {
    const registry: AppRegistryService
    const setting: Setting
    const os: Supervisor.OperatingSystem
    var scopes: map<string, ProcessManagerRegistry>

    ghost function Options(): map<string, AppOptions>
      reads this
    {
      map k | k in scopes :: scopes[k].options
    }

    /** The services are in order, whether or not the cache is up to date. */
    ghost predicate Sound()
      reads this, registry, registry.disk, os, scopes.Values
    {
      Proper(setting) && registry.Valid() && os.Valid() &&
      forall k | k in scopes :: scopes[k].Valid() && scopes[k].os == os && scopes[k].setting == setting
    }

    ghost predicate Valid()
      reads this, registry, registry.disk, os, scopes.Values
    {
      Sound() && Coherent(registry.apps, Options())
    }

    constructor (registry: AppRegistryService, setting: Setting, os: Supervisor.OperatingSystem)
      requires Proper(setting) && registry.Valid() && os.Valid()
      ensures Valid() && scopes == map[] && this.registry == registry && this.os == os
    {
      this.registry, this.setting, this.os := registry, setting, os;
      scopes := map[];
    }

    /**
      The cached scope of a definition, made on first use. The definition may be an outdated
      one; the cache stays coherent exactly when the scope exists or the definition still
      gives the same options.
     */
    method EnsureScope(def: AppDefinition) returns (scope: ProcessManagerRegistry)
      requires Sound()
      modifies this
      ensures Sound() && Key(def) in scopes && scopes[Key(def)] == scope
      ensures Key(def) in old(scopes) ==> scopes == old(scopes)
      ensures Key(def) !in old(scopes) ==>
                fresh(scope) && scope.managers == map[] && scope.options == BuildOptions(def) &&
                scopes == old(scopes)[Key(def) := scope]
      ensures old(Valid()) ==> (Valid() <==> Key(def) in old(scopes) || UpToDate(registry.apps, def))
      ensures Valid() && UpToDate(registry.apps, def) ==> scope.options == BuildOptions(def)
    {
      ghost var before := Options();
      if Key(def) in scopes {
        assert Options()[Key(def)] == scopes[Key(def)].options;
        return scopes[Key(def)];
      }
      scope := new ProcessManagerRegistry(BuildOptions(def), setting, os);
      scopes := scopes[Key(def) := scope];
      assert Options() == before[Key(def) := BuildOptions(def)];
      CoherentWithScope(registry.apps, before, def);
    }

    /** GetRegistry and GetManager: the scope that serves the commands for an app id. */
    method GetScope(appId: string) returns (scope: Option<ProcessManagerRegistry>)
      requires Valid()
      modifies this
      ensures Valid() && (scope.Some? <==> Fold(appId) in registry.apps)
      ensures scope.Some? ==>
                scope.value.options == BuildOptions(registry.apps[Fold(appId)]) &&
                Fold(appId) in scopes && scopes[Fold(appId)] == scope.value
      ensures forall k | k in scopes :: (k in old(scopes) && scopes[k] == old(scopes[k])) || fresh(scopes[k])
    {
      var def := registry.Get(appId);
      if def.None? {
        return None;
      }
      var s := EnsureScope(def.value);
      return Some(s);
    }

    /**
      GetRegistry and then GetOrCreate, as StartInstance, StopInstance and GetInstanceStatus
      do: the manager that gets the call, in terms of the registered definition.
     */
    method FindManager(appId: string, name: string) returns (r: Option<Supervisor.ProcessManagerService>)
      requires Valid()
      modifies this, os, scopes.Values
      ensures Valid()
      ensures r.Some? <==> Fold(appId) in registry.apps && setting.cwd != [] &&
                           Accepted(BuildOptions(registry.apps[Fold(appId)]), name, setting)
      ensures r.Some? ==> r.value.os == os && RunsFor(registry.apps[Fold(appId)], name, r.value)
      ensures Fold(appId) in registry.apps && SimpleDefault(registry.apps[Fold(appId)]) && name == "Default" ==>
                r.Some? && IsAt(r.value, registry.apps[Fold(appId)].defaultInstancePath, [],
                                registry.apps[Fold(appId)].executableName)
      ensures Fold(appId) in registry.apps && SimpleInstances(registry.apps[Fold(appId)]) ==>
                var def := registry.apps[Fold(appId)];
                forall n: nat | name == InstanceName(def.instanceNamePrefix, n) ::
                  r.Some? && IsAt(r.value, def.instancesRootPath, [name], def.executableName)
    {
      r := None;
      var scope := GetScope(appId);
      if scope.Some? {
        r := ManagerIn(scope.value, name);
        FoundAtItsFolder(registry.apps[Fold(appId)], name, r);
      }
    }

    lemma FoundAtItsFolder(def: AppDefinition, name: string, r: Option<Supervisor.ProcessManagerService>)
      requires Proper(setting) && (r.Some? <==> Accepted(BuildOptions(def), name, setting))
      requires r.Some? ==> RunsFor(def, name, r.value)
      ensures SimpleDefault(def) && name == "Default" ==>
                r.Some? && IsAt(r.value, def.defaultInstancePath, [], def.executableName)
      ensures SimpleInstances(def) ==>
                forall n: nat | name == InstanceName(def.instanceNamePrefix, n) ::
                  r.Some? && IsAt(r.value, def.instancesRootPath, [name], def.executableName)
    {
      if SimpleDefault(def) {
        DefaultServed(def, setting);
      }
      if SimpleInstances(def) {
        forall n: nat | name == InstanceName(def.instanceNamePrefix, n)
          ensures r.Some? && IsAt(r.value, def.instancesRootPath, [name], def.executableName)
        {
          NumberServed(def, n, setting);
          assert FoldAll([name]) == [Fold(name)];
        }
      }
    }

    ghost predicate RunsFor(def: AppDefinition, name: string, manager: Supervisor.ProcessManagerService) {
      setting.cwd != [] &&
      manager.exe == ExeOf(BuildOptions(def), name, setting) && manager.home == HomeOf(BuildOptions(def), name, setting)
    }

    /** The manager's executable is the file of that name in the folder below `path`, up to case. */
    ghost predicate IsAt(manager: Supervisor.ProcessManagerService, path: string, below: seq<string>, file: string) {
      setting.cwd != [] && manager.home == FoldAll(Parts(path, setting.cwd)) + FoldAll(below) + [Fold(file)]
    }

    method RegisterApp(def: AppDefinition) returns (r: Answer)
      requires Valid()
      modifies this, registry, registry.disk
      ensures r != Died ==> Valid()
      ensures r in {Done, Invalid, Duplicate, Died}
      ensures r == Done <==> Validate(def) && Key(def) !in old(registry.apps) && r != Died
      ensures r == Done ==>
                registry.apps == old(registry.apps)[Key(def) := def] &&
                Key(def) in scopes && scopes[Key(def)].options == BuildOptions(def)
      ensures r == Invalid || r == Duplicate ==> registry.apps == old(registry.apps) && scopes == old(scopes)
      ensures registry.disk.reliable ==> r != Died && (r == Done ==> Records(registry.disk.file, registry.apps))
    {
      ghost var before, options := registry.apps, Options();
      r := registry.Register(def);
      if r == Done {
        CoherentWith(before, options, Key(def), def);
        assert Options() == options;
        var _ := EnsureScope(def);
      }
    }

    /** Some manager of the scope tracks a live process. */
    ghost predicate AnyRunning(scope: ProcessManagerRegistry)
      reads scope, scope.os, scope.managers.Values
    {
      exists k :: k in scope.managers && !Exited(scope.os.world.table, scope.managers[k].managedProcess)
    }

    /** GetAll().Values.Any(m => m.IsRunning). */
    method IsAnyRunning(scope: ProcessManagerRegistry) returns (running: bool)
      requires scope.Valid()
      ensures running <==> AnyRunning(scope)
    {
      var rest := scope.managers.Keys;
      while rest != {}
        invariant rest <= scope.managers.Keys
        invariant forall k | k in scope.managers && k !in rest ::
                    Exited(scope.os.world.table, scope.managers[k].managedProcess)
        decreases rest
      {
        var k :| k in rest;
        rest := rest - {k};
        var exited := scope.managers[k].HasExitedSafe();
        if !exited {
          return true;
        }
      }
      return false;
    }

    /** Refused while an instance of the app runs; otherwise the definition and its scope go together. */
    method UnregisterApp(appId: string) returns (refused: bool, r: Answer)
      requires Valid()
      modifies this, registry, registry.disk
      ensures r != Died ==> Valid()
      ensures refused <==> Fold(appId) in old(scopes) && old(AnyRunning(scopes[Fold(appId)]))
      ensures refused ==> registry.apps == old(registry.apps) && scopes == old(scopes)
      ensures !refused ==> r in {Done, Missing, Died} && (r == Missing <==> Fold(appId) !in old(registry.apps))
      ensures !refused && r == Done ==>
                registry.apps == old(registry.apps) - {Fold(appId)} && scopes == old(scopes) - {Fold(appId)}
      ensures !refused && r == Missing ==> registry.apps == old(registry.apps) && scopes == old(scopes)
      ensures registry.disk.reliable ==> r != Died && (r == Done ==> Records(registry.disk.file, registry.apps))
    {
      refused := HasRunning(Fold(appId));
      r := Missing;
      if !refused {
        r := Forget(appId);
      }
    }

    /** The first section of UnregisterApp. */
    method HasRunning(id: string) returns (running: bool)
      requires Sound()
      ensures running <==> id in scopes && AnyRunning(scopes[id])
    {
      if id !in scopes {
        return false;
      }
      running := IsAnyRunning(scopes[id]);
    }

    /** The last section of UnregisterApp. */
    method DropScope(id: string)
      requires Sound()
      modifies this
      ensures Sound() && scopes == old(scopes) - {id} && Options() == old(Options()) - {id}
    {
      scopes := scopes - {id};
    }

    /** The definition goes, and then its scope. */
    method Forget(appId: string) returns (r: Answer)
      requires Valid()
      modifies this, registry, registry.disk
      ensures r != Died ==> Valid()
      ensures r in {Done, Missing, Died} && (r == Missing <==> Fold(appId) !in old(registry.apps))
      ensures r == Done ==>
                registry.apps == old(registry.apps) - {Fold(appId)} && scopes == old(scopes) - {Fold(appId)}
      ensures r == Missing ==> registry.apps == old(registry.apps) && scopes == old(scopes)
      ensures registry.disk.reliable ==> r != Died && (r == Done ==> Records(registry.disk.file, registry.apps))
    {
      ghost var before, options := registry.apps, Options();
      r := registry.Unregister(appId);
      assert Sound();
      if r == Done {
        DropScope(Fold(appId));
        CoherentWithout(before, options, Fold(appId));
      }
    }

    /** The manager of the Default instance of app k, as GetDefaultManagers reports it. */
    ghost predicate IsDefaultManager(k: string, manager: Supervisor.ProcessManagerService)
      reads registry
    {
      k in registry.apps && manager.os == os && RunsFor(registry.apps[k], "Default", manager)
    }

    /** App k has a Default folder whose executable GetOrCreate accepts. */
    ghost predicate HasDefault(k: string)
      requires setting.cwd != []
      reads registry
    {
      k in registry.apps && registry.apps[k].defaultInstancePath != "" &&
      Accepted(BuildOptions(registry.apps[k]), "Default", setting)
    }

    /**
      The managers to start with the agent: that of the Default instance of each registered
      app which has a Default folder, except where GetOrCreate throws.
     */
    method GetDefaultManagers() returns (served: map<string, Supervisor.ProcessManagerService>)
      requires Valid()
      modifies this, os, scopes.Values
      ensures Valid() && forall k | k in old(scopes) :: k in scopes && scopes[k] == old(scopes[k])
      ensures forall k :: k in served <==> HasDefault(k)
      ensures forall k | k in served :: IsDefaultManager(k, served[k])
      ensures forall k | k in registry.apps && SimpleDefault(registry.apps[k]) ::
                k in served &&
                IsAt(served[k], registry.apps[k].defaultInstancePath, [], registry.apps[k].executableName)
    {
      served := map[];
      var rest := registry.apps.Keys;
      while rest != {}
        invariant Valid() && rest <= registry.apps.Keys
        invariant forall k | k in old(scopes) :: k in scopes && scopes[k] == old(scopes[k])
        invariant forall k | k in scopes :: k in old(scopes) || fresh(scopes[k])
        invariant forall k :: k in served <==> k !in rest && HasDefault(k)
        invariant forall k | k in served :: IsDefaultManager(k, served[k])
        decreases rest
      {
        var k :| k in rest;
        rest := rest - {k};
        var r := DefaultManager(k);
        if r.Some? {
          served := served[k := r.value];
        }
      }
      DefaultsAtTheirFolders(served);
    }

    lemma DefaultsAtTheirFolders(served: map<string, Supervisor.ProcessManagerService>)
      requires Proper(setting)
      requires forall k :: k in served <==> HasDefault(k)
      requires forall k | k in served :: IsDefaultManager(k, served[k])
      ensures forall k | k in registry.apps && SimpleDefault(registry.apps[k]) ::
                k in served &&
                IsAt(served[k], registry.apps[k].defaultInstancePath, [], registry.apps[k].executableName)
    {
      forall k | k in registry.apps && SimpleDefault(registry.apps[k])
        ensures HasDefault(k)
        ensures IsAt(served[k], registry.apps[k].defaultInstancePath, [], registry.apps[k].executableName)
      {
        DefaultServed(registry.apps[k], setting);
      }
    }

    /** GetOrCreate in one of the scopes, and None where it throws. */
    method ManagerIn(scope: ProcessManagerRegistry, name: string) returns (r: Option<Supervisor.ProcessManagerService>)
      requires Valid() && scope in scopes.Values
      modifies scope, os
      ensures Valid() && scopes == old(scopes)
      ensures (r.Some? <==> Accepted(scope.options, name, setting))
      ensures r.Some? ==> r.value.os == os && r.value.exe == ExeOf(scope.options, name, setting) &&
                          r.value.home == HomeOf(scope.options, name, setting)
    {
      assert scope.Valid() && scope.setting == setting && scope.os == os;
      r := scope.TryGetOrCreate(name);
      assert Options() == old(Options());
      forall k | k in scopes
        ensures scopes[k].Valid() && scopes[k].os == os && scopes[k].setting == setting
      {
        assert old(scopes[k].Valid());
        assert scopes[k] != scope ==> scopes[k].managers == old(scopes[k].managers);
      }
      assert Sound();
    }

    /** One round: the scope of a registered app, and its manager for the name Default. */
    method DefaultManager(k: string) returns (r: Option<Supervisor.ProcessManagerService>)
      requires Valid() && k in registry.apps
      modifies this, os, scopes.Values
      ensures Valid() && forall k | k in old(scopes) :: k in scopes && scopes[k] == old(scopes[k])
      ensures forall k | k in scopes :: k in old(scopes) || fresh(scopes[k])
      ensures r.Some? <==> HasDefault(k)
      ensures r.Some? ==> IsDefaultManager(k, r.value)
    {
      var def := registry.apps[k];
      if def.defaultInstancePath == "" {
        return None;
      }
      var scope := EnsureScope(def);
      r := ManagerIn(scope, "Default");
    }
  }

  // ---------------------------------------------------------------- finer interleavings

  /**
    The same state when commands interleave between their lock sections: `looked` holds the
    definitions that commands in progress have read but not yet used, `dropping` the ids
    that an UnregisterApp in progress has removed and whose scope it is about to drop.
   */
  datatype Shared = Shared(
    registered: Apps, scopes: map<string, AppOptions>, looked: set<AppDefinition>, dropping: multiset<string>)

  datatype Section =
    | AddDefinition(def: AppDefinition)      // Register, under the registry's write lock
    | RemoveDefinition(id: string)           // Unregister, under the registry's write lock
    | LookUp(id: string)                     // Get, under the registry's read lock
    | Ensure(def: AppDefinition)             // EnsureScope, under the coordinator's lock
    | DropScope(id: string)                  // the last section of UnregisterApp

  predicate Possible(w: Shared, s: Section) {
    match s
    case AddDefinition(def) => Key(def) !in w.registered
    case RemoveDefinition(id) => id in w.registered
    case LookUp(id) => id in w.registered
    case Ensure(def) => def in w.looked
    case DropScope(id) => id in w.dropping
  }

  function After(w: Shared, s: Section): Shared {
    match s
    case AddDefinition(def) => w.(registered := w.registered[Key(def) := def], looked := w.looked + {def})
    case RemoveDefinition(id) => w.(registered := w.registered - {id}, dropping := w.dropping + multiset{id})
    case LookUp(id) => if id in w.registered then w.(looked := w.looked + {w.registered[id]}) else w
    case Ensure(def) => if Key(def) in w.scopes then w else w.(scopes := w.scopes[Key(def) := BuildOptions(def)])
    case DropScope(id) => w.(scopes := w.scopes - {id}, dropping := w.dropping - multiset{id})
  }

  /** A late EnsureScope keeps the cache coherent exactly when the scope exists or the definition is still current. */
  lemma EnsureKeepsCoherence(w: Shared, def: AppDefinition)
    requires Coherent(w.registered, w.scopes)
    ensures Coherent(w.registered, After(w, Ensure(def)).scopes) <==>
            Key(def) in w.scopes || UpToDate(w.registered, def)
  {
    var v := After(w, Ensure(def));
    assert Key(def) in v.scopes;
    if Key(def) !in w.scopes {
      assert v.scopes[Key(def)] == BuildOptions(def);
    }
  }

  /** All sections are possible in turn. */
  predicate AllPossible(w: Shared, run: seq<Section>)
    decreases |run|
  {
    run == [] || (Possible(w, run[0]) && AllPossible(After(w, run[0]), run[1..]))
  }

  function AfterAll(w: Shared, run: seq<Section>): Shared
    decreases |run|
  {
    if run == [] then w else AfterAll(After(w, run[0]), run[1..])
  }

  const EMPTY := Shared(map[], map[], {}, multiset{})

  /** Coherent but for scopes that are about to be dropped. */
  ghost predicate Settling(w: Shared) {
    forall k | k in w.scopes :: k in w.dropping || (k in w.registered && w.scopes[k] == BuildOptions(w.registered[k]))
  }

  lemma SettledIsCoherent(w: Shared)
    requires Settling(w) && w.dropping == multiset{}
    ensures Coherent(w.registered, w.scopes)
  {
  }

  /** An EnsureScope that makes no scope, a current one, or one that is about to be dropped. */
  predicate Harmless(w: Shared, s: Section) {
    s.Ensure? ==> Key(s.def) in w.scopes || UpToDate(w.registered, s.def) || Key(s.def) in w.dropping
  }

  /** One section keeps the cache settling exactly when it is harmless. */
  lemma SectionExactly(w: Shared, s: Section)
    requires Settling(w) && Possible(w, s)
    ensures Settling(After(w, s)) <==> Harmless(w, s)
  {
    var v := After(w, s);
    if s.Ensure? && !Harmless(w, s) {
      assert Key(s.def) in v.scopes && v.scopes[Key(s.def)] == BuildOptions(s.def);
    } else if s.DropScope? {
      forall k | k in v.scopes
        ensures k in v.dropping || (k in v.registered && v.scopes[k] == BuildOptions(v.registered[k]))
      {
        assert k != s.id && v.dropping[k] == w.dropping[k];
      }
    }
  }

  ghost predicate AllHarmless(w: Shared, run: seq<Section>)
    decreases |run|
  {
    run == [] || (Harmless(w, run[0]) && AllHarmless(After(w, run[0]), run[1..]))
  }

  /** The cache is settling now and after every section of the run. */
  ghost predicate AlwaysSettling(w: Shared, run: seq<Section>)
    decreases |run|
  {
    Settling(w) && (run == [] || AlwaysSettling(After(w, run[0]), run[1..]))
  }

  /**
    However commands interleave, the cache stays coherent but for scopes about to be dropped
    exactly when every EnsureScope of the run is harmless; and then it is coherent whenever
    no UnregisterApp stands between its removal and the drop of the scope.
   */
  lemma {:induction false} CoherenceExactly(w: Shared, run: seq<Section>)
    requires Settling(w) && AllPossible(w, run)
    ensures AlwaysSettling(w, run) <==> AllHarmless(w, run)
    ensures AllHarmless(w, run) && AfterAll(w, run).dropping == multiset{} ==>
              Coherent(AfterAll(w, run).registered, AfterAll(w, run).scopes)
    decreases |run|
  {
    if run == [] {
      if w.dropping == multiset{} {
        SettledIsCoherent(w);
      }
    } else {
      SectionExactly(w, run[0]);
      if Settling(After(w, run[0])) {
        CoherenceExactly(After(w, run[0]), run[1..]);
      } else {
        assert !AlwaysSettling(After(w, run[0]), run[1..]);
      }
    }
  }

  /**
    An instance command that read its definition before UnregisterApp, and builds its scope
    after it, leaves a scope behind that serves the old paths to a later registration.
   */
  lemma StaleScope(first: AppDefinition, second: AppDefinition)
    requires Key(first) == Key(second) && BuildOptions(first) != BuildOptions(second)
    ensures AllPossible(EMPTY, StaleRun(first, second))
    ensures var w := AfterAll(EMPTY, StaleRun(first, second));
            Key(second) in w.registered && w.registered[Key(second)] == second &&
            Key(second) in w.scopes && w.scopes[Key(second)] == BuildOptions(first) && !Coherent(w.registered, w.scopes)
  {
    var k := Key(first);
    var w0 := EMPTY;
    var w1 := w0.(registered := map[k := first], looked := {first});
    var w2 := w1.(registered := map[], dropping := multiset{k});
    var w3 := w2.(dropping := multiset{});
    var w4 := w3.(scopes := map[k := BuildOptions(first)]);
    var w5 := w4.(registered := map[k := second], looked := {first, second});
    var run := StaleRun(first, second);
    OneMore(w5, run[6..], w5);
    OneMore(w4, run[5..], w5);
    OneMore(w3, run[4..], w4);
    OneMore(w2, run[3..], w3);
    OneMore(w1, run[2..], w2);
    OneMore(w1, run[1..], w1);
    OneMore(w0, run, w1);
  }

  function StaleRun(first: AppDefinition, second: AppDefinition): seq<Section> {
    var k := Key(first);
    [AddDefinition(first), LookUp(k), RemoveDefinition(k), DropScope(k), Ensure(first), AddDefinition(second), Ensure(second)]
  }

  lemma OneMore(w: Shared, run: seq<Section>, v: Shared)
    requires run != [] && Possible(w, run[0]) && After(w, run[0]) == v && AllPossible(v, run[1..])
    ensures AllPossible(w, run) && AfterAll(w, run) == AfterAll(v, run[1..])
  {
  }
}
