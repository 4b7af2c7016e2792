/**
  AppRegistryService: the persisted, case-insensitive map of app definitions. Every change
  is written to a temporary file that is then renamed over the real one; the process may
  die, or an operation fail, at any point of that.
 */
module AppRegistry {
  import opened Common
  import opened Paths

  datatype AppDefinition = AppDefinition(
    appId: string, displayName: string, defaultInstancePath: string, instancesRootPath: string,
    executableName: string, instanceNamePrefix: string)

  type Apps = map<string, AppDefinition>

  function Key(def: AppDefinition): string {
    Fold(def.appId)
  }

  // ---------------------------------------------------------------- validation

  /** char.IsWhiteSpace. */
  predicate IsSpace(c: char) {
    '\t' <= c <= '\r' || c == ' ' || c == '\U{85}' || c == '\U{A0}' || c == '\U{1680}' ||
    '\U{2000}' <= c <= '\U{200A}' || c == '\U{2028}' || c == '\U{2029}' || c == '\U{202F}' ||
    c == '\U{205F}' || c == '\U{3000}'
  }

  /** Among ASCII characters: space, tab, and the line and page breaks. */
  lemma AsciiSpaces(c: char)
    requires c < 128 as char
    ensures IsSpace(c) <==> c in " \t\n\U{0B}\U{0C}\r"
  {
    assert c == '\t' || c == '\n' || c == '\U{0B}' || c == '\U{0C}' || c == '\r' || c == ' ' || !IsSpace(c);
  }

  predicate IsBlank(s: string) {
    forall i | 0 <= i < |s| :: IsSpace(s[i])
  }

  predicate SlugChar(c: char) {
    'a' <= c <= 'z' || '0' <= c <= '9' || c == '-'
  }

  /** ^[a-z0-9][a-z0-9\-]{0,62}$, where $ also matches before one final line feed. */
  predicate IsSlug(s: string) {
    var body := BeforeLineFeed(s);
    1 <= |body| <= 63 && body[0] != '-' && forall i | 0 <= i < |body| :: SlugChar(body[i])
  }

  predicate Validate(def: AppDefinition) {
    !IsBlank(def.appId) && IsSlug(def.appId) && !IsBlank(def.displayName) &&
    !IsBlank(def.defaultInstancePath) && !IsBlank(def.instancesRootPath) && !IsBlank(def.executableName)
  }

  const SLUG_LETTERS := "abcdefghijklmnopqrstuvwxyz0123456789"

  /** 1 to 63 letters, digits and hyphens, the first not a hyphen. */
  predicate SlugBody(body: string) {
    1 <= |body| <= 63 && body[0] in SLUG_LETTERS &&
    forall i | 0 <= i < |body| :: body[i] in SLUG_LETTERS || body[i] == '-'
  }

  /** An identifier is that, and perhaps a line feed after it. */
  lemma SlugExactly(s: string)
    ensures IsSlug(s) <==> exists body :: SlugBody(body) && (s == body || s == body + "\n")
  {
    if IsSlug(s) {
      SlugHasBody(s);
      assert s == BeforeLineFeed(s) || s == BeforeLineFeed(s) + "\n";
    }
    forall body | SlugBody(body) && (s == body || s == body + "\n")
      ensures IsSlug(s)
    {
      BodyIsSlug(s, body);
    }
  }

  lemma SlugHasBody(s: string)
    requires IsSlug(s)
    ensures SlugBody(BeforeLineFeed(s))
  {
    LettersExactly();
  }

  lemma BodyIsSlug(s: string, body: string)
    requires SlugBody(body) && (s == body || s == body + "\n")
    ensures IsSlug(s)
  {
    NoLineFeed(body);
    if s != body {
      assert s[..|s| - 1] == body;
    }
    assert BeforeLineFeed(s) == body;
    LettersExactly();
  }

  lemma NoLineFeed(body: string)
    requires SlugBody(body)
    ensures BeforeLineFeed(body) == body && forall i | 0 <= i < |body| :: SlugChar(body[i])
  {
    LettersExactly();
    assert body[|body| - 1] != '\n';
  }

  lemma LettersExactly()
    ensures forall c :: c in SLUG_LETTERS <==> SlugChar(c) && c != '-'
  {
    forall c
      ensures SlugChar(c) && c != '-' ==> c in SLUG_LETTERS
    {
      if 'a' <= c <= 'z' {
        assert SLUG_LETTERS[c as int - 'a' as int] == c;
      } else if '0' <= c <= '9' {
        assert SLUG_LETTERS[26 + c as int - '0' as int] == c;
      }
    }
    assert forall i | 0 <= i < 36 :: SlugChar(SLUG_LETTERS[i]) && SLUG_LETTERS[i] != '-';
  }

  /** Which definitions are refused: a bad identifier, or a required field with nothing but white space. */
  lemma ValidatedExactly(def: AppDefinition)
    ensures Validate(def) <==>
            IsSlug(def.appId) &&
            forall f | f in [def.displayName, def.defaultInstancePath, def.instancesRootPath, def.executableName] ::
              exists c :: c in f && !IsSpace(c)
  {
    var fields := [def.displayName, def.defaultInstancePath, def.instancesRootPath, def.executableName];
    assert forall f | f in fields ::
             f == fields[0] || f == fields[1] || f == fields[2] || f == fields[3];
    assert fields[0] in fields && fields[1] in fields && fields[2] in fields && fields[3] in fields;
    BlankExactly(fields[0]);
    BlankExactly(fields[1]);
    BlankExactly(fields[2]);
    BlankExactly(fields[3]);
    if IsSlug(def.appId) {
      var body := BeforeLineFeed(def.appId);
      assert SlugChar(body[0]) && def.appId[0] == body[0];
      assert !IsBlank(def.appId);
    }
  }

  lemma BlankExactly(s: string)
    ensures IsBlank(s) <==> !exists c :: c in s && !IsSpace(c)
  {
    if !IsBlank(s) {
      var i :| 0 <= i < |s| && !IsSpace(s[i]);
      assert s[i] in s;
    }
  }

  /** Identifiers that pass validation have no letter case to ignore, and no path syntax. */
  lemma SlugsAreKeys(a: string, b: string)
    requires IsSlug(a) && IsSlug(b) && Fold(a) == Fold(b)
    ensures a == b && SEP !in a && '.' !in a
  {
    forall i | 0 <= i < |a|
      ensures a[i] == b[i] && a[i] != SEP && a[i] != '.'
    {
      assert Fold(a)[i] == Fold(b)[i];
      assert SlugChar(a[i]) || a[i] == '\n';
      assert SlugChar(b[i]) || b[i] == '\n';
    }
  }

  // ---------------------------------------------------------------- the file

  /** What apps.json can hold: a JSON list, whose entries may be null, or anything else. */
  datatype Content = List(entries: seq<Option<AppDefinition>>) | Unusable

  /** Load: entries in order, later ones winning; a null entry throws and ends the loop. */
  function LoadEntries(entries: seq<Option<AppDefinition>>): Apps {
    if entries == [] then map[]
    else
      var last := |entries| - 1;
      if exists i :: 0 <= i < |entries| && entries[i] == None then LoadEntries(entries[..last])
      else LoadEntries(entries[..last])[Key(entries[last].value) := entries[last].value]
  }

  function LoadFile(file: Option<Content>): Apps {
    match file
    case Some(List(entries)) => LoadEntries(entries)
    case _ => map[]
  }

  /** Every definition is stored under its own identifier. */
  ghost predicate KeysMatch(m: Apps) {
    forall k | k in m :: Key(m[k]) == k
  }

  /** A list of a map's values, in any order. */
  ghost predicate IsSnapshot(defs: seq<AppDefinition>, m: Apps) {
    && (forall i | 0 <= i < |defs| :: Key(defs[i]) in m && m[Key(defs[i])] == defs[i])
    && (forall k | k in m :: m[k] in defs)
  }

  function Entries(defs: seq<AppDefinition>): (e: seq<Option<AppDefinition>>)
    ensures |e| == |defs| && forall i | 0 <= i < |defs| :: e[i] == Some(defs[i])
  {
    seq(|defs|, i requires 0 <= i < |defs| => Some(defs[i]))
  }

  lemma {:induction false} LoadCollects(defs: seq<AppDefinition>)
    ensures forall k :: k in LoadEntries(Entries(defs)) <==> exists i :: 0 <= i < |defs| && Key(defs[i]) == k
    ensures KeysMatch(LoadEntries(Entries(defs)))
    ensures forall k | k in LoadEntries(Entries(defs)) :: LoadEntries(Entries(defs))[k] in defs
    decreases |defs|
  {
    if defs != [] {
      var init := defs[..|defs| - 1];
      assert Entries(defs)[..|defs| - 1] == Entries(init);
      LoadCollects(init);
      var m, n := LoadEntries(Entries(init)), LoadEntries(Entries(defs));
      assert n == m[Key(defs[|defs| - 1]) := defs[|defs| - 1]];
      forall k
        ensures k in n <==> exists i :: 0 <= i < |defs| && Key(defs[i]) == k
      {
        if k in m {
          var i :| 0 <= i < |init| && Key(init[i]) == k;
          assert Key(defs[i]) == k;
        }
        if i :| 0 <= i < |defs| && Key(defs[i]) == k {
          if i < |init| {
            assert Key(init[i]) == k;
          }
        }
      }
    }
  }

  /** Of several definitions with one identifier the last in the file is the one loaded. */
  lemma {:induction false} LastOneWins(defs: seq<AppDefinition>, i: nat)
    requires i < |defs| && forall j | i < j < |defs| :: Key(defs[j]) != Key(defs[i])
    ensures Key(defs[i]) in LoadEntries(Entries(defs)) && LoadEntries(Entries(defs))[Key(defs[i])] == defs[i]
    decreases |defs|
  {
    var last := |defs| - 1;
    assert Entries(defs)[..last] == Entries(defs[..last]);
    if i < last {
      LastOneWins(defs[..last], i);
    }
  }

  /** Loading a saved snapshot restores exactly the map it was made from. */
  lemma LoadSnapshot(defs: seq<AppDefinition>, m: Apps)
    requires KeysMatch(m) && IsSnapshot(defs, m)
    ensures LoadEntries(Entries(defs)) == m
  {
    LoadCollects(defs);
    var n := LoadEntries(Entries(defs));
    forall k
      ensures k in n <==> k in m
      ensures k in m ==> n[k] == m[k]
    {
      if k in m {
        var i :| 0 <= i < |defs| && defs[i] == m[k];
        assert Key(defs[i]) == k && k in n;
        assert n[k] in defs && Key(n[k]) == k;
      }
    }
  }

  /** The file is a complete record of m. */
  ghost predicate Records(file: Option<Content>, m: Apps) {
    match file
    case None => m == map[]
    case Some(List(entries)) => exists defs :: entries == Entries(defs) && IsSnapshot(defs, m)
    case Some(Unusable) => false
  }

  lemma LoadRecord(file: Option<Content>, m: Apps)
    requires KeysMatch(m) && Records(file, m)
    ensures LoadFile(file) == m
  {
    if file.Some? {
      var defs :| file.value.entries == Entries(defs) && IsSnapshot(defs, m);
      LoadSnapshot(defs, m);
    }
  }

  // ---------------------------------------------------------------- histories

  /** How a Save ends: done, an exception that is logged, or the death of the process. */
  datatype Fate = Saved | SaveFailed | DiedBefore | DiedAfter

  /**
    The service and its file over any number of restarts. Bookkeeping: `past` lists all
    in-memory maps so far, `saved` is the one the file records, `failures` counts the
    failed saves since the file was last up to date.
   */
  datatype Store = Store(
    memory: Apps, up: bool, file: Option<Content>, past: seq<Apps>, saved: nat, failures: nat)

  datatype Step = Change(memory: Apps, written: seq<AppDefinition>, fate: Fate) | Restart

  ghost predicate Enabled(r: Store, s: Step) {
    match s
    case Change(m, written, _) => r.up && KeysMatch(m) && IsSnapshot(written, m)
    case Restart => true
  }

  function Apply(r: Store, s: Step): Store {
    match s
    case Change(m, written, fate) =>
      var n := r.(memory := m, past := r.past + [m], up := !fate.DiedBefore? && !fate.DiedAfter?);
      if fate.Saved? || fate.DiedAfter? then
        n.(file := Some(List(Entries(written))), saved := |r.past|, failures := 0)
      else if fate.SaveFailed? then n.(failures := r.failures + 1)
      else n
    case Restart =>
      Store(LoadFile(r.file), true, r.file, r.past + [LoadFile(r.file)], |r.past|, 0)
  }

  /** Some step of a history leads from r to q. */
  ghost predicate OneStep(r: Store, q: Store) {
    exists step :: Enabled(r, step) && q == Apply(r, step)
  }

  function First(file: Option<Content>): Store {
    Store(LoadFile(file), true, file, [LoadFile(file)], 0, 0)
  }

  /** The number of in-memory states the file is behind. */
  ghost function Lag(r: Store): int {
    |r.past| - 1 - r.saved
  }

  ghost predicate Inv(r: Store) {
    && 0 <= r.saved < |r.past|
    && (forall i | 0 <= i < |r.past| :: KeysMatch(r.past[i]))
    && Records(r.file, r.past[r.saved])
    && (r.up ==> r.memory == r.past[|r.past| - 1])
    && Lag(r) <= r.failures + if r.up then 0 else 1
  }

  lemma InvStep(r: Store, s: Step)
    requires Inv(r) && Enabled(r, s)
    ensures Inv(Apply(r, s))
  {
    match s {
      case Change(m, written, fate) =>
        assert Records(Some(List(Entries(written))), m);
      case Restart =>
        LoadRecord(r.file, r.past[r.saved]);
    }
  }

  ghost predicate Legal(r: Store, steps: seq<Step>)
    decreases |steps|
  {
    steps == [] || (Enabled(r, steps[0]) && Legal(Apply(r, steps[0]), steps[1..]))
  }

  ghost function Run(r: Store, steps: seq<Step>): Store
    decreases |steps|
  {
    if steps == [] then r else Run(Apply(r, steps[0]), steps[1..])
  }

  lemma {:induction false} InvRun(r: Store, steps: seq<Step>)
    requires Inv(r) && Legal(r, steps)
    ensures Inv(Run(r, steps))
    decreases |steps|
  {
    if steps != [] {
      InvStep(r, steps[0]);
      InvRun(Apply(r, steps[0]), steps[1..]);
    }
  }

  /** The file records some past in-memory map, which Load restores. */
  ghost predicate Restorable(r: Store) {
    exists i :: 0 <= i < |r.past| && Records(r.file, r.past[i]) && LoadFile(r.file) == r.past[i]
  }

  /** With no save failed since it was up to date, the file records the latest map or, after a death, the one before. */
  ghost predicate Current(r: Store) {
    r.failures == 0 ==>
      (r.up ==> Records(r.file, r.memory)) &&
      ((r.past != [] && Records(r.file, r.past[|r.past| - 1])) ||
       (|r.past| >= 2 && Records(r.file, r.past[|r.past| - 2])))
  }

  lemma InvGuarantees(r: Store)
    requires Inv(r)
    ensures Restorable(r) && Current(r)
  {
    LoadRecord(r.file, r.past[r.saved]);
  }

  lemma FirstInv(file: Option<Content>, m: Apps)
    requires KeysMatch(m) && Records(file, m)
    ensures Inv(First(file))
  {
    LoadRecord(file, m);
  }

  /**
    Over any history of changes, failed saves, deaths at any point of a save, and restarts:
    the file is a complete record of some past in-memory map, which a restart restores. It
    is the current one while the service runs and no save failed since, and at worst the
    one before when the service died in a save.
   */
  lemma FileIsAlwaysComplete(file: Option<Content>, m: Apps, steps: seq<Step>)
    requires KeysMatch(m) && Records(file, m) && Legal(First(file), steps)
    ensures Restorable(Run(First(file), steps)) && Current(Run(First(file), steps))
  {
    FirstInv(file, m);
    InvRun(First(file), steps);
    InvGuarantees(Run(First(file), steps));
  }

  // ---------------------------------------------------------------- the code

  class Disk {
    var file: Option<Content>
    var temp: Option<Content>
    /** Writing and renaming succeed, and the process lives on. */
    const reliable: bool

    constructor (file: Option<Content>, reliable: bool)
      ensures this.file == file && this.reliable == reliable
    {
      this.file, temp, this.reliable := file, None, reliable;
    }
  }

  /** The answers of Register and Unregister; Died stands for a death of the process. */
  datatype Answer = Done | Invalid | Duplicate | Missing | Died

  class AppRegistryService {
    var apps: Apps
    const disk: Disk
    ghost var past: seq<Apps>
    ghost var saved: nat
    ghost var failures: nat

    /** The state in terms of histories, of a service that is up or has just died. */
    ghost function State(up: bool): Store
      reads this, disk
    {
      Store(apps, up, disk.file, past, saved, failures)
    }

    ghost predicate Valid()
      reads this, disk
    {
      KeysMatch(apps) && past != [] && past[|past| - 1] == apps
    }

    /** Load, and the start of a history. */
    constructor (disk: Disk)
      modifies disk
      ensures Valid() && this.disk == disk && State(true) == First(old(disk.file))
    {
      this.disk := disk;
      apps := map[];
      past, saved, failures := [map[]], 0, 0;
      new;
      match disk.file {
        case Some(List(entries)) =>
          var i := 0;
          while i < |entries| && entries[i].Some?
            invariant 0 <= i <= |entries|
            invariant forall k | 0 <= k < i :: entries[k].Some?
            invariant apps == LoadEntries(entries[..i])
            invariant KeysMatch(apps) && disk.file == old(disk.file) && this.disk == disk
            invariant saved == 0 && failures == 0
          {
            LoadOneMore(entries, i);
            apps := apps[Key(entries[i].value) := entries[i].value];
            i := i + 1;
          }
          LoadStops(entries, i);
        case _ =>
      }
      past := [apps];
    }

    /** Values.ToList, in any order. */
    method ToList() returns (defs: seq<AppDefinition>)
      requires KeysMatch(apps)
      ensures IsSnapshot(defs, apps)
    {
      defs := [];
      var rest := apps.Keys;
      while rest != {}
        invariant rest <= apps.Keys
        invariant forall i | 0 <= i < |defs| :: Key(defs[i]) in apps && apps[Key(defs[i])] == defs[i]
        invariant forall k | k in apps && k !in rest :: apps[k] in defs
        decreases rest
      {
        var k :| k in rest;
        rest := rest - {k};
        defs := defs + [apps[k]];
      }
    }

    /** Write the temporary file, then rename it; any of it may throw or be the last thing done. */
    method Save() returns (fate: Fate, written: seq<AppDefinition>)
      requires KeysMatch(apps)
      modifies disk
      ensures IsSnapshot(written, apps)
      ensures disk.file == if fate.Saved? || fate.DiedAfter? then Some(List(Entries(written))) else old(disk.file)
      ensures disk.reliable ==> fate.Saved?
    {
      written := ToList();
      var trouble: Option<Fate> := *;
      trouble := if disk.reliable then None else trouble;
      if trouble == Some(SaveFailed) || trouble == Some(DiedBefore) {
        // before or during the write of the temporary file
        disk.temp := Some(Unusable);
        return trouble.value, written;
      }
      disk.temp := Some(List(Entries(written)));
      trouble := *;
      trouble := if disk.reliable then None else trouble;
      if trouble == Some(SaveFailed) || trouble == Some(DiedBefore) {
        return trouble.value, written;
      }
      disk.file := disk.temp;
      disk.temp := None;
      trouble := *;
      trouble := if disk.reliable then None else trouble;
      return if trouble == Some(DiedAfter) then DiedAfter else Saved, written;
    }

    /** One change of the map, written out; the service's history takes exactly this step. */
    method Commit(m: Apps) returns (died: bool, ghost step: Step)
      requires Valid() && KeysMatch(m)
      modifies this, disk
      ensures Valid() && apps == m
      ensures step.Change? && step.memory == m && Enabled(old(State(true)), step)
      ensures State(!died) == Apply(old(State(true)), step)
      ensures disk.reliable ==> !died && step.fate.Saved?
    {
      apps := m;
      var fate, written := Save();
      step := Change(m, written, fate);
      past := past + [m];
      if fate.Saved? || fate.DiedAfter? {
        saved, failures := |past| - 1, 0;
      } else if fate.SaveFailed? {
        failures := failures + 1;
      }
      died := fate.DiedBefore? || fate.DiedAfter?;
    }

    method Register(def: AppDefinition) returns (r: Answer)
      requires Valid()
      modifies this, disk
      ensures Valid()
      ensures !Validate(def) <==> r == Invalid
      ensures Validate(def) && Key(def) in old(apps) <==> r == Duplicate
      ensures r == Invalid || r == Duplicate ==> State(true) == old(State(true))
      ensures r == Done || r == Died ==>
                apps == old(apps)[Key(def) := def] &&
                OneStep(old(State(true)), State(r != Died))
      ensures r != Missing
      ensures disk.reliable && r == Done ==> Records(disk.file, apps)
      ensures disk.reliable ==> r != Died
    {
      if !Validate(def) {
        return Invalid;
      }
      if Key(def) in apps {
        return Duplicate;
      }
      ghost var step;
      var died: bool;
      died, step := Commit(apps[Key(def) := def]);
      assert step.fate.Saved? ==> IsSnapshot(step.written, apps);
      return if died then Died else Done;
    }

    method Unregister(appId: string) returns (r: Answer)
      requires Valid()
      modifies this, disk
      ensures Valid()
      ensures Fold(appId) !in old(apps) <==> r == Missing
      ensures r == Missing ==> State(true) == old(State(true))
      ensures r == Done || r == Died ==>
                apps == old(apps) - {Fold(appId)} &&
                OneStep(old(State(true)), State(r != Died))
      ensures r in {Done, Missing, Died}
      ensures disk.reliable && r == Done ==> Records(disk.file, apps)
      ensures disk.reliable ==> r != Died
    {
      if Fold(appId) !in apps {
        return Missing;
      }
      ghost var step;
      var died: bool;
      died, step := Commit(apps - {Fold(appId)});
      assert step.fate.Saved? ==> IsSnapshot(step.written, apps);
      return if died then Died else Done;
    }

    /** Lookup, and so the refusal of duplicates, ignores letter case. */
    lemma FoundExactly(appId: string)
      requires Valid()
      ensures Get(appId).Some? <==> exists k :: k in apps && Fold(apps[k].appId) == Fold(appId)
      ensures Get(appId).Some? ==> Fold(Get(appId).value.appId) == Fold(appId)
    {
      if k :| k in apps && Fold(apps[k].appId) == Fold(appId) {
        assert Key(apps[k]) == k;
      }
    }

    function Get(appId: string): Option<AppDefinition>
      reads this
    {
      if Fold(appId) in apps then Some(apps[Fold(appId)]) else None
    }
  }

  lemma LoadOneMore(entries: seq<Option<AppDefinition>>, i: nat)
    requires i < |entries| && forall k | 0 <= k <= i :: entries[k].Some?
    ensures LoadEntries(entries[..i + 1]) == LoadEntries(entries[..i])[Key(entries[i].value) := entries[i].value]
  {
    assert entries[..i + 1][..i] == entries[..i];
  }

  lemma {:induction false} LoadStops(entries: seq<Option<AppDefinition>>, i: nat)
    requires i <= |entries| && (i < |entries| ==> entries[i] == None)
    ensures LoadEntries(entries) == LoadEntries(entries[..i])
    decreases |entries|
  {
    if i == |entries| {
      assert entries[..i] == entries;
    } else {
      var init := entries[..|entries| - 1];
      if i < |init| {
        LoadStops(init, i);
        assert init[..i] == entries[..i];
      } else {
        assert entries[..i] == init;
      }
    }
  }

  /** Load throws: the file is no list, or has a null entry. */
  predicate LoadFails(content: Content) {
    content.Unusable? || exists i :: 0 <= i < |content.entries| && content.entries[i] == None
  }

  /** A load that throws starts with an empty registry exactly when nothing usable came first. */
  lemma FailedLoadIsEmptyExactly(content: Content)
    requires LoadFails(content)
    ensures LoadFile(Some(content)) == map[] <==> content.Unusable? || content.entries[0] == None
  {
    if content.List? {
      var i := FirstNull(content.entries);
      LoadStops(content.entries, i);
      if i > 0 {
        LoadOneMore(content.entries, i - 1);
        assert Key(content.entries[i - 1].value) in LoadEntries(content.entries[..i]);
      }
    }
  }

  lemma FirstNull(entries: seq<Option<AppDefinition>>) returns (i: nat)
    requires exists k :: 0 <= k < |entries| && entries[k] == None
    ensures i < |entries| && entries[i] == None && forall k | 0 <= k < i :: entries[k].Some?
  {
    i := 0;
    while entries[i].Some?
      invariant 0 <= i < |entries| && forall k | 0 <= k < i :: entries[k].Some?
      invariant exists k :: i <= k < |entries| && entries[k] == None
      decreases |entries| - i
    {
      i := i + 1;
    }
  }
}
