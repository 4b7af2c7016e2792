/**
  ProcessManagerRegistry: which instance names are accepted, which executable each one
  stands for, and why two instances of an app never share one.
 */
module InstanceRegistry {
  import opened Common
  import opened Paths
  import opened PathLaws
  import opened Names
  import opened FileTree
  import opened Supervision
  import opened SupervisionRuns
  import Supervisor

  /** The fields of AppOptions that an app scope is built from. */
  datatype AppOptions = AppOptions(
    defaultInstancePath: string, defaultInstanceName: string, instancesRootPath: string,
    instanceNamePrefix: string, executableName: string)

  /** What resolution of paths and names depends on besides: the current directory and `\d`. */
  datatype Setting = Setting(cwd: seq<string>, digit: char -> bool)

  ghost predicate Proper(z: Setting) {
    FullParts(z.cwd) && DigitClass(z.digit)
  }

  predicate IsDefault(o: AppOptions, name: string) {
    Fold(name) == Fold(o.defaultInstanceName)
  }

  function InstancePath(o: AppOptions, name: string): string {
    if IsDefault(o, name) then o.defaultInstancePath else Combine(o.instancesRootPath, name)
  }

  function ExePath(o: AppOptions, name: string): string {
    Combine(InstancePath(o, name), o.executableName)
  }

  /** The checks of GetOrCreate, in the order of the code. */
  predicate Accepted(o: AppOptions, name: string, z: Setting)
    requires z.cwd != []
  {
    && (IsDefault(o, name) || ValidName(name, o.instanceNamePrefix, z.digit))
    && (IsDefault(o, name) || IsContained(InstancePath(o, name), o.instancesRootPath, z.cwd))
    && IsContained(ExePath(o, name), InstancePath(o, name), z.cwd)
  }

  /** How the supervisor compares executables: the full path, up to case. */
  function ExeOf(o: AppOptions, name: string, z: Setting): Exe
    requires z.cwd != []
  {
    Fold(GetFullPath(ExePath(o, name), z.cwd))
  }

  /** Where the executable of an instance lies, as components up to case. */
  function HomeOf(o: AppOptions, name: string, z: Setting): Path
    requires z.cwd != []
  {
    FoldAll(Parts(ExePath(o, name), z.cwd))
  }

  /** The folder of an instance as components, up to case. */
  function Folder(o: AppOptions, name: string, z: Setting): seq<string>
    requires z.cwd != []
  {
    FoldAll(Parts(InstancePath(o, name), z.cwd))
  }

  /** Where the folder of a name below the instances root is. */
  function Place(o: AppOptions, name: string, z: Setting): Path
    requires z.cwd != []
  {
    FoldAll(Parts(Combine(o.instancesRootPath, name), z.cwd))
  }

  // ---------------------------------------------------------------- distinct executables

  /** Every accepted numbered executable lies under the instances root. */
  lemma NumberedExeUnderRoot(o: AppOptions, name: string, z: Setting)
    requires Proper(z) && Accepted(o, name, z) && !IsDefault(o, name)
    ensures IsContained(ExePath(o, name), o.instancesRootPath, z.cwd)
  {
    ContainedTransitive(ExePath(o, name), InstancePath(o, name), o.instancesRootPath, z.cwd);
  }

  /** What the paths of all numbered instances begin with. */
  function Stem(o: AppOptions): (stem: string)
    ensures stem != ""
  {
    Combine(o.instancesRootPath, o.instanceNamePrefix + "-")
  }

  lemma NumberedPath(o: AppOptions, name: string, z: Setting)
    requires Proper(z) && ValidName(name, o.instanceNamePrefix, z.digit)
    ensures Combine(o.instancesRootPath, name) == Stem(o) + name[|o.instanceNamePrefix| + 1..]
  {
    var rooted, t := o.instanceNamePrefix + "-", name[|o.instanceNamePrefix| + 1..];
    ValidTail(name, o.instanceNamePrefix, z.digit);
    assert name == rooted + t;
    CombineInert(o.instancesRootPath, rooted, t);
  }

  /** Inert characters at the end do not change how a path is combined. */
  lemma CombineInert(root: string, rooted: string, t: string)
    requires rooted != "" && Inert(t)
    ensures Combine(root, rooted + t) == Combine(root, rooted) + t
  {
    var name := rooted + t;
    assert Rooted(name) == Rooted(rooted) by {
      if |rooted| == 1 {
        assert name[1] == t[0] && t[0] in t;
      }
    }
    assert root + name == root + rooted + t;
    assert root + [SEP] + name == root + [SEP] + rooted + t;
  }

  lemma NumberedFolder(o: AppOptions, name: string, z: Setting)
    requires Proper(z) && ValidName(name, o.instanceNamePrefix, z.digit) && !IsDefault(o, name)
    ensures var (dir, begun) := FoldedStem(Stem(o), z.cwd);
            Folder(o, name, z) == dir + [begun + name[|o.instanceNamePrefix| + 1..]]
  {
    ValidTail(name, o.instanceNamePrefix, z.digit);
    NumberedPath(o, name, z);
    FoldedPartsOfInert(Stem(o), name[|o.instanceNamePrefix| + 1..], z.cwd);
  }

  lemma DifferentLast(dir: seq<string>, begun: string, t: string, u: string)
    ensures dir + [begun + t] == dir + [begun + u] ==> t == u
  {
    var p, q := dir + [begun + t], dir + [begun + u];
    assert p[|dir|] == begun + t && q[|dir|] == begun + u;
    assert (begun + t)[|begun|..] == t && (begun + u)[|begun|..] == u;
  }

  lemma DifferentTails(o: AppOptions, a: string, b: string, z: Setting)
    requires Proper(z) && Fold(a) != Fold(b)
    requires ValidName(a, o.instanceNamePrefix, z.digit) && ValidName(b, o.instanceNamePrefix, z.digit)
    ensures a[|o.instanceNamePrefix| + 1..] != b[|o.instanceNamePrefix| + 1..]
  {
    ValidTail(a, o.instanceNamePrefix, z.digit);
    ValidTail(b, o.instanceNamePrefix, z.digit);
  }

  /** Numbered folders are siblings: distinct names, distinct folders of the same depth. */
  lemma NumberedFoldersApart(o: AppOptions, a: string, b: string, z: Setting)
    requires Proper(z) && Fold(a) != Fold(b)
    requires ValidName(a, o.instanceNamePrefix, z.digit) && ValidName(b, o.instanceNamePrefix, z.digit)
    requires !IsDefault(o, a) && !IsDefault(o, b)
    ensures |Folder(o, a, z)| == |Folder(o, b, z)| && Folder(o, a, z) != Folder(o, b, z)
  {
    DifferentTails(o, a, b, z);
    NumberedFolder(o, a, z);
    NumberedFolder(o, b, z);
    var (dir, begun) := FoldedStem(Stem(o), z.cwd);
    DifferentLast(dir, begun, a[|o.instanceNamePrefix| + 1..], b[|o.instanceNamePrefix| + 1..]);
  }

  ghost predicate Apart(p: seq<string>, q: seq<string>) {
    !(p <= q) && !(q <= p)
  }

  /** The folder of the Default instance as components, up to case. */
  function DefaultFolder(o: AppOptions, z: Setting): Path
    requires z.cwd != []
  {
    FoldAll(Parts(o.defaultInstancePath, z.cwd))
  }

  /** The Default folder neither contains nor is contained in the folder of a numbered instance. */
  ghost predicate DefaultApart(o: AppOptions, z: Setting)
    requires z.cwd != []
  {
    forall name | ValidName(name, o.instanceNamePrefix, z.digit) && !IsDefault(o, name) ::
      Apart(DefaultFolder(o, z), Folder(o, name, z))
  }

  /** Some numbered instance has c as the name of its folder, up to case. */
  ghost predicate NamesInstance(o: AppOptions, z: Setting, c: string) {
    exists name :: ValidName(name, o.instanceNamePrefix, z.digit) && !IsDefault(o, name) && c == Fold(name)
  }

  lemma NumberedPlace(o: AppOptions, name: string, z: Setting)
    requires Proper(z) && SimplePaths(o) && ValidName(name, o.instanceNamePrefix, z.digit)
    ensures Place(o, name, z) == RootFolder(o, z) + [Fold(name)]
    ensures !IsDefault(o, name) ==> Folder(o, name, z) == Place(o, name, z)
  {
    var stem, t := o.instanceNamePrefix + "-", name[|o.instanceNamePrefix| + 1..];
    ValidTail(name, o.instanceNamePrefix, z.digit);
    StaysRelative(stem, t);
    ChildParts(o.instancesRootPath, stem, t, z.cwd);
    FoldLast(Parts(o.instancesRootPath, z.cwd), name);
  }

  /** Inert characters do not turn a relative path into a rooted one. */
  lemma StaysRelative(stem: string, t: string)
    requires stem != "" && !Rooted(stem) && Inert(t)
    ensures !Rooted(stem + t)
  {
    assert (stem + t)[0] == stem[0];
    if |stem| == 1 {
      assert (stem + t)[1] == t[0] && t[0] in t;
    }
  }

  lemma FoldLast(p: seq<string>, c: string)
    ensures FoldAll(p + [c]) == FoldAll(p) + [Fold(c)]
  {
  }

  /**
    Any instances root, relative or absolute, but not a bare drive, and a prefix that is one
    component and does not lead out of the root.
   */
  predicate SimplePaths(o: AppOptions) {
    Anchored(o.instancesRootPath) && SEP !in o.instanceNamePrefix && !Rooted(o.instanceNamePrefix + "-")
  }

  function RootFolder(o: AppOptions, z: Setting): seq<string>
    requires z.cwd != []
  {
    FoldAll(Parts(o.instancesRootPath, z.cwd))
  }

  /** One of the first two numbers names an instance that is not the Default one. */
  lemma SomeNumbered(o: AppOptions, z: Setting) returns (name: string)
    requires Proper(z)
    ensures ValidName(name, o.instanceNamePrefix, z.digit) && !IsDefault(o, name)
  {
    var a, b := InstanceName(o.instanceNamePrefix, 1), InstanceName(o.instanceNamePrefix, 2);
    BuiltNameIsValid(o.instanceNamePrefix, 1, z.digit);
    BuiltNameIsValid(o.instanceNamePrefix, 2, z.digit);
    if IsDefault(o, a) && IsDefault(o, b) {
      ValidNamesFold(a, b, o.instanceNamePrefix, z.digit);
      NameRoundTrip(o.instanceNamePrefix, 1);
      NameRoundTrip(o.instanceNamePrefix, 2);
      assert false;
    }
    name := if IsDefault(o, a) then b else a;
  }

  /**
    What an administrator can check of the configuration: the Default folder lies apart iff
    it is neither the instances root or around it, nor at or below a numbered folder's place.
   */
  lemma DefaultApartExactly(o: AppOptions, z: Setting)
    requires Proper(z) && SimplePaths(o)
    ensures var d, r := DefaultFolder(o, z), RootFolder(o, z);
            DefaultApart(o, z) <==> !(d <= r) && !(r < d && NamesInstance(o, z, d[|r|]))
  {
    var d, r := DefaultFolder(o, z), RootFolder(o, z);
    var some := SomeNumbered(o, z);
    NumberedPlace(o, some, z);
    forall name | ValidName(name, o.instanceNamePrefix, z.digit) && !IsDefault(o, name)
      ensures Apart(d, Folder(o, name, z)) <==> !(d <= r) && !(r < d && d[|r|] == Fold(name))
    {
      NumberedPlace(o, name, z);
      ApartFromChild(d, r, Fold(name));
    }
  }

  lemma ApartFromChild(d: seq<string>, r: seq<string>, c: string)
    ensures Apart(d, r + [c]) <==> !(d <= r) && !(r < d && d[|r|] == c)
  {
    if r < d && d[|r|] == c {
      assert d == r + [c] + d[|r| + 1..];
    }
  }

  /** A file name that is one component: something, and then characters other than dots and separators. */
  predicate SimpleFile(file: string) {
    !Rooted(file) && exists k :: 0 < k < |file| && SEP !in file[..k] && Inert(file[k..])
  }

  /**
    The containment checks never get in the way of an ordinary app: with a simple prefix and
    a simple executable name they let every well-formed name through.
   */
  lemma OrdinaryNamesAccepted(o: AppOptions, name: string, z: Setting)
    requires Proper(z) && SimplePaths(o) && SimpleFile(o.executableName)
    requires ValidName(name, o.instanceNamePrefix, z.digit) && !IsDefault(o, name)
    ensures Accepted(o, name, z)
    ensures HomeOf(o, name, z) == RootFolder(o, z) + [Fold(name)] + [Fold(o.executableName)]
  {
    NumberedPlace(o, name, z);
    BelowAnchored(o, name, z);
    FileBelow(InstancePath(o, name), o.executableName, z);
    LongerIsContained(InstancePath(o, name), o.instancesRootPath, z.cwd);
    LongerIsContained(ExePath(o, name), InstancePath(o, name), z.cwd);
  }

  /** Likewise for the Default instance. */
  lemma DefaultAccepted(o: AppOptions, z: Setting)
    requires Proper(z) && Anchored(o.defaultInstancePath) && SimpleFile(o.executableName)
    ensures Accepted(o, o.defaultInstanceName, z)
    ensures HomeOf(o, o.defaultInstanceName, z) == DefaultFolder(o, z) + [Fold(o.executableName)]
  {
    FileBelow(o.defaultInstancePath, o.executableName, z);
    LongerIsContained(ExePath(o, o.defaultInstanceName), o.defaultInstancePath, z.cwd);
  }

  lemma FileBelow(path: string, file: string, z: Setting)
    requires Proper(z) && Anchored(path) && SimpleFile(file)
    ensures FoldAll(Parts(Combine(path, file), z.cwd)) == FoldAll(Parts(path, z.cwd)) + [Fold(file)]
    ensures !Terminated(Combine(path, file), z.cwd)
  {
    var k :| 0 < k < |file| && SEP !in file[..k] && Inert(file[k..]);
    assert file == file[..k] + file[k..];
    ChildFolded(path, file[..k], file[k..], z.cwd);
  }

  lemma LongerIsContained(candidate: string, root: string, cwd: seq<string>)
    requires FullParts(cwd) && FoldAll(Parts(root, cwd)) < FoldAll(Parts(candidate, cwd))
    ensures IsContained(candidate, root, cwd)
  {
    ContainedExactly(candidate, root, cwd);
  }

  lemma BelowAnchored(o: AppOptions, name: string, z: Setting)
    requires Proper(z) && SimplePaths(o) && ValidName(name, o.instanceNamePrefix, z.digit)
    ensures Anchored(Combine(o.instancesRootPath, name))
  {
    ValidTail(name, o.instanceNamePrefix, z.digit);
    StaysRelative(o.instanceNamePrefix + "-", name[|o.instanceNamePrefix| + 1..]);
    assert |name| >= 2 && !Rooted(name);
  }

  // ---------------------------------------------------------------- executables outside the folder

  /** The executable name goes up once and then down by other names than the folder's own. */
  ghost predicate LeadsOut(o: AppOptions, name: string, z: Setting)
    requires z.cwd != []
  {
    var p := Parts(InstancePath(o, name), z.cwd);
    Anchored(InstancePath(o, name)) && |p| > 1 &&
    exists q :: q != [] && AllPlain(q) && Fold(q[0]) != Fold(p[|p| - 1]) && o.executableName == "..\\" + Joined(q)
  }

  lemma LeadingOutRefused(o: AppOptions, name: string, z: Setting)
    requires Proper(z) && LeadsOut(o, name, z)
    ensures !Accepted(o, name, z)
  {
    var p := Parts(InstancePath(o, name), z.cwd);
    var q :| q != [] && AllPlain(q) && Fold(q[0]) != Fold(p[|p| - 1]) && o.executableName == "..\\" + Joined(q);
    BackDownExactly(InstancePath(o, name), q, z.cwd);
  }

  /** For any continuation: an accepted executable that goes up has come back into the folder. */
  lemma AcceptedComesBack(o: AppOptions, name: string, z: Setting, s: string)
    requires Proper(z) && Accepted(o, name, z) && Anchored(InstancePath(o, name)) && o.executableName == "..\\" + s
    ensures Parts(InstancePath(o, name), z.cwd) != []
    ensures Folder(o, name, z) <= FoldAll(Walk(Above(Parts(InstancePath(o, name), z.cwd)), "", s))
  {
    LeadingOut(InstancePath(o, name), s, z.cwd);
  }

  /** A rooted executable name is its own path, and accepted only inside the folder. */
  lemma RootedExecutable(o: AppOptions, name: string, z: Setting)
    requires Proper(z) && Rooted(o.executableName)
    ensures HomeOf(o, name, z) == FoldAll(Parts(o.executableName, z.cwd))
    ensures Accepted(o, name, z) ==> Folder(o, name, z) <= FoldAll(Parts(o.executableName, z.cwd))
  {
    assert o.executableName != "";
    if Accepted(o, name, z) {
      ExeInFolder(o, name, z);
    }
  }

  lemma ExeInFolder(o: AppOptions, name: string, z: Setting)
    requires Proper(z) && Accepted(o, name, z)
    ensures Folder(o, name, z) <= FoldAll(Parts(ExePath(o, name), z.cwd))
  {
    ContainedExactly(ExePath(o, name), InstancePath(o, name), z.cwd);
  }

  lemma FoldersApart(o: AppOptions, a: string, b: string, z: Setting)
    requires Proper(z) && Accepted(o, a, z) && Accepted(o, b, z) && Fold(a) != Fold(b)
    requires DefaultApart(o, z)
    ensures Apart(Folder(o, a, z), Folder(o, b, z))
  {
    if IsDefault(o, a) {
      assert Apart(DefaultFolder(o, z), Folder(o, b, z));
    } else if IsDefault(o, b) {
      assert Apart(DefaultFolder(o, z), Folder(o, a, z));
    } else {
      NumberedFoldersApart(o, a, b, z);
    }
  }

  lemma ApartShareNothing(p: seq<string>, q: seq<string>, e: seq<string>)
    requires Apart(p, q)
    ensures !(p <= e && q <= e)
  {
  }

  /** Executables whose folders lie apart are different ones. */
  lemma ApartDistinct(o: AppOptions, a: string, b: string, z: Setting)
    requires Proper(z) && Accepted(o, a, z) && Accepted(o, b, z) && Apart(Folder(o, a, z), Folder(o, b, z))
    ensures ExeOf(o, a, z) != ExeOf(o, b, z) && HomeOf(o, a, z) != HomeOf(o, b, z)
  {
    ExeInFolder(o, a, z);
    ExeInFolder(o, b, z);
    ApartShareNothing(Folder(o, a, z), Folder(o, b, z), HomeOf(o, a, z));
    if ExeOf(o, a, z) == ExeOf(o, b, z) {
      FullPathDetermines(ExePath(o, a), ExePath(o, b), z.cwd);
    }
  }

  /**
    For an app whose Default folder lies apart from the numbered ones, accepted names that
    differ beyond letter case stand for different executables, however its paths are spelled.
   */
  lemma DistinctExecutables(o: AppOptions, a: string, b: string, z: Setting)
    requires Proper(z) && Accepted(o, a, z) && Accepted(o, b, z) && Fold(a) != Fold(b)
    requires DefaultApart(o, z)
    ensures ExeOf(o, a, z) != ExeOf(o, b, z)
  {
    FoldersApart(o, a, b, z);
    ApartDistinct(o, a, b, z);
  }

  /** Paths as an administrator writes them: each part a path or name of its own. */
  ghost predicate Ordinary(o: AppOptions) {
    SimplePaths(o) && SimpleFile(o.executableName) && Anchored(o.defaultInstancePath)
  }

  /** The Default folder is the folder of a numbered instance. */
  ghost predicate SharesFolder(o: AppOptions, z: Setting)
    requires z.cwd != []
  {
    var d, r := DefaultFolder(o, z), RootFolder(o, z);
    r < d && |d| == |r| + 1 && NamesInstance(o, z, d[|r|])
  }

  /** Default shares its executable with a numbered instance exactly when it is the same folder. */
  lemma DefaultSharesExactly(o: AppOptions, name: string, z: Setting)
    requires Proper(z) && Ordinary(o) && ValidName(name, o.instanceNamePrefix, z.digit) && !IsDefault(o, name)
    ensures ExeOf(o, name, z) == ExeOf(o, o.defaultInstanceName, z) <==>
            DefaultFolder(o, z) == RootFolder(o, z) + [Fold(name)]
  {
    var a, b := ExePath(o, name), ExePath(o, o.defaultInstanceName);
    OrdinaryNamesAccepted(o, name, z);
    DefaultAccepted(o, z);
    BelowAnchored(o, name, z);
    FileBelow(InstancePath(o, name), o.executableName, z);
    FileBelow(o.defaultInstancePath, o.executableName, z);
    SamePath(a, b, z.cwd);
    SameLast(RootFolder(o, z) + [Fold(name)], DefaultFolder(o, z), Fold(o.executableName));
  }

  lemma SameLast(p: Path, q: Path, c: string)
    ensures p + [c] == q + [c] ==> p == q
  {
    assert (p + [c])[..|p + [c]| - 1] == p;
    assert (q + [c])[..|q + [c]| - 1] == q;
  }

  ghost predicate AllDistinct(o: AppOptions, z: Setting)
    requires z.cwd != []
  {
    forall a, b | Accepted(o, a, z) && Accepted(o, b, z) && Fold(a) != Fold(b) :: ExeOf(o, a, z) != ExeOf(o, b, z)
  }

  /**
    Exactly when no two instances of an ordinary app share an executable: the Default folder
    is not the folder of a numbered instance.
   */
  lemma DistinctExactly(o: AppOptions, z: Setting)
    requires Proper(z) && Ordinary(o)
    ensures AllDistinct(o, z) <==> !SharesFolder(o, z)
  {
    if SharesFolder(o, z) {
      var name := SharingName(o, z);
    } else {
      forall a, b | Accepted(o, a, z) && Accepted(o, b, z) && Fold(a) != Fold(b)
        ensures ExeOf(o, a, z) != ExeOf(o, b, z)
      {
        UnsharedDistinct(o, a, b, z);
      }
    }
  }

  lemma SharingName(o: AppOptions, z: Setting) returns (name: string)
    requires Proper(z) && Ordinary(o) && SharesFolder(o, z)
    ensures Accepted(o, name, z) && Accepted(o, o.defaultInstanceName, z) && !IsDefault(o, name)
    ensures ExeOf(o, name, z) == ExeOf(o, o.defaultInstanceName, z)
  {
    name := NameOf(o, z, DefaultFolder(o, z)[|RootFolder(o, z)|]);
    LongerByOne(RootFolder(o, z), DefaultFolder(o, z));
    DefaultSharesExactly(o, name, z);
    OrdinaryNamesAccepted(o, name, z);
    DefaultAccepted(o, z);
  }

  lemma NameOf(o: AppOptions, z: Setting, c: string) returns (name: string)
    requires NamesInstance(o, z, c)
    ensures ValidName(name, o.instanceNamePrefix, z.digit) && !IsDefault(o, name) && c == Fold(name)
  {
    name :| ValidName(name, o.instanceNamePrefix, z.digit) && !IsDefault(o, name) && c == Fold(name);
  }

  lemma LongerByOne(p: Path, q: Path)
    requires p < q && |q| == |p| + 1
    ensures q == p + [q[|p|]]
  {
  }

  lemma UnsharedDistinct(o: AppOptions, a: string, b: string, z: Setting)
    requires Proper(z) && Ordinary(o) && !SharesFolder(o, z)
    requires Accepted(o, a, z) && Accepted(o, b, z) && Fold(a) != Fold(b)
    ensures ExeOf(o, a, z) != ExeOf(o, b, z)
  {
    if IsDefault(o, a) {
      UnsharedWithDefault(o, b, z);
      assert ExePath(o, a) == ExePath(o, o.defaultInstanceName);
    } else if IsDefault(o, b) {
      UnsharedWithDefault(o, a, z);
      assert ExePath(o, b) == ExePath(o, o.defaultInstanceName);
    } else {
      NumberedFoldersApart(o, a, b, z);
      ApartDistinct(o, a, b, z);
    }
  }

  lemma UnsharedWithDefault(o: AppOptions, name: string, z: Setting)
    requires Proper(z) && Ordinary(o) && !SharesFolder(o, z)
    requires ValidName(name, o.instanceNamePrefix, z.digit) && !IsDefault(o, name)
    ensures ExeOf(o, name, z) != ExeOf(o, o.defaultInstanceName, z)
  {
    DefaultSharesExactly(o, name, z);
    var r := RootFolder(o, z);
    assert NamesInstance(o, z, Fold(name));
    assert r < r + [Fold(name)] && (r + [Fold(name)])[|r|] == Fold(name);
  }

  /**
    When the Default path is spelled as the folder of a numbered instance, both names are
    accepted together and share one executable, ordinary or not.
   */
  lemma SharedFolderSharesExecutable(o: AppOptions, name: string, z: Setting)
    requires Proper(z) && ValidName(name, o.instanceNamePrefix, z.digit) && !IsDefault(o, name)
    requires o.defaultInstancePath == Combine(o.instancesRootPath, name)
    requires IsContained(o.defaultInstancePath, o.instancesRootPath, z.cwd)
    ensures Accepted(o, name, z) <==> Accepted(o, o.defaultInstanceName, z)
    ensures ExeOf(o, name, z) == ExeOf(o, o.defaultInstanceName, z) && !DefaultApart(o, z)
  {
    assert InstancePath(o, name) == InstancePath(o, o.defaultInstanceName);
    assert !Apart(DefaultFolder(o, z), Folder(o, name, z));
  }

  // ---------------------------------------------------------------- runs with any number of apps

  /** Manager n was made, before step i, for an accepted name of an app. */
  ghost predicate MadeFor(o: AppOptions, z: Setting, steps: seq<Step>, i: nat, n: Id, name: string)
    requires z.cwd != [] && i <= |steps|
  {
    Accepted(o, name, z) && exists c :: 0 <= c < i && steps[c] == Create(n, ExeOf(o, name, z), HomeOf(o, name, z))
  }

  lemma ManagersAreMade(o: AppOptions, z: Setting, w: World, steps: seq<Step>, i: nat, n: Id, name: string)
    requires z.cwd != [] && Legal(w, steps) && i <= |steps| && MadeFor(o, z, steps, i, n, name)
    ensures n in At(w, steps, i).managers
    ensures At(w, steps, i).managers[n].exe == ExeOf(o, name, z)
    ensures At(w, steps, i).managers[n].home == HomeOf(o, name, z)
  {
    var c :| 0 <= c < i && steps[c] == Create(n, ExeOf(o, name, z), HomeOf(o, name, z));
    StaysAsMade(w, steps, c, i, n, ExeOf(o, name, z), HomeOf(o, name, z));
  }

  /** No two instances of the app share an executable, by position or exactly. */
  ghost predicate Separated(o: AppOptions, z: Setting)
    requires z.cwd != []
  {
    DefaultApart(o, z) || (Ordinary(o) && !SharesFolder(o, z))
  }

  /**
    Non-interference: in any run, with whatever other apps and former registrations have
    managers in it, no operation on one instance of an app adopts a process of another
    instance of that app, selects it as a duplicate to kill or ends one that the other
    launched, and none changes what the other's manager knows. Numbered instances need no
    condition on the paths.
   */
  lemma InstancesNeverInterfere(o: AppOptions, z: Setting, w: World, steps: seq<Step>, i: nat,
                                n: Id, a: string, k: Id, b: string)
    requires Proper(z) && Fold(a) != Fold(b) && (IsDefault(o, a) || IsDefault(o, b) ==> Separated(o, z))
    requires Initial(w) && Legal(w, steps) && i < |steps| && Owner(steps[i]) == Some(n)
    requires MadeFor(o, z, steps, i, n, a) && MadeFor(o, z, steps, i, k, b)
    ensures n != k && n in At(w, steps, i).managers && k in At(w, steps, i).managers && k in At(w, steps, i + 1).managers
    ensures At(w, steps, i).managers[n].exe != At(w, steps, i).managers[k].exe
    ensures At(w, steps, i + 1).managers[k] == At(w, steps, i).managers[k]
    ensures forall p | Selects(steps[i], n, p) ::
              p !in At(w, steps, i).managers[k].launched && At(w, steps, i).managers[k].handle != Attached(p)
    ensures forall p | p in At(w, steps, i).managers[k].launched && Alive(At(w, steps, i).table, p) ::
              Alive(At(w, steps, i + 1).table, p)
  {
    ManagersAreMade(o, z, w, steps, i, n, a);
    ManagersAreMade(o, z, w, steps, i, k, b);
    if !IsDefault(o, a) && !IsDefault(o, b) {
      NumberedFoldersApart(o, a, b, z);
      ApartDistinct(o, a, b, z);
    } else if DefaultApart(o, z) {
      DistinctExecutables(o, a, b, z);
    } else {
      UnsharedDistinct(o, a, b, z);
    }
    InstancesDoNotInterfere(w, steps, i, n, k);
  }

  // ---------------------------------------------------------------- folders of running instances

  /**
    What a deletion of a numbered instance of the app does: it removes that instance's
    folder, after asking the manager that its scope has for the instance.
   */
  ghost predicate OwnDeletion(o: AppOptions, z: Setting, s: Step, n: Id, name: string)
    requires z.cwd != []
  {
    s.RemoveFiles? && exists target ::
      ValidName(target, o.instanceNamePrefix, z.digit) && !IsDefault(o, target) &&
      s.root == Folder(o, target, z) && (Fold(target) == Fold(name) ==> s.checked == Some(n))
  }

  /** Any other deletion that leaves the folder of the instance alone. */
  ghost predicate ForeignDeletion(o: AppOptions, z: Setting, s: Step, name: string)
    requires z.cwd != []
  {
    s.RemoveFiles? && !(s.root <= HomeOf(o, name, z))
  }

  /** No numbered folder holds the executable of the Default instance. */
  ghost predicate DefaultOutside(o: AppOptions, z: Setting)
    requires z.cwd != []
  {
    forall name | ValidName(name, o.instanceNamePrefix, z.digit) && !IsDefault(o, name) ::
      !(Folder(o, name, z) <= HomeOf(o, o.defaultInstanceName, z))
  }

  lemma ApartIsOutside(o: AppOptions, z: Setting)
    requires Proper(z) && DefaultApart(o, z) && Accepted(o, o.defaultInstanceName, z)
    ensures DefaultOutside(o, z)
  {
    ExeInFolder(o, o.defaultInstanceName, z);
    forall name | ValidName(name, o.instanceNamePrefix, z.digit) && !IsDefault(o, name)
      ensures !(Folder(o, name, z) <= HomeOf(o, o.defaultInstanceName, z))
    {
      ApartShareNothing(DefaultFolder(o, z), Folder(o, name, z), HomeOf(o, o.defaultInstanceName, z));
    }
  }

  lemma OtherFolderElsewhere(o: AppOptions, z: Setting, target: string, name: string)
    requires Proper(z) && Accepted(o, name, z) && (IsDefault(o, name) ==> DefaultOutside(o, z))
    requires ValidName(target, o.instanceNamePrefix, z.digit) && !IsDefault(o, target) && Fold(target) != Fold(name)
    ensures !(Folder(o, target, z) <= HomeOf(o, name, z))
  {
    if IsDefault(o, name) {
      assert HomeOf(o, name, z) == HomeOf(o, o.defaultInstanceName, z);
    } else {
      ExeInFolder(o, name, z);
      NumberedFoldersApart(o, target, name, z);
      ApartShareNothing(Folder(o, target, z), Folder(o, name, z), HomeOf(o, name, z));
    }
  }

  lemma DeletionAsks(o: AppOptions, z: Setting, w: World, s: Step, n: Id, name: string)
    requires Proper(z) && Accepted(o, name, z) && (IsDefault(o, name) ==> DefaultOutside(o, z))
    requires n in w.managers ==> w.managers[n].home == HomeOf(o, name, z)
    requires s.RemoveFiles? && n in w.managers ==>
               OwnDeletion(o, z, s, n, name) || ForeignDeletion(o, z, s, name)
    ensures Asks(w, s, n)
  {
    if s.RemoveFiles? && n in w.managers && OwnDeletion(o, z, s, n, name) {
      var target :| ValidName(target, o.instanceNamePrefix, z.digit) && !IsDefault(o, target) &&
                    s.root == Folder(o, target, z) && (Fold(target) == Fold(name) ==> s.checked == Some(n));
      if Fold(target) != Fold(name) {
        OtherFolderElsewhere(o, z, target, name);
      }
    }
  }

  /** s deletes an instance's folder as its app does, or something else. */
  ghost predicate Considerate(o: AppOptions, z: Setting, s: Step, n: Id, name: string)
    requires z.cwd != []
  {
    s.RemoveFiles? ==> OwnDeletion(o, z, s, n, name) || ForeignDeletion(o, z, s, name)
  }

  /** Every deletion of the run after manager n was made is the app's own or elsewhere. */
  ghost predicate DeletionsAreOwn(o: AppOptions, z: Setting, steps: seq<Step>, i: nat, n: Id, name: string)
    requires z.cwd != [] && i <= |steps|
  {
    forall c, j | 0 <= c < j < i && steps[c].Create? && steps[c].id == n :: Considerate(o, z, steps[j], n, name)
  }

  /** That, and that it was made for its name, of all managers of a scope. */
  ghost predicate AllOwn(o: AppOptions, z: Setting, steps: seq<Step>, ids: map<string, Id>, spelled: map<string, string>)
    requires z.cwd != [] && ids.Keys == spelled.Keys
  {
    forall key | key in ids ::
      MadeFor(o, z, steps, |steps|, ids[key], spelled[key]) && DeletionsAreOwn(o, z, steps, |steps|, ids[key], spelled[key])
  }

  lemma AllOwnGrows(o: AppOptions, z: Setting, steps: seq<Step>, s: Step, ids: map<string, Id>, spelled: map<string, string>)
    requires z.cwd != [] && ids.Keys == spelled.Keys && AllOwn(o, z, steps, ids, spelled)
    requires forall key | key in ids :: Considerate(o, z, s, ids[key], spelled[key])
    ensures AllOwn(o, z, steps + [s], ids, spelled)
  {
    var more := steps + [s];
    forall key | key in ids
      ensures MadeFor(o, z, more, |more|, ids[key], spelled[key])
      ensures DeletionsAreOwn(o, z, more, |more|, ids[key], spelled[key])
    {
      MadeForGrows(o, z, steps, s, ids[key], spelled[key]);
      OwnGrows(o, z, steps, s, ids[key], spelled[key]);
    }
  }

  lemma MadeForGrows(o: AppOptions, z: Setting, steps: seq<Step>, s: Step, n: Id, name: string)
    requires z.cwd != [] && MadeFor(o, z, steps, |steps|, n, name)
    ensures MadeFor(o, z, steps + [s], |steps| + 1, n, name)
  {
    var c :| 0 <= c < |steps| && steps[c] == Create(n, ExeOf(o, name, z), HomeOf(o, name, z));
    assert (steps + [s])[c] == steps[c];
  }

  lemma OwnGrows(o: AppOptions, z: Setting, steps: seq<Step>, s: Step, n: Id, name: string)
    requires z.cwd != [] && DeletionsAreOwn(o, z, steps, |steps|, n, name) && Considerate(o, z, s, n, name)
    ensures DeletionsAreOwn(o, z, steps + [s], |steps| + 1, n, name)
  {
    var more := steps + [s];
    forall c, j | 0 <= c < j < |more| && more[c].Create? && more[c].id == n
      ensures Considerate(o, z, more[j], n, name)
    {
      assert more[c] == steps[c];
      if j < |steps| {
        assert more[j] == steps[j];
      }
    }
  }

  /** A manager made for an accepted name joins its scope; nothing has been deleted since. */
  lemma AllOwnGains(o: AppOptions, z: Setting, steps: seq<Step>, ids: map<string, Id>, spelled: map<string, string>,
                    n: Id, name: string)
    requires z.cwd != [] && ids.Keys == spelled.Keys && AllOwn(o, z, steps, ids, spelled) && Accepted(o, name, z)
    requires forall c | 0 <= c < |steps| && steps[c].Create? :: steps[c].id != n
    ensures AllOwn(o, z, steps + [Create(n, ExeOf(o, name, z), HomeOf(o, name, z))],
                   ids[Fold(name) := n], spelled[Fold(name) := name])
  {
    var s := Create(n, ExeOf(o, name, z), HomeOf(o, name, z));
    var more := steps + [s];
    AllOwnGrows(o, z, steps, s, ids, spelled);
    assert more[|steps|] == s && forall c | 0 <= c < |steps| :: more[c] == steps[c];
    assert MadeFor(o, z, more, |more|, n, name) && DeletionsAreOwn(o, z, more, |more|, n, name);
  }

  /**
    The instance of every live process that a manager of an app launched still has its
    executable and its folder, as long as, from the making of that manager on, the folder is
    deleted only by DeleteInstance commands that ask it. Only Default needs a condition on
    the paths.
   */
  lemma FolderOutlivesProcess(o: AppOptions, z: Setting, w: World, steps: seq<Step>, i: nat, n: Id, name: string, p: Pid)
    requires Proper(z) && Initial(w) && Legal(w, steps) && i <= |steps|
    requires MadeFor(o, z, steps, i, n, name) && (IsDefault(o, name) ==> DefaultOutside(o, z))
    requires DeletionsAreOwn(o, z, steps, i, n, name)
    requires n in At(w, steps, i).managers
    requires p in At(w, steps, i).managers[n].launched && Alive(At(w, steps, i).table, p)
    ensures IsFile(At(w, steps, i).files, HomeOf(o, name, z))
    ensures Folder(o, name, z) < HomeOf(o, name, z) ==> IsDir(At(w, steps, i).files, Folder(o, name, z))
  {
    forall j | 0 <= j < i
      ensures Asks(At(w, steps, j), steps[j], n)
    {
      if n in At(w, steps, j).managers {
        LaunchedStays(w, steps, j, i, n);
        ManagersAreMade(o, z, w, steps, i, n, name);
        var c := MadeBefore(w, steps, j, n);
      }
      DeletionAsks(o, z, At(w, steps, j), steps[j], n, name);
    }
    ManagersAreMade(o, z, w, steps, i, n, name);
    ExecutableOutlivesProcess(w, steps, i, n, p);
  }

  // ---------------------------------------------------------------- the code

  /** Nobody's manager and no process changed, at most new managers appeared. */
  ghost predicate OnlyNewManagers(w: World, v: World) {
    v.table == w.table && v.files == w.files &&
    forall k | k in w.managers :: k in v.managers && v.managers[k] == w.managers[k]
  }

  /** One manager per instance name of an app, made on first use. */
  class ProcessManagerRegistry {
    const options: AppOptions
    const setting: Setting
    const os: Supervisor.OperatingSystem
    /** Keyed by the folded name; `spelled` keeps the key as the dictionary stores it. */
    var managers: map<string, Supervisor.ProcessManagerService>
    var spelled: map<string, string>
    /** The numbers that the managers have in the state machine. */
    ghost var ids: map<string, Id>

    ghost predicate Valid()
      reads this
    {
      Proper(setting) && spelled.Keys == managers.Keys && ids.Keys == managers.Keys &&
      forall key | key in managers :: IsEntry(key, spelled[key], managers[key]) && managers[key].id == ids[key]
    }

    /** The manager serves an accepted name, which is stored under the folded name. */
    ghost predicate IsEntry(key: string, name: string, manager: Supervisor.ProcessManagerService)
      requires setting.cwd != []
    {
      && Fold(name) == key && Accepted(options, name, setting) && manager.os == os
      && manager.exe == ExeOf(options, name, setting) && manager.home == HomeOf(options, name, setting)
    }

    /**
      Every manager of the cache was made for its name, and since then its folder was deleted
      only by commands that asked it.
     */
    ghost predicate OnlyOwnDeletions()
      requires setting.cwd != [] && spelled.Keys == ids.Keys
      reads this, os
    {
      AllOwn(options, setting, os.trace, ids, spelled)
    }

    constructor (options: AppOptions, setting: Setting, os: Supervisor.OperatingSystem)
      requires Proper(setting)
      ensures Valid() && managers == map[] && this.options == options && this.setting == setting && this.os == os
      ensures OnlyOwnDeletions()
    {
      this.options, this.setting, this.os := options, setting, os;
      managers, spelled, ids := map[], map[], map[];
    }

    /** The manager of an instance, or None where the code throws ArgumentException. */
    method GetOrCreate(instanceName: string) returns (r: Option<Supervisor.ProcessManagerService>)
      requires Valid() && os.Valid()
      modifies this, os
      ensures Valid() && os.Valid()
      ensures r.Some? <==> Accepted(options, instanceName, setting)
      ensures r.Some? ==>
                Fold(instanceName) in managers && r.value == managers[Fold(instanceName)] &&
                r.value.os == os && r.value.exe == ExeOf(options, instanceName, setting) &&
                r.value.home == HomeOf(options, instanceName, setting)
      ensures r.None? || Fold(instanceName) in old(managers) ==>
                managers == old(managers) && os.trace == old(os.trace) && os.world == old(os.world)
      ensures r.Some? && Fold(instanceName) !in old(managers) ==>
                managers == old(managers)[Fold(instanceName) := r.value] && fresh(r.value) && r.value.Valid() &&
                os.trace == old(os.trace) + [Create(r.value.id, r.value.exe, r.value.home)]
      ensures OnlyNewManagers(old(os.world), os.world)
      ensures old(OnlyOwnDeletions()) ==> OnlyOwnDeletions()
      ensures LeadsOut(options, instanceName, setting) ==> r.None?
    {
      if LeadsOut(options, instanceName, setting) {
        LeadingOutRefused(options, instanceName, setting);
      }
      var isDefault := Fold(instanceName) == Fold(options.defaultInstanceName);
      if !isDefault && !ValidName(instanceName, options.instanceNamePrefix, setting.digit) {
        return None;
      }
      if Fold(instanceName) in managers {
        SameAcceptance(instanceName);
        return Some(managers[Fold(instanceName)]);
      }
      var exePath := Resolve(instanceName, isDefault);
      if exePath.None? {
        return None;
      }
      var manager := Make(instanceName, exePath.value);
      return Some(manager);
    }

    /** GetOrCreate with its exception caught, as callers that report it use it. */
    method TryGetOrCreate(instanceName: string) returns (r: Option<Supervisor.ProcessManagerService>)
      requires Valid() && os.Valid()
      modifies this, os
      ensures Valid() && os.Valid() && (r.Some? <==> Accepted(options, instanceName, setting))
      ensures r.Some? ==>
                r.value.os == os && r.value.exe == ExeOf(options, instanceName, setting) &&
                r.value.home == HomeOf(options, instanceName, setting)
    {
      r := GetOrCreate(instanceName);
    }

    /** The executable's path, or None where a containment check fails. */
    method Resolve(instanceName: string, isDefault: bool) returns (exePath: Option<string>)
      requires Proper(setting) && (isDefault <==> IsDefault(options, instanceName))
      requires isDefault || ValidName(instanceName, options.instanceNamePrefix, setting.digit)
      ensures exePath.Some? <==> Accepted(options, instanceName, setting)
      ensures exePath.Some? ==> exePath.value == ExePath(options, instanceName)
    {
      var instancePath := if isDefault then options.defaultInstancePath
                          else Combine(options.instancesRootPath, instanceName);
      if !isDefault && !IsContained(instancePath, options.instancesRootPath, setting.cwd) {
        return None;
      }
      var path := Combine(instancePath, options.executableName);
      if !IsContained(path, instancePath, setting.cwd) {
        return None;
      }
      return Some(path);
    }

    /** A new manager for an accepted name, put into the cache. */
    method Make(instanceName: string, exePath: string) returns (manager: Supervisor.ProcessManagerService)
      requires Valid() && os.Valid() && Accepted(options, instanceName, setting)
      requires exePath == ExePath(options, instanceName) && Fold(instanceName) !in managers
      modifies this, os
      ensures Valid() && os.Valid() && fresh(manager) && manager.Valid() && manager.os == os
      ensures manager.exe == ExeOf(options, instanceName, setting) && manager.home == HomeOf(options, instanceName, setting)
      ensures managers == old(managers)[Fold(instanceName) := manager]
      ensures os.trace == old(os.trace) + [Create(manager.id, manager.exe, manager.home)]
      ensures OnlyNewManagers(old(os.world), os.world)
      ensures old(OnlyOwnDeletions()) ==> OnlyOwnDeletions()
    {
      os.MadeAreManagers();
      manager := new Supervisor.ProcessManagerService(
        os, Fold(GetFullPath(exePath, setting.cwd)), FoldAll(Parts(exePath, setting.cwd)));
      Store(instanceName, manager);
      JoinsScope(old(os.trace), old(ids), old(spelled), manager, instanceName);
    }

    /** The entry of the dictionary, under the name as it was spelled. */
    method Store(instanceName: string, manager: Supervisor.ProcessManagerService)
      requires Valid() && IsEntry(Fold(instanceName), instanceName, manager)
      modifies this
      ensures Valid() && managers == old(managers)[Fold(instanceName) := manager]
      ensures spelled == old(spelled)[Fold(instanceName) := instanceName]
      ensures ids == old(ids)[Fold(instanceName) := manager.id]
    {
      managers := managers[Fold(instanceName) := manager];
      spelled := spelled[Fold(instanceName) := instanceName];
      ids := ids[Fold(instanceName) := manager.id];
    }

    lemma JoinsScope(before: seq<Step>, former: map<string, Id>, names: map<string, string>,
                     manager: Supervisor.ProcessManagerService, name: string)
      requires Valid() && former.Keys == names.Keys && Accepted(options, name, setting)
      requires manager.exe == ExeOf(options, name, setting) && manager.home == HomeOf(options, name, setting)
      requires os.trace == before + [Create(manager.id, manager.exe, manager.home)]
      requires forall c | 0 <= c < |before| && before[c].Create? :: before[c].id != manager.id
      requires ids == former[Fold(name) := manager.id] && spelled == names[Fold(name) := name]
      ensures AllOwn(options, setting, before, former, names) ==> OnlyOwnDeletions()
    {
      if AllOwn(options, setting, before, former, names) {
        AllOwnGains(options, setting, before, former, names, manager.id, name);
      }
    }

    /** A cached manager answers for every spelling that validation lets through. */
    lemma SameAcceptance(name: string)
      requires Valid() && Fold(name) in managers
      requires IsDefault(options, name) || ValidName(name, options.instanceNamePrefix, setting.digit)
      ensures Accepted(options, name, setting)
      ensures ExeOf(options, name, setting) == managers[Fold(name)].exe
      ensures HomeOf(options, name, setting) == managers[Fold(name)].home
      ensures !IsDefault(options, name) ==> spelled[Fold(name)] == name
    {
      var s := spelled[Fold(name)];
      if !IsDefault(options, name) {
        ValidNamesFold(s, name, options.instanceNamePrefix, setting.digit);
      }
    }

    /** GetAll: a copy that has lost the case-insensitive comparer. */
    method GetAll() returns (all: map<string, Supervisor.ProcessManagerService>)
      requires Valid()
      ensures forall name | !IsDefault(options, name) && ValidName(name, options.instanceNamePrefix, setting.digit) ::
                (name in all <==> Fold(name) in managers) && (name in all ==> all[name] == managers[Fold(name)])
      ensures forall name | name in all :: Fold(name) in managers && all[name] == managers[Fold(name)]
    {
      all := map key | key in spelled :: spelled[key] := managers[key];
      forall name | !IsDefault(options, name) && ValidName(name, options.instanceNamePrefix, setting.digit) &&
                    Fold(name) in managers
        ensures spelled[Fold(name)] == name
      {
        SameAcceptance(name);
      }
    }
  }
}
