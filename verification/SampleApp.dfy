/**
  An app and a run that meet the conditions of the theorems about instances: a Default
  folder beside the instances root, and managers of two of its instances.
 */
module SampleApp {
  import opened Common
  import opened Paths
  import opened PathLaws
  import opened Names
  import opened FileTree
  import opened InstanceRegistry
  import opened Supervision
  import opened SupervisionRuns

  const APP := AppOptions("C:\\d", "Default", "C:\\i", "a", "xy")
  const HERE := Setting(["C:"], (c: char) => IsDigit(c))

  lemma FolderParts(c: char)
    requires 'a' <= c <= 'z'
    ensures FoldAll(Parts("C:\\" + [c], HERE.cwd)) == ["C:", [FoldChar(c)]]
  {
    FolderComponents(c);
    assert Fold("C:") == "C:" && Fold([c]) == [FoldChar(c)];
  }

  lemma FolderComponents(c: char)
    requires 'a' <= c <= 'z'
    ensures Parts("C:\\" + [c], HERE.cwd) == ["C:", [c]]
  {
    var s := "C:\\" + [c];
    assert s[..2] == "C:" && s[2..] == "\\" + [c] && HasDrive(s);
    assert ("\\" + [c])[1..] == [c] && [c][1..] == "";
    assert Walk(["C:"], "", "\\" + [c]) == Walk(["C:"], "", [c]) == Walk(["C:"], "" + [c], "");
    assert "" + [c] == [c];
    assert Parts(s, HERE.cwd) == ["C:", [c]];
  }

  lemma SampleIsOrdinary()
    ensures Proper(HERE) && Ordinary(APP)
  {
    assert Plain("C:");
    assert APP.executableName[..1] == "x" && APP.executableName[1..] == "y";
    assert Inert("y");
  }

  lemma SampleFolders()
    ensures DefaultFolder(APP, HERE) == ["C:", "D"] && RootFolder(APP, HERE) == ["C:", "I"]
  {
    FolderParts('d');
    FolderParts('i');
    assert "C:\\d" == "C:\\" + ['d'] && "C:\\i" == "C:\\" + ['i'];
  }

  /** The Default folder of the app lies apart. */
  lemma SampleIsApart()
    ensures Proper(HERE) && DefaultApart(APP, HERE) && !SharesFolder(APP, HERE)
  {
    SampleIsOrdinary();
    SampleFolders();
    DefaultApartExactly(APP, HERE);
    assert "D"[0] != "I"[0];
    assert DefaultFolder(APP, HERE)[1] != RootFolder(APP, HERE)[1];
  }

  /** Default and every number are accepted. */
  lemma SampleAccepted(n: nat)
    ensures Accepted(APP, "Default", HERE)
    ensures Accepted(APP, InstanceName("a", n), HERE) && Fold(InstanceName("a", n)) != Fold("Default")
  {
    SampleIsOrdinary();
    DefaultAccepted(APP, HERE);
    BuiltNameIsValid("a", n, HERE.digit);
    assert Fold(InstanceName("a", n))[0] == 'A' && Fold("Default")[0] == 'D';
    OrdinaryNamesAccepted(APP, InstanceName("a", n), HERE);
  }

  /** An executable of the instances root, named from the Default folder. */
  function Outside(): AppOptions {
    APP.(executableName := "..\\i\\xy")
  }

  lemma JoinedPair()
    ensures Joined(["i", "xy"]) == "i\\xy" && AllPlain(["i", "xy"])
  {
    var q := ["i", "xy"];
    assert q[1..] == ["xy"] && ["xy"][1..] == [];
    assert Slashed([]) == "" && Slashed(["xy"]) == "xy\\";
    assert Slashed(q) == "i\\" + "xy\\";
    assert Plain("i") && Plain("xy");
  }

  lemma DefaultComponents()
    ensures Parts("C:\\d", HERE.cwd) == ["C:", "d"] && Anchored("C:\\d")
  {
    FolderComponents('d');
    assert "C:\\d" == "C:\\" + ['d'];
  }

  lemma DifferentLetters()
    ensures Fold("i") != Fold("d")
  {
    assert Fold("i")[0] == 'I' && Fold("d")[0] == 'D';
  }

  /** It is refused. */
  lemma EscapeRefused()
    ensures LeadsOut(Outside(), "Default", HERE) && !Accepted(Outside(), "Default", HERE)
  {
    SampleIsOrdinary();
    JoinedPair();
    DefaultComponents();
    DifferentLetters();
    OutByNames(Outside(), "Default", HERE, ["i", "xy"]);
  }

  lemma OutByNames(o: AppOptions, name: string, z: Setting, q: seq<string>)
    requires Proper(z) && Anchored(InstancePath(o, name)) && |Parts(InstancePath(o, name), z.cwd)| > 1
    requires q != [] && AllPlain(q) && o.executableName == "..\\" + Joined(q)
    requires Fold(q[0]) != Fold(Parts(InstancePath(o, name), z.cwd)[|Parts(InstancePath(o, name), z.cwd)| - 1])
    ensures LeadsOut(o, name, z) && !Accepted(o, name, z)
  {
    LeadingOutRefused(o, name, z);
  }

  function Made(n: Id, name: string): Step {
    Create(n, ExeOf(APP, name, HERE), HomeOf(APP, name, HERE))
  }

  /** Managers of Default and of the first instance are made, and the first one is polled. */
  function SampleRun(): seq<Step> {
    [Made(0, "Default"), Made(1, InstanceName("a", 1)), Begin(0, Poll)]
  }

  lemma TwoManagers(w: World, s: seq<Step>)
    requires w == World(map[], map[], map[[] := Dir]) && |s| == 3 && s[2] == Begin(0, Poll)
    requires s[0].Create? && s[0].id == 0 && s[1].Create? && s[1].id == 1
    ensures Initial(w) && Legal(w, s)
  {
    var w1 := Apply(w, s[0]);
    var w2 := Apply(w1, s[1]);
    assert s[2..][1..] == [] && s[1..][1..] == s[2..];
    OneStep(w2, s[2..], Apply(w2, s[2]));
    OneStep(w1, s[1..], w2);
    OneStep(w, s, w1);
  }

  /** A run to which the theorem on instances of one app applies. */
  lemma SampleRunWorks(w: World)
    requires w == World(map[], map[], map[[] := Dir])
    ensures Initial(w) && Legal(w, SampleRun()) && Owner(SampleRun()[2]) == Some(0)
    ensures MadeFor(APP, HERE, SampleRun(), 2, 0, "Default")
    ensures MadeFor(APP, HERE, SampleRun(), 2, 1, InstanceName("a", 1))
  {
    SampleAccepted(1);
    TwoManagers(w, SampleRun());
    assert SampleRun()[0] == Made(0, "Default") && SampleRun()[1] == Made(1, InstanceName("a", 1));
  }
}
