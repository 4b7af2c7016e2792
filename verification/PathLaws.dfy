/**
  What path resolution does with each kind of component, in terms of whole paths: names go
  down, ".." goes up but never above the drive, "." stays; a full path resolves to itself;
  and what that means for containment.
 */
module PathLaws {
  import opened Paths

  // ---------------------------------------------------------------- walking on

  lemma {:induction false} WalkMore(at: seq<string>, pending: string, s: string, t: string)
    ensures var (p, q) := WalkTo(at, pending, s);
            Walk(at, pending, s + t) == Walk(p, q, t)
    decreases |s|
  {
    if s == "" {
      assert s + t == t;
    } else {
      assert (s + t)[0] == s[0] && (s + t)[1..] == s[1..] + t;
      if s[0] == SEP {
        WalkMore(Enter(at, pending), "", s[1..], t);
      } else {
        WalkMore(at, pending + [s[0]], s[1..], t);
      }
    }
  }

  /** One component, and what follows it. */
  lemma WalkComponent(at: seq<string>, c: string, rest: string)
    requires SEP !in c
    ensures Walk(at, "", c) == Enter(at, c)
    ensures Walk(at, "", c + [SEP] + rest) == Walk(Enter(at, c), "", rest)
  {
    WalkWithin(at, "", c);
    assert "" + c == c && c + "" == c;
    WalkMore(at, "", c, "");
    WalkMore(at, "", c, [SEP] + rest);
    assert c + [SEP] + rest == c + ([SEP] + rest);
    assert ([SEP] + rest)[1..] == rest;
  }

  /** A final separator makes no difference to the components. */
  lemma FinalSep(at: seq<string>, s: string)
    ensures Walk(at, "", s + [SEP]) == Walk(at, "", s)
  {
    WalkMore(at, "", s, [SEP]);
    WalkEnds(at, "", s);
    var (p, q) := WalkTo(at, "", s);
    assert [SEP][1..] == "";
    assert Walk(p, q, [SEP]) == Walk(Enter(p, q), "", "");
  }

  lemma SlashedFirst(p: seq<string>, s: string)
    requires p != []
    ensures Slashed(p) + s == p[0] + [SEP] + (Slashed(p[1..]) + s)
  {
  }

  /** Plain components are entered one after the other. */
  lemma {:induction false} WalkSlashed(at: seq<string>, p: seq<string>, s: string)
    requires AllPlain(p)
    ensures Walk(at, "", Slashed(p) + s) == Walk(at + p, "", s)
    decreases |p|
  {
    if p == [] {
      assert at + p == at && Slashed(p) + s == s;
    } else {
      SlashedFirst(p, s);
      WalkComponent(at, p[0], Slashed(p[1..]) + s);
      WalkSlashed(at + [p[0]], p[1..], s);
      assert at + [p[0]] + p[1..] == at + p;
    }
  }

  /** Components joined by separators. */
  function Joined(p: seq<string>): string {
    if p == [] then "" else Slashed(p)[..|Slashed(p)| - 1]
  }

  lemma JoinedThenSep(p: seq<string>)
    requires p != []
    ensures Joined(p) + [SEP] == Slashed(p)
  {
    SlashedEnds(p);
  }

  lemma WalkJoined(at: seq<string>, p: seq<string>)
    requires AllPlain(p)
    ensures Walk(at, "", Joined(p)) == at + p
  {
    if p == [] {
      assert at + p == at;
    } else {
      JoinedThenSep(p);
      FinalSep(at, Joined(p));
      WalkSlashed(at, p, "");
      assert Slashed(p) + "" == Slashed(p);
    }
  }

  // ---------------------------------------------------------------- a relative path below a folder

  /** Combining with a relative path goes on from where the folder is. */
  lemma CombineParts(a: string, b: string, cwd: seq<string>)
    requires cwd != [] && Anchored(a) && b != "" && !Rooted(b)
    ensures Parts(Combine(a, b), cwd) == Walk(Parts(a, cwd), "", b)
  {
    var (at, rest) := Origin(a, cwd);
    WalkEnds(at, "", rest);
    if EndsWithSep(a) {
      SameOrigin(a, b, cwd);
      WalkMore(at, "", rest, b);
    } else {
      assert a + [SEP] + b == a + ([SEP] + b) && ([SEP] + b)[1..] == b;
      SameOrigin(a, [SEP] + b, cwd);
      WalkMore(at, "", rest, [SEP] + b);
    }
  }

  /** A path with a drive or from the root of one stands for itself, wherever it is combined. */
  lemma RootedStands(a: string, d: char, t: string)
    requires 'a' <= d <= 'z' || 'A' <= d <= 'Z'
    ensures Combine(a, [d] + ":" + t) == [d] + ":" + t
    ensures Combine(a, "\\" + t) == "\\" + t
  {
    var x := [d] + ":" + t;
    assert x[0] == d && x[1] == ':';
    assert HasDrive(x);
  }

  /** The folder above, or the drive itself. */
  function Above(p: seq<string>): seq<string>
    requires p != []
  {
    if |p| == 1 then p else p[..|p| - 1]
  }

  /** ".." goes up one component, but never above the drive; what follows it goes on from there. */
  lemma ParentParts(x: string, s: string, cwd: seq<string>)
    requires FullParts(cwd) && Anchored(x)
    ensures Parts(x, cwd) != []
    ensures Parts(Combine(x, ".."), cwd) == Above(Parts(x, cwd))
    ensures Parts(Combine(x, "..\\" + s), cwd) == Walk(Above(Parts(x, cwd)), "", s)
  {
    PartsArePlain(x, cwd);
    assert !Rooted("..") && !Rooted("..\\" + s) && "..\\" + s == ".." + [SEP] + s;
    CombineParts(x, "..", cwd);
    CombineParts(x, "..\\" + s, cwd);
    WalkComponent(Parts(x, cwd), "..", s);
  }

  /** So it is as good as a path through the folder above. */
  lemma ThroughParent(x: string, y: string, s: string, cwd: seq<string>)
    requires FullParts(cwd) && Anchored(x) && Anchored(y) && s != "" && !Rooted(s)
    requires Parts(y, cwd) == Parts(Combine(x, ".."), cwd)
    ensures Parts(Combine(x, "..\\" + s), cwd) == Parts(Combine(y, s), cwd)
  {
    ParentParts(x, s, cwd);
    CombineParts(y, s, cwd);
  }

  /** "." stays. */
  lemma HereParts(x: string, s: string, cwd: seq<string>)
    requires cwd != [] && Anchored(x)
    ensures Parts(Combine(x, "."), cwd) == Parts(x, cwd)
    ensures Parts(Combine(x, ".\\" + s), cwd) == Walk(Parts(x, cwd), "", s)
  {
    assert ".\\" + s == "." + [SEP] + s;
    CombineParts(x, ".", cwd);
    CombineParts(x, ".\\" + s, cwd);
    WalkComponent(Parts(x, cwd), ".", s);
  }

  /** Names go down. */
  lemma NamesParts(x: string, p: seq<string>, cwd: seq<string>)
    requires cwd != [] && Anchored(x) && p != [] && AllPlain(p) && !Rooted(Joined(p))
    ensures Parts(Combine(x, Joined(p)), cwd) == Parts(x, cwd) + p
  {
    JoinedThenSep(p);
    assert Joined(p) != "" by {
      SlashedEnds(p);
    }
    CombineParts(x, Joined(p), cwd);
    WalkJoined(Parts(x, cwd), p);
  }

  // ---------------------------------------------------------------- full paths

  predicate IsDrive(d: string) {
    |d| == 2 && HasDrive(d)
  }

  lemma {:induction false} FirstStays(at: seq<string>, pending: string, s: string)
    requires at != []
    ensures Walk(at, pending, s) != [] && Walk(at, pending, s)[0] == at[0]
    decreases |s|
  {
    if s != "" {
      if s[0] == SEP {
        FirstStays(Enter(at, pending), "", s[1..]);
      } else {
        FirstStays(at, pending + [s[0]], s[1..]);
      }
    }
  }

  lemma StartsWithDrive(s: string, cwd: seq<string>)
    requires cwd != [] && IsDrive(cwd[0])
    ensures Parts(s, cwd) != [] && IsDrive(Parts(s, cwd)[0])
  {
    var (at, rest) := Origin(s, cwd);
    FirstStays(at, "", rest);
  }

  /** A drive, its components and more: the walk starts at the components. */
  lemma FromDrive(p: seq<string>, s: string, cwd: seq<string>)
    requires cwd != [] && FullParts(p) && IsDrive(p[0])
    ensures Parts(Slashed(p) + s, cwd) == Walk(p, "", s)
  {
    var d, x := p[0], Slashed(p) + s;
    assert x == d + [SEP] + (Slashed(p[1..]) + s);
    assert x[..2] == d && x[2] == SEP && x[2..] == [SEP] + (Slashed(p[1..]) + s);
    assert HasDrive(x);
    assert ([SEP] + (Slashed(p[1..]) + s))[1..] == Slashed(p[1..]) + s;
    WalkSlashed([d], p[1..], s);
    assert [d] + p[1..] == p;
  }

  /** A full path resolves to itself. */
  lemma FullPathTwice(s: string, cwd: seq<string>)
    requires FullParts(cwd) && IsDrive(cwd[0])
    ensures Parts(GetFullPath(s, cwd), cwd) == Parts(s, cwd)
  {
    var p := Parts(s, cwd);
    PartsArePlain(s, cwd);
    StartsWithDrive(s, cwd);
    FromDrive(p, "", cwd);
    assert Slashed(p) + "" == Slashed(p);
    SlashedEnds(p);
    var bare := Slashed(p)[..|Slashed(p)| - 1];
    if |p| > 1 {
      BareFullPath(p, cwd);
    }
  }

  lemma BareFullPath(p: seq<string>, cwd: seq<string>)
    requires cwd != [] && FullParts(p) && IsDrive(p[0]) && |p| > 1
    ensures Parts(Joined(p), cwd) == p
  {
    var init, last := p[..|p| - 1], p[|p| - 1];
    assert p == init + [last];
    SlashedConcat(init, [last]);
    assert [last][1..] == [] && Slashed([last]) == last + [SEP];
    assert Slashed(p) == Slashed(init) + (last + [SEP]);
    assert Joined(p) == Slashed(init) + last;
    FromDrive(init, last, cwd);
    assert Plain(last);
    WalkComponent(init, last, "");
  }

  /** A relative path resolves as if it were appended to the current directory. */
  lemma RelativeToCurrent(s: string, cwd: seq<string>)
    requires FullParts(cwd) && IsDrive(cwd[0]) && !Rooted(s)
    ensures Parts(s, cwd) == Parts(Slashed(cwd) + s, cwd)
  {
    FromDrive(cwd, s, cwd);
  }

  /** A path from the root resolves as if it had the current drive. */
  lemma RootOfDrive(s: string, cwd: seq<string>)
    requires FullParts(cwd) && IsDrive(cwd[0])
    ensures Parts([SEP] + s, cwd) == Parts(cwd[0] + [SEP] + s, cwd)
  {
    var x := cwd[0] + [SEP] + s;
    assert x[..2] == cwd[0] && x[2] == SEP && x[2..] == [SEP] + s && HasDrive(x);
    assert ([SEP] + s)[1..] == s && ([SEP] + s)[0] == SEP;
  }

  /**
    A drive without a separator after it means the current directory if it is the current
    drive, in whatever letter case, and its root otherwise.
   */
  lemma DriveRelative(d: string, s: string, cwd: seq<string>)
    requires FullParts(cwd) && IsDrive(cwd[0]) && IsDrive(d) && (s == "" || s[0] != SEP)
    ensures Fold(d) == Fold(cwd[0]) ==> Parts(d + s, cwd) == Parts(Slashed(cwd) + s, cwd)
    ensures Fold(d) != Fold(cwd[0]) ==> Parts(d + s, cwd) == Parts(d + [SEP] + s, cwd)
  {
    var x, y := d + s, d + [SEP] + s;
    assert x[..2] == d && x[2..] == s && HasDrive(x);
    assert s != "" ==> x[2] == s[0];
    assert y[..2] == d && y[2] == SEP && y[2..] == [SEP] + s && HasDrive(y);
    assert ([SEP] + s)[1..] == s;
    FromDrive(cwd, s, cwd);
  }

  // ---------------------------------------------------------------- leading out

  /** A path through the folder above is contained only if it comes back. */
  lemma LeadingOut(root: string, s: string, cwd: seq<string>)
    requires FullParts(cwd) && Anchored(root)
    ensures Parts(root, cwd) != []
    ensures !(FoldAll(Parts(root, cwd)) <= FoldAll(Walk(Above(Parts(root, cwd)), "", s))) ==>
              !IsContained(Combine(root, "..\\" + s), root, cwd)
  {
    ParentParts(root, s, cwd);
    ContainedExactly(Combine(root, "..\\" + s), root, cwd);
  }

  /**
    Exactly when a path that goes up once and then down by names is contained in the folder
    it starts from: its first name is the folder's own, and it goes further than that.
   */
  lemma BackDownExactly(root: string, q: seq<string>, cwd: seq<string>)
    requires FullParts(cwd) && Anchored(root) && |Parts(root, cwd)| > 1 && q != [] && AllPlain(q)
    ensures IsContained(Combine(root, "..\\" + Joined(q)), root, cwd) <==>
            Fold(q[0]) == Fold(Parts(root, cwd)[|Parts(root, cwd)| - 1]) && |q| > 1
  {
    var p, x := Parts(root, cwd), Combine(root, "..\\" + Joined(q));
    ParentParts(root, Joined(q), cwd);
    WalkJoined(Above(p), q);
    assert Parts(x, cwd) == p[..|p| - 1] + q;
    ContainedExactly(x, root, cwd);
    NotTerminated(root, q, cwd);
    SamePrefix(p, q);
  }

  lemma NotTerminated(root: string, q: seq<string>, cwd: seq<string>)
    requires FullParts(cwd) && Anchored(root) && |Parts(root, cwd)| > 1 && q != [] && AllPlain(q)
    requires Parts(Combine(root, "..\\" + Joined(q)), cwd) == Parts(root, cwd)[..|Parts(root, cwd)| - 1] + q
    ensures !Terminated(Combine(root, "..\\" + Joined(q)), cwd)
  {
    JoinedEnds(q);
    UnendedBelow(root, "..\\" + Joined(q));
  }

  lemma JoinedEnds(q: seq<string>)
    requires q != [] && AllPlain(q)
    ensures Joined(q) != "" && !EndsWithSep(Joined(q))
    ensures !EndsWithSep("..\\" + Joined(q)) && !Rooted("..\\" + Joined(q))
  {
    SlashedEnds(q);
    assert Joined(q)[|Joined(q)| - 1] == Slashed(q)[|Slashed(q)| - 2];
    var up := "..\\" + Joined(q);
    assert up[|up| - 1] == Joined(q)[|Joined(q)| - 1];
  }

  lemma UnendedBelow(a: string, b: string)
    requires b != "" && !EndsWithSep(b)
    ensures !EndsWithSep(Combine(a, b))
  {
    assert Combine(a, b)[|Combine(a, b)| - 1] == b[|b| - 1];
  }

  lemma SamePrefix(p: seq<string>, q: seq<string>)
    requires |p| > 1 && q != []
    ensures FoldAll(p) <= FoldAll(p[..|p| - 1] + q) <==> Fold(q[0]) == Fold(p[|p| - 1])
    ensures FoldAll(p) == FoldAll(p[..|p| - 1] + q) ==> |q| == 1
    ensures FoldAll(p) <= FoldAll(p[..|p| - 1] + q) && |q| == 1 ==> FoldAll(p) == FoldAll(p[..|p| - 1] + q)
  {
    var n, c := |p| - 1, p[..|p| - 1] + q;
    assert forall i | 0 <= i < n :: FoldAll(c)[i] == Fold(p[i]) == FoldAll(p)[i];
    assert FoldAll(c)[n] == Fold(q[0]) && FoldAll(p)[n] == Fold(p[n]);
  }
}
