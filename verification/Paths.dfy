/**
  Windows paths as far as the agent relies on them: Path.GetFullPath, Path.Combine and
  InstanceManagerService.IsContained. A full path is a drive followed by components;
  "." and empty components vanish, ".." removes its predecessor but never the drive.
  Letter case is folded for the ASCII letters.
 */
module Paths {

  const SEP := '\\'

  // ---------------------------------------------------------------- case folding

  function FoldChar(c: char): char {
    if 'a' <= c <= 'z' then 'A' + (c - 'a') else c
  }

  function Fold(s: string): (f: string)
    ensures |f| == |s|
    ensures forall i | 0 <= i < |s| :: f[i] == FoldChar(s[i])
  {
    seq(|s|, i requires 0 <= i < |s| => FoldChar(s[i]))
  }

  function FoldAll(parts: seq<string>): (f: seq<string>)
    ensures |f| == |parts|
    ensures forall i | 0 <= i < |parts| :: f[i] == Fold(parts[i])
  {
    seq(|parts|, i requires 0 <= i < |parts| => Fold(parts[i]))
  }

  lemma FoldConcat(s: string, t: string)
    ensures Fold(s + t) == Fold(s) + Fold(t)
  {
  }

  /** Two characters fold to the same one exactly when they are equal or one ASCII letter in both cases. */
  lemma FoldExactly(c: char, d: char)
    ensures FoldChar(c) == FoldChar(d) <==>
            c == d ||
            ('a' <= c <= 'z' && c as int - d as int == 32) ||
            ('a' <= d <= 'z' && d as int - c as int == 32)
  {
    assert FoldChar(c) as int == if 'a' <= c <= 'z' then c as int - 32 else c as int;
    assert FoldChar(d) as int == if 'a' <= d <= 'z' then d as int - 32 else d as int;
  }

  // ---------------------------------------------------------------- components

  /** A component as a full path has it. */
  predicate Plain(part: string) {
    part != "" && part != "." && part != ".." && SEP !in part
  }

  predicate AllPlain(parts: seq<string>) {
    forall i | 0 <= i < |parts| :: Plain(parts[i])
  }

  /** The components that the characters after `pending` contribute to a path that stands at `at`. */
  function Walk(at: seq<string>, pending: string, s: string): seq<string>
    decreases |s|
  {
    if s == "" then Enter(at, pending)
    else if s[0] == SEP then Walk(Enter(at, pending), "", s[1..])
    else Walk(at, pending + [s[0]], s[1..])
  }

  function Enter(at: seq<string>, part: string): seq<string> {
    if part == "" || part == "." then at
    else if part == ".." then (if |at| > 1 then at[..|at| - 1] else at)
    else at + [part]
  }

  predicate HasDrive(s: string) {
    |s| >= 2 && s[1] == ':' && 'A' <= FoldChar(s[0]) <= 'Z'
  }

  /** Where a path string starts: a drive, the root of the current drive, or the current directory. */
  function Origin(s: string, cwd: seq<string>): (seq<string>, string)
    requires cwd != []
  {
    if HasDrive(s) then
      (if (|s| >= 3 && s[2] == SEP) || Fold(s[..2]) != Fold(cwd[0]) then [s[..2]] else cwd, s[2..])
    else if |s| >= 1 && s[0] == SEP then ([cwd[0]], s[1..])
    else (cwd, s)
  }

  /** The components of Path.GetFullPath(s). */
  function Parts(s: string, cwd: seq<string>): seq<string>
    requires cwd != []
  {
    Walk(Origin(s, cwd).0, "", Origin(s, cwd).1)
  }

  predicate EndsWithSep(s: string) {
    s != "" && s[|s| - 1] == SEP
  }

  /** Components, each followed by a separator. */
  function Slashed(parts: seq<string>): string {
    if parts == [] then "" else parts[0] + [SEP] + Slashed(parts[1..])
  }

  /** Path.GetFullPath: a trailing separator of the input stays, and a bare drive has one. */
  function GetFullPath(s: string, cwd: seq<string>): string
    requires cwd != []
  {
    var all := Slashed(Parts(s, cwd));
    if EndsWithSep(s) || |Parts(s, cwd)| == 1 || all == "" then all else all[..|all| - 1]
  }

  function TrimEnd(s: string): string {
    if EndsWithSep(s) then TrimEnd(s[..|s| - 1]) else s
  }

  /** Path.IsPathRooted, for the backslash as the only separator. */
  predicate Rooted(s: string) {
    (|s| >= 1 && s[0] == SEP) || HasDrive(s)
  }

  /** Path.Combine. */
  function Combine(a: string, b: string): string {
    if b == "" then a else if a == "" || Rooted(b) then b
    else if EndsWithSep(a) then a + b else a + [SEP] + b
  }

  /** The code: a case-insensitive prefix test on normalised strings. */
  predicate IsContained(candidate: string, root: string, cwd: seq<string>)
    requires cwd != []
  {
    var rootFull := TrimEnd(GetFullPath(root, cwd)) + [SEP];
    var targetFull := GetFullPath(candidate, cwd);
    Fold(rootFull) <= Fold(targetFull)
  }

  // ---------------------------------------------------------------- facts about components

  /** A drive first, then plain components. */
  predicate FullParts(parts: seq<string>) {
    parts != [] && AllPlain(parts)
  }

  lemma {:induction false} WalkIsPlain(at: seq<string>, pending: string, s: string)
    requires FullParts(at) && SEP !in pending
    ensures FullParts(Walk(at, pending, s))
    decreases |s|
  {
    if s == "" {
    } else if s[0] == SEP {
      WalkIsPlain(Enter(at, pending), "", s[1..]);
    } else {
      WalkIsPlain(at, pending + [s[0]], s[1..]);
    }
  }

  lemma PartsArePlain(s: string, cwd: seq<string>)
    requires FullParts(cwd)
    ensures FullParts(Parts(s, cwd))
  {
    var (at, rest) := Origin(s, cwd);
    if HasDrive(s) {
      assert SEP !in s[..2];
    }
    WalkIsPlain(at, "", rest);
  }

  /** Where a walk stands after the characters of s: the components so far and the one begun. */
  function WalkTo(at: seq<string>, pending: string, s: string): (seq<string>, string)
    decreases |s|
  {
    if s == "" then (at, pending)
    else if s[0] == SEP then WalkTo(Enter(at, pending), "", s[1..])
    else WalkTo(at, pending + [s[0]], s[1..])
  }

  /** Characters that neither separate nor make "." or "..". */
  predicate Inert(t: string) {
    t != "" && forall c | c in t :: c != SEP && c != '.' && c != ':'
  }

  lemma {:induction false} WalkInert(at: seq<string>, pending: string, s: string, t: string)
    requires Inert(t)
    ensures Walk(at, pending, s + t) == WalkTo(at, pending, s).0 + [WalkTo(at, pending, s).1 + t]
    decreases |s|
  {
    if s == "" {
      assert s + t == t && t[|t| - 1] in t;
      WalkOneComponent(at, pending, t);
    } else {
      assert (s + t)[0] == s[0] && (s + t)[1..] == s[1..] + t;
      if s[0] == SEP {
        WalkInert(Enter(at, pending), "", s[1..], t);
      } else {
        WalkInert(at, pending + [s[0]], s[1..], t);
      }
    }
  }

  lemma {:induction false} WalkOneComponent(at: seq<string>, pending: string, t: string)
    requires SEP !in t
    requires t == "" ==> pending != "" && pending != "." && pending != ".."
    requires t != "" ==> t[|t| - 1] != '.'
    ensures Walk(at, pending, t) == at + [pending + t]
    decreases |t|
  {
    if t == "" {
      assert pending + t == pending;
    } else {
      assert pending + t == pending + [t[0]] + t[1..];
      var more := pending + [t[0]];
      assert more[|more| - 1] == t[0];
      WalkOneComponent(at, more, t[1..]);
    }
  }

  /**
    A path that ends in inert characters has them at the end of its last component; what
    stands before depends on the rest of the string only.
   */
  lemma PartsOfInert(x: string, t: string, cwd: seq<string>)
    requires x != "" && Inert(t) && cwd != []
    ensures var (at, rest) := Origin(x, cwd);
            Parts(x + t, cwd) == WalkTo(at, "", rest).0 + [WalkTo(at, "", rest).1 + t]
  {
    var (at, rest) := Origin(x, cwd);
    assert |x| >= 2 ==> (x + t)[..2] == x[..2];
    assert HasDrive(x + t) == HasDrive(x) by {
      if |x| == 1 {
        assert (x + t)[1] == t[0] && t[0] in t;
      }
    }
    assert |x| == 2 ==> (x + t)[2] == t[0] && t[0] in t;
    assert |x| >= 2 ==> (x + t)[2..] == x[2..] + t;
    assert (x + t)[1..] == x[1..] + t;
    assert Origin(x + t, cwd) == (at, rest + t);
    WalkInert(at, "", rest, t);
  }

  /** Where the path x stands at its end, up to case. */
  function FoldedStem(x: string, cwd: seq<string>): (seq<string>, string)
    requires cwd != []
  {
    var (at, rest) := Origin(x, cwd);
    var (dir, begun) := WalkTo(at, "", rest);
    (FoldAll(dir), Fold(begun))
  }

  lemma FoldedPartsOfInert(x: string, t: string, cwd: seq<string>)
    requires x != "" && Inert(t) && Fold(t) == t && cwd != []
    ensures var (dir, begun) := FoldedStem(x, cwd);
            FoldAll(Parts(x + t, cwd)) == dir + [begun + t]
  {
    PartsOfInert(x, t, cwd);
    var (at, rest) := Origin(x, cwd);
    var (dir, begun) := WalkTo(at, "", rest);
    FoldConcat(begun, t);
    assert FoldAll(dir + [begun + t]) == FoldAll(dir) + [Fold(begun + t)];
  }

  lemma {:induction false} WalkThrough(at: seq<string>, pending: string, s: string, t: string)
    ensures WalkTo(at, pending, s + t) == WalkTo(WalkTo(at, pending, s).0, WalkTo(at, pending, s).1, t)
    decreases |s|
  {
    if s == "" {
      assert s + t == t;
    } else {
      assert (s + t)[0] == s[0] && (s + t)[1..] == s[1..] + t;
      if s[0] == SEP {
        WalkThrough(Enter(at, pending), "", s[1..], t);
      } else {
        WalkThrough(at, pending + [s[0]], s[1..], t);
      }
    }
  }

  lemma {:induction false} WalkWithin(at: seq<string>, pending: string, t: string)
    requires SEP !in t
    ensures WalkTo(at, pending, t) == (at, pending + t)
    decreases |t|
  {
    if t == "" {
      assert pending + t == pending;
    } else {
      assert pending + t == pending + [t[0]] + t[1..];
      WalkWithin(at, pending + [t[0]], t[1..]);
    }
  }

  lemma {:induction false} WalkEnds(at: seq<string>, pending: string, s: string)
    ensures Walk(at, pending, s) == Enter(WalkTo(at, pending, s).0, WalkTo(at, pending, s).1)
    ensures EndsWithSep(s) ==> WalkTo(at, pending, s).1 == ""
    decreases |s|
  {
    if s != "" {
      if s[0] == SEP {
        WalkEnds(Enter(at, pending), "", s[1..]);
      } else {
        WalkEnds(at, pending + [s[0]], s[1..]);
      }
    }
  }

  /** A path whose resolution does not depend on what is appended: not empty, and more than a drive. */
  predicate Anchored(s: string) {
    s != "" && !(HasDrive(s) && |s| == 2)
  }

  /** Appending below an anchored path leaves its origin alone. */
  lemma SameOrigin(root: string, more: string, cwd: seq<string>)
    requires cwd != [] && Anchored(root) && (EndsWithSep(root) || (more != "" && more[0] == SEP))
    ensures var (at, rest) := Origin(root, cwd);
            Origin(root + more, cwd) == (at, rest + more)
    ensures var (at, rest) := Origin(root, cwd);
            WalkTo(at, "", rest).1 == "" || !EndsWithSep(root)
  {
    var x := root + more;
    var (at, rest) := Origin(root, cwd);
    assert x[0] == root[0];
    if |root| >= 2 {
      assert x[1] == root[1] && x[..2] == root[..2];
    } else if !EndsWithSep(root) {
      assert x[1] == SEP;
    }
    assert HasDrive(x) == HasDrive(root);
    if HasDrive(root) {
      assert x[2] == root[2] && x[2..] == root[2..] + more;
    } else if root[0] == SEP {
      assert x[1..] == root[1..] + more;
    }
    WalkEnds(at, "", rest);
  }

  /** A simple name below an anchored folder is one more component. */
  lemma ChildParts(root: string, stem: string, t: string, cwd: seq<string>)
    requires cwd != [] && Anchored(root) && SEP !in stem && stem != "" && Inert(t) && !Rooted(stem + t)
    ensures Parts(Combine(root, stem + t), cwd) == Parts(root, cwd) + [stem + t]
  {
    var between := if EndsWithSep(root) then "" else [SEP];
    CombineBelow(root, stem, t);
    PartsOfInert(root + (between + stem), t, cwd);
    SameOrigin(root, between + stem, cwd);
    BelowWalk(Origin(root, cwd).0, Origin(root, cwd).1, between, stem);
  }

  lemma CombineBelow(root: string, stem: string, t: string)
    requires root != "" && stem != "" && !Rooted(stem + t)
    ensures Combine(root, stem + t) == root + ((if EndsWithSep(root) then "" else [SEP]) + stem) + t
  {
    assert "" + stem == stem;
    if EndsWithSep(root) {
      assert root + (stem + t) == root + stem + t;
    } else {
      assert root + [SEP] + (stem + t) == root + ([SEP] + stem) + t;
    }
  }

  lemma BelowWalk(at: seq<string>, rest: string, between: string, stem: string)
    requires SEP !in stem && (between == [SEP] || (between == "" && WalkTo(at, "", rest).1 == ""))
    ensures WalkTo(at, "", rest + (between + stem)) == (Walk(at, "", rest), stem)
  {
    WalkThrough(at, "", rest, between + stem);
    WalkEnds(at, "", rest);
    var (a, q) := WalkTo(at, "", rest);
    assert "" + stem == stem;
    if between == "" {
      assert between + stem == stem;
      WalkWithin(a, q, stem);
    } else {
      assert (between + stem)[0] == SEP && (between + stem)[1..] == stem;
      WalkWithin(Enter(a, q), "", stem);
    }
  }

  // ---------------------------------------------------------------- strings against components

  lemma {:induction false} SlashedConcat(p: seq<string>, q: seq<string>)
    ensures Slashed(p + q) == Slashed(p) + Slashed(q)
    decreases |p|
  {
    if p == [] {
      assert p + q == q;
    } else {
      assert (p + q)[1..] == p[1..] + q;
      SlashedConcat(p[1..], q);
    }
  }

  predicate NoSep(parts: seq<string>) {
    forall i | 0 <= i < |parts| :: SEP !in parts[i]
  }

  lemma FirstSep(a: string, s: string, b: string, t: string)
    requires SEP !in a && SEP !in b && a + [SEP] + s <= b + [SEP] + t
    ensures a == b && s <= t
  {
    var l, r := a + [SEP] + s, b + [SEP] + t;
    assert l[|a|] == SEP && r[|b|] == SEP;
    assert |a| == |b|;
    assert forall i | 0 <= i < |a| :: l[i] == a[i] && r[i] == b[i];
    assert l[|a| + 1..] == s && r[|b| + 1..] == t;
    assert forall i | 0 <= i < |s| :: s[i] == l[|a| + 1 + i] && t[i] == r[|a| + 1 + i];
  }

  /** On separator-terminated strings the prefix test is the prefix relation of components. */
  lemma {:induction false} SlashedPrefix(p: seq<string>, q: seq<string>)
    requires NoSep(p) && NoSep(q)
    ensures Slashed(p) <= Slashed(q) <==> p <= q
    decreases |p|
  {
    if p != [] {
      if q == [] {
        assert Slashed(p) != "";
      } else {
        assert p == [p[0]] + p[1..] && q == [q[0]] + q[1..];
        SlashedPrefix(p[1..], q[1..]);
        if Slashed(p) <= Slashed(q) {
          FirstSep(p[0], Slashed(p[1..]), q[0], Slashed(q[1..]));
        }
      }
    }
  }

  lemma {:induction false} FoldSlashed(p: seq<string>)
    ensures Fold(Slashed(p)) == Slashed(FoldAll(p))
    decreases |p|
  {
    if p != [] {
      FoldSlashed(p[1..]);
      assert FoldAll(p)[1..] == FoldAll(p[1..]);
      FoldConcat(p[0] + [SEP], Slashed(p[1..]));
      FoldConcat(p[0], [SEP]);
      assert Fold([SEP]) == [SEP];
    }
  }

  lemma FoldNoSep(p: seq<string>)
    requires NoSep(p)
    ensures NoSep(FoldAll(p))
  {
  }

  /** Fold(GetFullPath(s)) is either all components separator-terminated, or the same less the last separator. */
  predicate Terminated(s: string, cwd: seq<string>)
    requires cwd != []
  {
    EndsWithSep(s) || |Parts(s, cwd)| == 1
  }

  lemma SlashedEnds(p: seq<string>)
    requires p != []
    ensures Slashed(p) != "" && Slashed(p)[|Slashed(p)| - 1] == SEP
    ensures AllPlain(p) ==> |Slashed(p)| >= 2 && Slashed(p)[|Slashed(p)| - 2] != SEP
  {
    var init, last := p[..|p| - 1], p[|p| - 1];
    assert p == init + [last];
    SlashedConcat(init, [last]);
    assert [last][1..] == [];
    assert Slashed([last]) == last + [SEP];
    if AllPlain(p) {
      assert Plain(last);
    }
  }

  lemma TrimmedFullPath(s: string, cwd: seq<string>)
    requires FullParts(cwd)
    ensures TrimEnd(GetFullPath(s, cwd)) + [SEP] == Slashed(Parts(s, cwd))
  {
    PartsArePlain(s, cwd);
    var all := Slashed(Parts(s, cwd));
    SlashedEnds(Parts(s, cwd));
    var bare := all[..|all| - 1];
    assert all == bare + [SEP];
    assert TrimEnd(bare) == bare;
    assert TrimEnd(all) == TrimEnd(bare);
  }

  lemma FoldFullPath(s: string, cwd: seq<string>)
    requires FullParts(cwd)
    ensures var p := FoldAll(Parts(s, cwd));
            NoSep(p) && Slashed(p) != "" &&
            Fold(GetFullPath(s, cwd)) == if Terminated(s, cwd) then Slashed(p) else Slashed(p)[..|Slashed(p)| - 1]
  {
    PartsArePlain(s, cwd);
    var p := Parts(s, cwd);
    FoldSlashed(p);
    FoldNoSep(p);
    SlashedEnds(p);
    assert Fold(Slashed(p)[..|Slashed(p)| - 1]) == Fold(Slashed(p))[..|Slashed(p)| - 1];
  }

  lemma FoldTrimmed(s: string, cwd: seq<string>)
    requires FullParts(cwd)
    ensures Fold(TrimEnd(GetFullPath(s, cwd)) + [SEP]) == Slashed(FoldAll(Parts(s, cwd)))
  {
    TrimmedFullPath(s, cwd);
    FoldSlashed(Parts(s, cwd));
  }

  /**
    The string test against the components: the candidate's components properly extend the
    root's, or are the root's own and the candidate is spelled with a final separator.
   */
  lemma ContainedExactly(candidate: string, root: string, cwd: seq<string>)
    requires FullParts(cwd)
    ensures var c, r := FoldAll(Parts(candidate, cwd)), FoldAll(Parts(root, cwd));
            IsContained(candidate, root, cwd) <==> r <= c && (r != c || Terminated(candidate, cwd))
  {
    var c, r := FoldAll(Parts(candidate, cwd)), FoldAll(Parts(root, cwd));
    FoldTrimmed(root, cwd);
    FoldFullPath(root, cwd);
    FoldFullPath(candidate, cwd);
    SlashedPrefix(r, c);
    SlashedPrefix(c, r);
    ShorterByOne(Slashed(r), Slashed(c));
  }

  /** A simple name below an anchored folder, up to case; the path has no final separator. */
  lemma ChildFolded(root: string, stem: string, t: string, cwd: seq<string>)
    requires FullParts(cwd) && Anchored(root) && SEP !in stem && stem != "" && Inert(t) && !Rooted(stem + t)
    ensures FoldAll(Parts(Combine(root, stem + t), cwd)) == FoldAll(Parts(root, cwd)) + [Fold(stem + t)]
    ensures !Terminated(Combine(root, stem + t), cwd)
  {
    ChildParts(root, stem, t, cwd);
    PartsArePlain(root, cwd);
    CombineBelow(root, stem, t);
    InertEnds(root + ((if EndsWithSep(root) then "" else [SEP]) + stem), t);
    assert FoldAll(Parts(root, cwd) + [stem + t]) == FoldAll(Parts(root, cwd)) + [Fold(stem + t)];
  }

  lemma InertEnds(s: string, t: string)
    requires Inert(t)
    ensures !EndsWithSep(s + t)
  {
    assert (s + t)[|s + t| - 1] == t[|t| - 1] && t[|t| - 1] in t;
  }

  /** Equal full paths, up to case, have equal components, up to case. */
  lemma FullPathDetermines(s: string, t: string, cwd: seq<string>)
    requires FullParts(cwd) && Fold(GetFullPath(s, cwd)) == Fold(GetFullPath(t, cwd))
    ensures FoldAll(Parts(s, cwd)) == FoldAll(Parts(t, cwd))
  {
    FoldedSpelling(s, cwd);
    FoldedSpelling(t, cwd);
    SameUpToEnd(Slashed(FoldAll(Parts(s, cwd))), Slashed(FoldAll(Parts(t, cwd))), Terminated(s, cwd), Terminated(t, cwd));
    SlashedInjective(FoldAll(Parts(s, cwd)), FoldAll(Parts(t, cwd)));
  }

  /** A string less its final separator unless that one is kept. */
  function Spelled(f: string, keep: bool): string {
    if keep || f == "" then f else f[..|f| - 1]
  }

  lemma FoldedSpelling(s: string, cwd: seq<string>)
    requires FullParts(cwd)
    ensures var p := FoldAll(Parts(s, cwd));
            NoSep(p) && OneSepAtEnd(Slashed(p)) && Fold(GetFullPath(s, cwd)) == Spelled(Slashed(p), Terminated(s, cwd))
  {
    PartsArePlain(s, cwd);
    FoldFullPath(s, cwd);
    FoldEnds(Parts(s, cwd));
  }

  lemma SlashedInjective(p: seq<string>, q: seq<string>)
    requires NoSep(p) && NoSep(q) && Slashed(p) == Slashed(q)
    ensures p == q
  {
    SlashedPrefix(p, q);
    SlashedPrefix(q, p);
  }

  /** Paths without a final separator are equal exactly when their components are, up to case. */
  lemma SamePath(s: string, t: string, cwd: seq<string>)
    requires FullParts(cwd) && !Terminated(s, cwd) && !Terminated(t, cwd)
    ensures Fold(GetFullPath(s, cwd)) == Fold(GetFullPath(t, cwd)) <==> FoldAll(Parts(s, cwd)) == FoldAll(Parts(t, cwd))
  {
    if Fold(GetFullPath(s, cwd)) == Fold(GetFullPath(t, cwd)) {
      FullPathDetermines(s, t, cwd);
    } else {
      FoldFullPath(s, cwd);
      FoldFullPath(t, cwd);
    }
  }

  predicate OneSepAtEnd(f: string) {
    |f| >= 2 && f[|f| - 1] == SEP && f[|f| - 2] != SEP
  }

  lemma SameUpToEnd(f: string, g: string, keepF: bool, keepG: bool)
    requires OneSepAtEnd(f) && OneSepAtEnd(g)
    requires Spelled(f, keepF) == Spelled(g, keepG)
    ensures f == g
  {
    assert f == f[..|f| - 1] + [SEP] && g == g[..|g| - 1] + [SEP];
  }

  lemma FoldEnds(p: seq<string>)
    requires FullParts(p)
    ensures OneSepAtEnd(Slashed(FoldAll(p)))
  {
    FoldSlashed(p);
    SlashedEnds(p);
  }

  /** Containment composes: what lies in a folder lies in every folder around it. */
  lemma ContainedTransitive(candidate: string, middle: string, root: string, cwd: seq<string>)
    requires FullParts(cwd) && IsContained(candidate, middle, cwd) && IsContained(middle, root, cwd)
    ensures IsContained(candidate, root, cwd)
  {
    ContainedExactly(candidate, middle, cwd);
    ContainedExactly(middle, root, cwd);
    ContainedExactly(candidate, root, cwd);
  }

  /** A separator-terminated string is a prefix of another less its last character iff it is a proper prefix. */
  lemma ShorterByOne(s: string, t: string)
    requires t != ""
    ensures s <= t[..|t| - 1] <==> s <= t && s != t
  {
  }
}
