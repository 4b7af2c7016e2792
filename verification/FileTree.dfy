/**
  A file system as a tree of paths, and the recursive directory copy of
  InstanceManagerService. A path is its sequence of components, up to letter case.
 */
module FileTree {

  type Path = seq<string>
  datatype Node = Dir | File(data: seq<int>)
  type Tree = map<Path, Node>

  predicate IsDir(m: Tree, p: Path) {
    p in m && m[p] == Dir
  }

  predicate IsFile(m: Tree, p: Path) {
    p in m && m[p].File?
  }

  /** Every node of m is in n, the same. */
  predicate Keeps(m: Tree, n: Tree) {
    forall q | q in m :: q in n && n[q] == m[q]
  }

  /** What is not at or below `root` is still there. */
  predicate KeepsOutside(m: Tree, n: Tree, root: Path) {
    forall q | q in m && !(root <= q) :: q in n
  }

  /** Every proper prefix of a node's path is a directory. */
  predicate WellFormed(m: Tree) {
    IsDir(m, []) && forall p, i | p in m && 0 <= i < |p| :: IsDir(m, p[..i])
  }

  /** Directory.CreateDirectory: the directory and whatever is missing above it. */
  function WithDir(m: Tree, p: Path): (n: Tree)
    ensures forall q :: q in n <==> q in m || q <= p
    ensures forall q | q in n :: n[q] == if q in m then m[q] else Dir
  {
    var missing := set i | 0 <= i <= |p| :: p[..i];
    PrefixesAmong(p);
    map q | q in m.Keys + missing :: if q in m then m[q] else Dir
  }

  lemma PrefixesAmong(p: Path)
    ensures var among := set i | 0 <= i <= |p| :: p[..i]; forall q :: q in among <==> q <= p
  {
    var among := set i | 0 <= i <= |p| :: p[..i];
    forall q: Path
      ensures q in among <==> q <= p
    {
      if q <= p {
        assert q == p[..|q|];
      }
    }
  }

  lemma WithDirWellFormed(m: Tree, p: Path)
    requires WellFormed(m) && forall q | q in m && q <= p :: m[q] == Dir
    ensures WellFormed(WithDir(m, p))
  {
    var n := WithDir(m, p);
    forall q, i | q in n && 0 <= i < |q|
      ensures IsDir(n, q[..i])
    {
      if q in m {
        assert IsDir(m, q[..i]);
      } else {
        assert q[..i] <= p;
      }
    }
  }

  /** n is m with exactly the tree below `src` repeated below `dst`; missing parents appear. */
  ghost predicate Grafted(m: Tree, n: Tree, src: Path, dst: Path) {
    && (forall q :: q in n <==> q in m || q <= dst || (dst <= q && src + q[|dst|..] in m))
    && (forall q | q in n ::
          if dst <= q && src + q[|dst|..] in m then n[q] == m[src + q[|dst|..]]
          else if q in m then n[q] == m[q] else n[q] == Dir)
  }

  /** n agrees with m wherever m has a node, and its new nodes lie at, above or below dst. */
  ghost predicate AddsAround(m: Tree, n: Tree, dst: Path) {
    && Keeps(m, n)
    && (forall q | q in n && q !in m :: q <= dst || dst <= q)
  }

  /** The children of `src` named in `done`, with all below them, have been repeated below dst. */
  ghost predicate CopiedChildren(m: Tree, n: Tree, src: Path, dst: Path, done: set<string>) {
    && (forall q :: q in n <==> q in m || CopyOf(m, src, dst, done, q))
    && (forall q | q in n :: n[q] == if CopyOf(m, src, dst, done, q) then m[src + q[|dst|..]] else m[q])
  }

  ghost predicate CopyOf(m: Tree, src: Path, dst: Path, done: set<string>, q: Path) {
    dst < q && q[|dst|] in done && src + q[|dst|..] in m
  }

  /** Neither path lies in the other, the source is a directory, and nothing is at the target. */
  ghost predicate Disjoint(m: Tree, src: Path, dst: Path) {
    !(src <= dst) && !(dst <= src) && IsDir(m, src) && dst !in m
  }

  /** The copy of the tree at src fits below dst, and no file is in the way of dst. */
  ghost predicate Room(m: Tree, src: Path, dst: Path, maxDepth: nat) {
    (forall p | p in m && src <= p :: |p| - |src| + |dst| <= maxDepth) &&
    (forall q | q in m && q <= dst :: m[q] == Dir)
  }

  function Files(m: Tree, p: Path): set<string> {
    set q | q in m && |q| == |p| + 1 && p <= q && m[q].File? :: q[|p|]
  }

  function Directories(m: Tree, p: Path): set<string> {
    set q | q in m && |q| == |p| + 1 && p <= q && m[q].Dir? :: q[|p|]
  }

  lemma ChildIn(m: Tree, p: Path, c: string)
    ensures c in Files(m, p) <==> p + [c] in m && m[p + [c]].File?
    ensures c in Directories(m, p) <==> p + [c] in m && m[p + [c]].Dir?
  {
    assert (p + [c])[|p|] == c;
    forall q | q in m && |q| == |p| + 1 && p <= q
      ensures q == p + [q[|p|]]
    {
    }
  }

  // ---------------------------------------------------------------- steps of the copy

  lemma AddsAroundChild(m: Tree, n: Tree, k: Tree, dst: Path, d: string)
    requires AddsAround(m, n, dst) && AddsAround(n, k, dst + [d])
    ensures AddsAround(m, k, dst)
  {
    forall q | q in k && q !in m
      ensures q <= dst || dst <= q
    {
      if q !in n && q <= dst + [d] {
        assert q == dst + [d] || q <= dst;
      }
    }
  }

  /** The state in which the children are copied: dst was just made and is empty. */
  ghost predicate Prepared(base: Tree, src: Path, dst: Path) {
    WellFormed(base) && !(src <= dst) && !(dst <= src) && IsDir(base, src) && IsDir(base, dst) &&
    forall q | q in base :: !(dst < q)
  }

  lemma TakePrefix(p: Path, q: Path)
    requires p <= q
    ensures q[..|p|] == p
  {
  }

  lemma MakeDestination(m: Tree, src: Path, dst: Path)
    requires WellFormed(m) && Disjoint(m, src, dst) && WellFormed(WithDir(m, dst))
    ensures Prepared(WithDir(m, dst), src, dst)
    ensures CopiedChildren(WithDir(m, dst), WithDir(m, dst), src, dst, {})
  {
    forall q | q in WithDir(m, dst)
      ensures !(dst < q)
    {
      if dst <= q {
        TakePrefix(dst, q);
      }
    }
  }

  /** Below the source the tree is as it was. */
  lemma SourceKept(base: Tree, n: Tree, src: Path, dst: Path, done: set<string>, p: Path)
    requires Prepared(base, src, dst) && CopiedChildren(base, n, src, dst, done) && src <= p
    ensures p in n <==> p in base
    ensures p in n ==> n[p] == base[p]
  {
  }

  lemma FreshChild(base: Tree, n: Tree, src: Path, dst: Path, done: set<string>, d: string)
    requires Prepared(base, src, dst) && CopiedChildren(base, n, src, dst, done) && d !in done
    ensures dst + [d] !in n
    ensures !(src + [d] <= dst + [d]) && !(dst + [d] <= src + [d])
  {
    assert dst < dst + [d];
  }

  lemma CopyOfChild(base: Tree, src: Path, dst: Path, done: set<string>, d: string, q: Path)
    ensures CopyOf(base, src, dst, done + {d}, q) <==>
            CopyOf(base, src, dst, done, q) || (dst + [d] <= q && src + [d] + q[|dst| + 1..] in base)
    ensures dst + [d] <= q ==> src + q[|dst|..] == src + [d] + q[|dst| + 1..]
  {
    if dst + [d] <= q {
      assert dst < q && q[|dst|] == d;
      assert q[|dst|..] == [d] + q[|dst| + 1..];
      assert src + q[|dst|..] == src + [d] + q[|dst| + 1..];
    }
    if dst < q && q[|dst|] == d {
      assert dst + [d] <= q;
    }
  }

  lemma FileCopied(base: Tree, n: Tree, k: Tree, src: Path, dst: Path, done: set<string>, f: string)
    requires Prepared(base, src, dst) && CopiedChildren(base, n, src, dst, done)
    requires src + [f] in base && base[src + [f]].File? && src + [f] in n
    requires dst + [f] !in n && k == n[dst + [f] := n[src + [f]]]
    ensures CopiedChildren(base, k, src, dst, done + {f})
  {
    SourceKept(base, n, src, dst, done, src + [f]);
    forall q
      ensures CopyOf(base, src, dst, done + {f}, q) <==> CopyOf(base, src, dst, done, q) || q == dst + [f]
      ensures q == dst + [f] ==> src + q[|dst|..] == src + [f]
    {
      CopyOfChild(base, src, dst, done, f, q);
      if |dst| + 1 < |q| {
        var p := src + [f] + q[|dst| + 1..];
        assert p[..|src| + 1] == src + [f];
      }
      if q == dst + [f] {
        assert q[|dst| + 1..] == [];
        assert src + [f] + [] == src + [f];
      }
    }
  }

  lemma DirectoryCopied(base: Tree, n: Tree, k: Tree, src: Path, dst: Path, done: set<string>, d: string)
    requires Prepared(base, src, dst) && CopiedChildren(base, n, src, dst, done)
    requires IsDir(base, src + [d]) && d !in done && IsDir(n, dst)
    requires WellFormed(n) && Grafted(n, k, src + [d], dst + [d])
    ensures CopiedChildren(base, k, src, dst, done + {d})
  {
    forall q
      ensures q in k <==> q in base || CopyOf(base, src, dst, done + {d}, q)
      ensures q in k ==> k[q] == if CopyOf(base, src, dst, done + {d}, q) then base[src + q[|dst|..]] else base[q]
    {
      CopyOfChild(base, src, dst, done, d, q);
      FreshChild(base, n, src, dst, done, d);
      if dst + [d] <= q {
        SourceKept(base, n, src, dst, done, src + [d] + q[|dst| + 1..]);
        assert !(dst < q && q[|dst|] in done);
        assert dst < q && q !in base && q !in n;
        if q <= dst + [d] {
          assert q == dst + [d] && q[|dst| + 1..] == [];
          assert src + [d] + [] == src + [d];
        }
      } else if q <= dst + [d] {
        assert q <= dst;
        if q != dst {
          assert dst[..|q|] == q && IsDir(n, dst[..|q|]);
        }
      }
    }
  }

  lemma CopyOfAll(m: Tree, src: Path, dst: Path, done: set<string>, q: Path)
    requires WellFormed(m) && Disjoint(m, src, dst) && WellFormed(WithDir(m, dst))
    requires forall c | src + [c] in WithDir(m, dst) :: c in done
    ensures CopyOf(WithDir(m, dst), src, dst, done, q) <==> dst < q && src + q[|dst|..] in m
  {
    if dst < q {
      var p, c := src + q[|dst|..], q[|dst|];
      assert p[..|src| + 1] == src + [c];
      if p in m {
        if |p| > |src| + 1 {
          assert IsDir(m, p[..|src| + 1]);
        } else {
          assert p == src + [c];
        }
        assert src + [c] in WithDir(m, dst);
      }
    }
  }

  lemma AllCopied(m: Tree, n: Tree, src: Path, dst: Path, done: set<string>)
    requires WellFormed(m) && Disjoint(m, src, dst)
    requires Prepared(WithDir(m, dst), src, dst) && CopiedChildren(WithDir(m, dst), n, src, dst, done)
    requires forall c | src + [c] in WithDir(m, dst) :: c in done
    ensures Grafted(m, n, src, dst)
  {
    assert dst[|dst|..] == [] && src + [] == src;
    forall q
      ensures q in n <==> q in m || q <= dst || (dst <= q && src + q[|dst|..] in m)
    {
      CopyOfAll(m, src, dst, done, q);
    }
    forall q | q in n
      ensures if dst <= q && src + q[|dst|..] in m then n[q] == m[src + q[|dst|..]]
              else if q in m then n[q] == m[q] else n[q] == Dir
    {
      CopyOfAll(m, src, dst, done, q);
      if q == dst {
        assert q[|dst|..] == [] && src + [] == src;
      }
    }
  }

  class FileSystem {
    var nodes: Tree
    /** Paths of more components than this cannot be created. */
    const maxDepth: nat
    /** No operation fails without a reason that the tree shows. */
    const reliable: bool

    ghost predicate Valid()
      reads this
    {
      WellFormed(nodes)
    }

    constructor (nodes: Tree, maxDepth: nat, reliable: bool)
      requires WellFormed(nodes)
      ensures Valid() && this.nodes == nodes && this.maxDepth == maxDepth && this.reliable == reliable
    {
      this.nodes, this.maxDepth, this.reliable := nodes, maxDepth, reliable;
    }

    /** Fails on a path that is too long, on a file in the way, or for any other reason. */
    method CreateDirectory(p: Path) returns (ok: bool)
      requires Valid()
      modifies this
      ensures Valid() && AddsAround(old(nodes), nodes, p)
      ensures ok ==> nodes == WithDir(old(nodes), p) && |p| <= maxDepth && IsDir(nodes, p)
      ensures ok ==> forall q | q in old(nodes) && q <= p :: old(nodes)[q] == Dir
      ensures reliable && |p| <= maxDepth && (forall q | q in old(nodes) && q <= p :: old(nodes)[q] == Dir) ==> ok
    {
      var fails: bool := *;
      var blocked := exists q | q in nodes.Keys :: q <= p && nodes[q] != Dir;
      if (fails && !reliable) || blocked || |p| > maxDepth {
        return false;
      }
      WithDirWellFormed(nodes, p);
      nodes := WithDir(nodes, p);
      return true;
    }

    /** File.Copy without overwriting. */
    method CopyFile(from: Path, to: Path) returns (ok: bool)
      requires Valid() && from in nodes && nodes[from].File? && to != [] && IsDir(nodes, to[..|to| - 1])
      modifies this
      ensures Valid()
      ensures ok ==> to !in old(nodes) && nodes == old(nodes)[to := old(nodes)[from]]
      ensures !ok ==> nodes == old(nodes)
      ensures reliable && |to| <= maxDepth && to !in old(nodes) ==> ok
    {
      var fails: bool := *;
      if (fails && !reliable) || to in nodes || |to| > maxDepth {
        return false;
      }
      ghost var parent := to[..|to| - 1];
      forall i | 0 <= i < |to|
        ensures IsDir(nodes, to[..i])
      {
        assert i < |parent| ==> parent[..i] == to[..i];
      }
      nodes := nodes[to := nodes[from]];
      return true;
    }
  }

  /** The loop over Directory.GetFiles. */
  method CopyFiles(fs: FileSystem, source: Path, destination: Path, ghost apart: bool, ghost base: Tree)
    returns (ok: bool, ghost done: set<string>)
    requires fs.Valid() && IsDir(fs.nodes, source) && IsDir(fs.nodes, destination)
    requires apart ==> Prepared(base, source, destination) && fs.nodes == base
    modifies fs
    ensures fs.Valid() && AddsAround(old(fs.nodes), fs.nodes, destination)
    ensures ok && apart ==>
              CopiedChildren(base, fs.nodes, source, destination, done) && done == Files(base, source)
    ensures fs.reliable && apart && Room(base, source, destination, fs.maxDepth) ==> ok
  {
    var todo := Files(fs.nodes, source);
    ghost var all := todo;
    done := {};
    forall f | f in all
      ensures source + [f] in fs.nodes && fs.nodes[source + [f]].File?
    {
      ChildIn(fs.nodes, source, f);
    }
    while todo != {}
      invariant fs.Valid() && AddsAround(old(fs.nodes), fs.nodes, destination)
      invariant todo !! done && todo + done == all
      invariant forall f | f in all :: source + [f] in fs.nodes && fs.nodes[source + [f]].File?
      invariant apart ==> CopiedChildren(base, fs.nodes, source, destination, done)
      decreases todo
    {
      var f :| f in todo;
      ghost var before := fs.nodes;
      assert (destination + [f])[..|destination|] == destination;
      if apart {
        FreshChild(base, before, source, destination, done, f);
        ChildIn(base, source, f);
        assert source <= source + [f];
      }
      ok := fs.CopyFile(source + [f], destination + [f]);
      if !ok {
        return;
      }
      if apart {
        FileCopied(base, before, fs.nodes, source, destination, done, f);
      }
      todo, done := todo - {f}, done + {f};
    }
    ok := true;
  }

  /** One subdirectory of the source, copied into the destination. */
  method CopySubdirectory(fs: FileSystem, source: Path, destination: Path, d: string,
                          ghost apart: bool, ghost base: Tree, ghost done: set<string>)
    returns (ok: bool)
    requires fs.Valid() && IsDir(fs.nodes, destination) && |destination| <= fs.maxDepth
    requires apart ==> Prepared(base, source, destination) && d in Directories(base, source) && d !in done &&
                       CopiedChildren(base, fs.nodes, source, destination, done)
    modifies fs
    ensures fs.Valid() && AddsAround(old(fs.nodes), fs.nodes, destination)
    ensures ok && apart ==> CopiedChildren(base, fs.nodes, source, destination, done + {d})
    ensures fs.reliable && apart && Room(base, source, destination, fs.maxDepth) ==> ok
    ensures source < destination && destination[|source|] == d ==> !ok
    decreases fs.maxDepth + 1 - |destination|, 0
  {
    ghost var before := fs.nodes;
    if apart {
      DisjointChild(base, before, source, destination, done, d);
      RoomForChild(base, before, source, destination, done, d, fs.maxDepth);
    }
    ok := CopyDirectory(fs, source + [d], destination + [d]);
    AddsAroundChild(before, before, fs.nodes, destination, d);
    if ok && apart {
      DirectoryCopied(base, before, fs.nodes, source, destination, done, d);
    }
  }

  /** The loop over Directory.GetDirectories. */
  method CopySubdirectories(fs: FileSystem, source: Path, destination: Path, ghost apart: bool, ghost base: Tree,
                            ghost files: set<string>)
    returns (ok: bool, ghost done: set<string>)
    requires fs.Valid() && IsDir(fs.nodes, source) && IsDir(fs.nodes, destination)
    requires |destination| <= fs.maxDepth
    requires apart ==> Prepared(base, source, destination) && files == Files(base, source) &&
                       CopiedChildren(base, fs.nodes, source, destination, files)
    modifies fs
    ensures fs.Valid() && AddsAround(old(fs.nodes), fs.nodes, destination)
    ensures ok && apart ==> CopiedChildren(base, fs.nodes, source, destination, done) &&
                            forall c | source + [c] in base :: c in done
    ensures fs.reliable && apart && Room(base, source, destination, fs.maxDepth) ==> ok
    ensures source < destination ==> !ok
    decreases fs.maxDepth + 1 - |destination|, 1
  {
    var todo := Directories(fs.nodes, source);
    ghost var all := todo;
    done := files;
    if apart {
      SameDirectories(base, fs.nodes, source, destination, files);
    }
    if source < destination {
      WayDown(fs.nodes, source, destination);
    }
    while todo != {}
      invariant fs.Valid() && AddsAround(old(fs.nodes), fs.nodes, destination)
      invariant todo <= all
      invariant apart ==> CopiedChildren(base, fs.nodes, source, destination, done) &&
                          done == files + (all - todo)
      invariant source < destination ==> destination[|source|] in todo
      decreases todo
    {
      var d :| d in todo;
      ok := CopySubdirectory(fs, source, destination, d, apart, base, done);
      if !ok {
        return;
      }
      todo, done := todo - {d}, done + {d};
    }
    ok := true;
    if apart {
      forall c | source + [c] in base
        ensures c in done
      {
        ChildIn(base, source, c);
      }
    }
  }

  /** The first step from a directory towards one below it is one of its subdirectories. */
  lemma WayDown(m: Tree, src: Path, dst: Path)
    requires WellFormed(m) && IsDir(m, dst) && src < dst
    ensures dst[|src|] in Directories(m, src)
  {
    assert dst[..|src| + 1] == src + [dst[|src|]];
    assert |src| + 1 < |dst| ==> IsDir(m, dst[..|src| + 1]);
    ChildIn(m, src, dst[|src|]);
  }

  lemma SameDirectories(base: Tree, n: Tree, src: Path, dst: Path, done: set<string>)
    requires Prepared(base, src, dst) && CopiedChildren(base, n, src, dst, done)
    ensures Directories(n, src) == Directories(base, src)
    ensures Directories(base, src) !! Files(base, src)
  {
    forall d
      ensures d in Directories(n, src) <==> d in Directories(base, src)
      ensures !(d in Directories(base, src) && d in Files(base, src))
    {
      ChildIn(n, src, d);
      ChildIn(base, src, d);
      SourceKept(base, n, src, dst, done, src + [d]);
    }
  }

  lemma DisjointChild(base: Tree, n: Tree, src: Path, dst: Path, done: set<string>, d: string)
    requires Prepared(base, src, dst) && CopiedChildren(base, n, src, dst, done)
    requires d in Directories(base, src) && d !in done
    ensures Disjoint(n, src + [d], dst + [d]) && IsDir(base, src + [d])
  {
    ChildIn(base, src, d);
    FreshChild(base, n, src, dst, done, d);
    SourceKept(base, n, src, dst, done, src + [d]);
  }

  lemma RoomForChild(base: Tree, n: Tree, src: Path, dst: Path, done: set<string>, d: string, maxDepth: nat)
    requires Prepared(base, src, dst) && CopiedChildren(base, n, src, dst, done) && WellFormed(n) && IsDir(n, dst)
    requires dst + [d] !in n
    ensures Room(base, src, dst, maxDepth) ==> Room(n, src + [d], dst + [d], maxDepth)
  {
    if Room(base, src, dst, maxDepth) {
      forall p | p in n && src + [d] <= p
        ensures |p| - |src + [d]| + |dst + [d]| <= maxDepth
      {
        assert src <= p;
        SourceKept(base, n, src, dst, done, p);
      }
      forall q | q in n && q <= dst + [d]
        ensures n[q] == Dir
      {
        assert q != dst + [d] && q <= dst;
        TakePrefix(q, dst);
      }
    }
  }

  /**
    CopyDirectory. It always ends. Whatever the two paths are it only adds nodes, at, above
    or below the destination; if it succeeds on disjoint paths with nothing at the
    destination, the tree there equals the source tree, and on a file system that does not
    fail by itself it does succeed when there is room; copying a directory into its own
    subtree never succeeds.
   */
  method CopyDirectory(fs: FileSystem, source: Path, destination: Path) returns (ok: bool)
    requires fs.Valid()
    modifies fs
    ensures fs.Valid() && AddsAround(old(fs.nodes), fs.nodes, destination)
    ensures ok ==> IsDir(old(fs.nodes), source) || source <= destination
    ensures ok ==> forall q | q in old(fs.nodes) && q <= destination :: old(fs.nodes)[q] == Dir
    ensures ok && Disjoint(old(fs.nodes), source, destination) ==>
              Grafted(old(fs.nodes), fs.nodes, source, destination)
    ensures fs.reliable && Disjoint(old(fs.nodes), source, destination) ==>
              Room(old(fs.nodes), source, destination, fs.maxDepth) ==> ok
    ensures source < destination ==> !ok
    decreases if |destination| <= fs.maxDepth then fs.maxDepth + 1 - |destination| else 0, 2
  {
    ok := fs.CreateDirectory(destination);
    if !ok {
      return;
    }
    if !IsDir(fs.nodes, source) {
      return false;
    }
    ghost var start := old(fs.nodes);
    ghost var apart := Disjoint(start, source, destination);
    ghost var base := fs.nodes;
    if apart {
      MakeDestination(start, source, destination);
    }
    ghost var done: set<string>;
    ok, done := CopyFiles(fs, source, destination, apart, base);
    if !ok {
      return;
    }
    ok, done := CopySubdirectories(fs, source, destination, apart, base, done);
    if ok && apart {
      AllCopied(start, fs.nodes, source, destination, done);
    }
  }

  /** Directory.Delete(recursive): all of it, or some of its contents and then an exception. */
  method DeleteTree(fs: FileSystem, target: Path) returns (ok: bool)
    requires fs.Valid() && IsDir(fs.nodes, target) && target != []
    modifies fs
    ensures fs.Valid() && Keeps(fs.nodes, old(fs.nodes)) && KeepsOutside(old(fs.nodes), fs.nodes, target)
    ensures if ok then forall q | q in fs.nodes :: !(target <= q) else target in fs.nodes
    ensures fs.reliable ==> ok
  {
    var fails: bool := *;
    if fails && !fs.reliable {
      // the contents of some subdirectories are gone
      var gone: set<Path> := *;
      fs.nodes := map q | q in fs.nodes && !exists p | p in gone :: target < p && p <= q :: fs.nodes[q];
      return false;
    }
    fs.nodes := map q | q in fs.nodes && !(target <= q) :: fs.nodes[q];
    return true;
  }
}
