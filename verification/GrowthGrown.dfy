/** The finished growth tree, and that it is one tree whatever order its files come in. */
module GrowthGrown {
  import opened GrowthBuild
  import opened GrowthOpen
  import opened GrowthOrder
  import opened GrowthShape
  import opened GrowthTree

  /** Every file a build goes over, in its order. */
  function All(f: Files): seq<Entry> { f.lines + f.base + f.added + f.removed }

  function GrownFrom(dirs: seq<Path>, t: Totals): Branch {
    var b := TreeAt([], dirs, t);
    b.(children := Sorted(Compressed(b.children)))
  }

  /** Every folder a build makes, in the order it makes them. */
  function Folders(f: Files): seq<Path> { WithDirs([[]], All(f)) }

  /** What building the tree of f gives. */
  ghost predicate Grown(trunk: Branch, f: Files) { exists t :: TotalsOf(t, f) && trunk == GrownFrom(Folders(f), t) }

  lemma {:induction false} WithDirsConcat(dirs: seq<Path>, a: seq<Entry>, b: seq<Entry>)
    ensures WithDirs(dirs, a + b) == WithDirs(WithDirs(dirs, a), b)
    decreases |a|
  {
    hide WithDir;
    if a == [] {
      assert a + b == b;
    } else {
      assert (a + b)[1..] == a[1..] + b;
      WithDirsConcat(WithDir(dirs, Dir(a[0].file)), a[1..], b);
    }
  }

  lemma FoldersOfAll(f: Files)
    ensures Folders(f) == WithDirs(WithDirs(WithDirs(WithDirs([[]], f.lines), f.base), f.added), f.removed)
  {
    hide WithDirs;
    WithDirsConcat([[]], f.lines + f.base + f.added, f.removed);
    WithDirsConcat([[]], f.lines + f.base, f.added);
    WithDirsConcat([[]], f.lines, f.base);
  }

  // ---- the folders ----

  /** No folder is made twice. */
  ghost predicate NoTwice(dirs: seq<Path>) {
    dirs != [] ==> dirs[|dirs| - 1] !in dirs[..|dirs| - 1] && NoTwice(dirs[..|dirs| - 1])
  }

  /** With a folder, all above it have been made. */
  ghost predicate Whole(dirs: seq<Path>) { forall d, e :: d in dirs && e <= d ==> e in dirs }

  lemma PrefixOfDir(d: Path, dir: Path)
    requires dir != []
    ensures d <= dir <==> d == dir || d <= Dir(dir)
  {
    if d <= dir && d != dir {
      assert d == dir[..|d|] == Dir(dir)[..|d|];
    }
  }

  lemma {:induction false} WithDirHas(dirs: seq<Path>, dir: Path)
    requires NoTwice(dirs) && Whole(dirs)
    ensures NoTwice(WithDir(dirs, dir))
    ensures forall d :: d in WithDir(dirs, dir) <==> d in dirs || d <= dir
    decreases |dir|
  {
    if dir in dirs {
    } else if dir == [] {
      assert (dirs + [dir])[..|dirs|] == dirs;
    } else {
      var r := WithDir(dirs, Dir(dir));
      WithDirHas(dirs, Dir(dir));
      assert (r + [dir])[..|r|] == r;
      assert !(dir <= Dir(dir));
      forall d
        ensures d in r + [dir] <==> d in dirs || d <= dir
      {
        PrefixOfDir(d, dir);
      }
    }
  }

  /** The folders made are those above some file, each once. */
  lemma {:induction false} WithDirsHave(dirs: seq<Path>, files: seq<Entry>)
    requires NoTwice(dirs) && Whole(dirs)
    ensures NoTwice(WithDirs(dirs, files))
    ensures forall d :: d in WithDirs(dirs, files) <==> d in dirs || exists e :: e in files && d <= Dir(e.file)
    decreases |files|
  {
    hide NoTwice, WithDir, Dir;
    if files != [] {
      var dir := Dir(files[0].file);
      var next := WithDir(dirs, dir);
      WithDirHas(dirs, dir);
      WithDirsHave(next, files[1..]);
      forall d
        ensures d in WithDirs(dirs, files) <==> d in dirs || exists e :: e in files && d <= Dir(e.file)
      {
        OneOrRest(files, d);
      }
    }
  }

  lemma OneOrRest(files: seq<Entry>, d: Path)
    requires files != []
    ensures (exists e :: e in files && d <= Dir(e.file)) <==>
            d <= Dir(files[0].file) || exists e :: e in files[1..] && d <= Dir(e.file)
  {
    hide Dir;
    if e :| e in files && d <= Dir(e.file) {
      if e != files[0] {
        assert e in files[1..];
      }
    }
    if d <= Dir(files[0].file) {
      assert files[0] in files;
    }
  }

  lemma {:induction false} NoTwiceCounts(dirs: seq<Path>, d: Path)
    requires NoTwice(dirs)
    ensures multiset(dirs)[d] == if d in dirs then 1 else 0
  {
    if dirs != [] {
      var n := |dirs| - 1;
      NoTwiceCounts(dirs[..n], d);
      assert dirs == dirs[..n] + [dirs[n]];
    }
  }

  lemma {:induction false} SameFoldersMade(fs: seq<Entry>, gs: seq<Entry>)
    requires multiset(fs) == multiset(gs)
    ensures multiset(WithDirs([[]], fs)) == multiset(WithDirs([[]], gs))
  {
    hide WithDirs, Dir;
    var a, b := WithDirs([[]], fs), WithDirs([[]], gs);
    assert NoTwice([[]]) && Whole([[]]) by { RootAlone(); }
    WithDirsHave([[]], fs);
    WithDirsHave([[]], gs);
    forall e
      ensures e in fs <==> e in gs
    {
      assert multiset(fs)[e] == multiset(gs)[e];
    }
    forall d
      ensures multiset(a)[d] == multiset(b)[d]
    {
      NoTwiceCounts(a, d);
      NoTwiceCounts(b, d);
      SomeFileBelow(fs, gs, d);
    }
  }

  lemma SomeFileBelow(fs: seq<Entry>, gs: seq<Entry>, d: Path)
    requires forall e :: e in fs <==> e in gs
    ensures (exists e :: e in fs && d <= Dir(e.file)) <==> exists e :: e in gs && d <= Dir(e.file)
  {
  }

  lemma RootAlone()
    ensures NoTwice([[]]) && Whole([[]])
  {
    var r: seq<Path> := [[]];
    assert r[..0] == [];
  }

  // ---- the sums ----

  lemma {:induction false} SumConcat(a: seq<Entry>, b: seq<Entry>, d: Path)
    ensures Sum(a + b, d) == Sum(a, d) + Sum(b, d)
  {
    hide Dir;
    if a == [] {
      assert a + b == b;
    } else {
      assert (a + b)[1..] == a[1..] + b;
      SumConcat(a[1..], b, d);
    }
  }

  lemma {:induction false} SumAnyOrder(fs: seq<Entry>, gs: seq<Entry>, d: Path)
    requires multiset(fs) == multiset(gs)
    ensures Sum(fs, d) == Sum(gs, d)
  {
    hide Sum;
    if fs == [] {
      assert |multiset(gs)| == 0;
      assert gs == fs;
    } else {
      var k := TakeSame(fs, gs);
      var a, b, e := gs[..k], gs[k + 1..], fs[0];
      SumAnyOrder(fs[1..], a + b, d);
      assert fs == [e] + fs[1..];
      SumConcat([e], fs[1..], d);
      SumConcat(a, b, d);
      SumConcat(a + [e], b, d);
      SumConcat(a, [e], d);
    }
  }

  // ---- one tree ----

  /** The same files, each map in any order. */
  ghost predicate SameFiles(f: Files, g: Files) {
    && multiset(f.lines) == multiset(g.lines) && multiset(f.base) == multiset(g.base)
    && multiset(f.added) == multiset(g.added) && multiset(f.removed) == multiset(g.removed)
  }

  lemma SameTotalsOf(f: Files, t: Totals, g: Files, u: Totals)
    requires SameFiles(f, g) && TotalsOf(t, f) && TotalsOf(u, g)
    ensures SameTotals(t, u)
  {
    hide Sum, At;
    forall d
      ensures At(t.lines, d) == At(u.lines, d) && At(t.base, d) == At(u.base, d)
              && At(t.added, d) == At(u.added, d) && At(t.removed, d) == At(u.removed, d)
    {
      SumAnyOrder(f.lines, g.lines, d);
      SumAnyOrder(f.base, g.base, d);
      SumAnyOrder(f.added, g.added, d);
      SumAnyOrder(f.removed, g.removed, d);
    }
  }

  lemma CleanFolders(f: Files, dirs: seq<Path>)
    requires dirs == Folders(f)
    requires forall e :: e in All(f) ==> Clean(e.file)
    ensures forall d :: d in dirs ==> Clean(d)
  {
    hide WithDirs, All;
    RootAlone();
    WithDirsHave([[]], All(f));
    forall d | d in dirs
      ensures Clean(d)
    {
      if d != [] {
        var e :| e in All(f) && d <= Dir(e.file);
        forall i | 0 <= i < |d|
          ensures '/' !in d[i]
        {
          assert d[i] == e.file[i];
        }
      }
    }
  }

  /** Whatever order the maps give their files in, the tree is the same. */
  lemma GrownWhateverTheOrder(a: Branch, f: Files, b: Branch, g: Files)
    requires Grown(a, f) && Grown(b, g) && SameFiles(f, g)
    requires forall e :: e in All(f) ==> Clean(e.file)
    ensures a == b
  {
    hide WithDirs, Sum, Sorted, Compressed, FinishedAt, Trees, ChildPaths, InsertAll;
    var t :| TotalsOf(t, f) && a == GrownFrom(Folders(f), t);
    var u :| TotalsOf(u, g) && b == GrownFrom(Folders(g), u);
    var dirs, others := Folders(f), Folders(g);
    assert multiset(All(f)) == multiset(All(g));
    SameFoldersMade(All(f), All(g));
    CleanFolders(f, dirs);
    SameTotalsOf(f, t, g, u);
    FoldersSame([], dirs, t, others, u);
    SortedTrees(ChildPaths(dirs, []), [], dirs, t);
    SortedTrees(ChildPaths(others, []), [], others, u);
  }

  // ---- what ordering keeps ----

  lemma {:induction false} InsertKeeps(x: Branch, s: seq<Branch>, above: Path, f: Files)
    ensures PathsOf(Insert(x, s)) == PathsOf([x] + s)
    ensures Distinct([x] + s) ==> Distinct(Insert(x, s))
    ensures Exact([x] + s, f) ==> Exact(Insert(x, s), f)
    ensures Named([x] + s, above) ==> Named(Insert(x, s), above)
  {
    hide Less, Counts, PathsOf, Distinct, Exact, Named;
    if s != [] && Less(s[0], x) {
      InsertKeeps(x, s[1..], above, f);
      ConsKeeps(x, s, above, f);
      ConsKeeps(x, s[1..], above, f);
      ConsKeeps(s[0], s[1..], above, f);
      ConsKeeps(s[0], Insert(x, s[1..]), above, f);
      assert s == [s[0]] + s[1..];
    }
  }

  lemma {:induction false} ConsPaths(x: Branch, s: seq<Branch>)
    ensures PathsOf([x] + s) == {x.path} + PathsOf(x.children) + PathsOf(s)
    ensures Distinct([x] + s) <==>
              && x.path !in PathsOf(x.children) && x.path !in PathsOf(s) && PathsOf(x.children) !! PathsOf(s)
              && Distinct(x.children) && Distinct(s)
  {
    assert ([x] + s)[1..] == s;
  }

  lemma {:induction false} ConsKeeps(x: Branch, s: seq<Branch>, above: Path, f: Files)
    ensures PathsOf([x] + s) == {x.path} + PathsOf(x.children) + PathsOf(s)
    ensures Distinct([x] + s) <==>
              && x.path !in PathsOf(x.children) && x.path !in PathsOf(s) && PathsOf(x.children) !! PathsOf(s)
              && Distinct(x.children) && Distinct(s)
    ensures Exact([x] + s, f) <==> Counts(x, f) && Exact(x.children, f) && Exact(s, f)
    ensures Named([x] + s, above) <==>
              x.path == above + x.name && x.name != [] && Named(x.children, x.path) && Named(s, above)
  {
    hide Counts;
    ConsPaths(x, s);
    assert ([x] + s)[1..] == s;
  }

  lemma {:induction false} SortedKeeps(ks: seq<Branch>, above: Path, f: Files)
    ensures |Sorted(ks)| == |ks| && PathsOf(Sorted(ks)) == PathsOf(ks)
    ensures Distinct(ks) ==> Distinct(Sorted(ks))
    ensures Exact(ks, f) ==> Exact(Sorted(ks), f)
    ensures Named(ks, above) ==> Named(Sorted(ks), above)
  {
    hide Insert, Counts;
    if ks != [] {
      var x, s := ks[0].(children := Sorted(ks[0].children)), Sorted(ks[1..]);
      SortedKeeps(ks[0].children, ks[0].path, f);
      SortedKeeps(ks[1..], above, f);
      InsertKeeps(x, s, above, f);
      assert ([x] + s)[1..] == s;
      CountsAlike(ks[0], x, f);
    }
  }

  lemma CountsAlike(k: Branch, x: Branch, f: Files)
    requires x == k.(children := x.children)
    ensures Counts(x, f) == Counts(k, f)
  {
  }

  // ---- what joining keeps ----

  lemma {:induction false} JoinedDistinct(c: Branch)
    requires Distinct([c])
    ensures Distinct([Joined(c)]) && PathsOf([Joined(c)]) <= PathsOf([c])
    decreases Size(c.children)
  {
    assert [c][1..] == [];
    if Chain(c) {
      var only := c.children[0];
      var n := only.(name := c.name + only.name);
      assert c.children[1..] == [] && [n][1..] == [];
      JoinedDistinct(n);
    }
  }

  lemma {:induction false} CompressedDistinct(ks: seq<Branch>)
    requires Distinct(ks)
    ensures Distinct(Compressed(ks)) && PathsOf(Compressed(ks)) <= PathsOf(ks)
    decreases Size(ks)
  {
    hide Joined;
    if ks != [] {
      var k, j := ks[0], Joined(ks[0]);
      assert [k][1..] == [] && [j][1..] == [];
      JoinedDistinct(k);
      CompressedDistinct(j.children);
      CompressedDistinct(ks[1..]);
      var r := Compressed(ks);
      assert r[1..] == Compressed(ks[1..]);
      assert PathsOf([j]) == {j.path} + PathsOf(j.children);
      assert PathsOf([k]) == {k.path} + PathsOf(k.children);
    }
  }

  // ---- the folders of the tree ----

  ghost predicate Once(ps: seq<Path>) { forall p :: multiset(ps)[p] <= 1 }

  lemma OnceRest(ps: seq<Path>)
    requires Once(ps) && ps != []
    ensures Once(ps[1..]) && ps[0] !in ps[1..]
  {
    assert ps == [ps[0]] + ps[1..];
    forall p
      ensures multiset(ps[1..])[p] <= 1
    {
      assert multiset(ps)[p] <= 1;
    }
    assert multiset(ps)[ps[0]] <= 1;
  }

  lemma {:induction false} ChildPathsOnce(dirs: seq<Path>, d: Path)
    requires Once(dirs)
    ensures Once(ChildPaths(dirs, d))
  {
    hide ChildPaths;
    forall p
      ensures multiset(ChildPaths(dirs, d))[p] <= 1
    {
      ChildCount(dirs, d, p);
    }
  }

  predicate SomeAbove(ps: seq<Path>, q: Path) { exists p :: p in ps && p <= q }

  /** The branches of some folders stand at or below them. */
  lemma {:induction false} TreesBelow(ps: seq<Path>, d: Path, dirs: seq<Path>, t: Totals, q: Path)
    requires forall p :: p in ps ==> p in dirs && ChildOf(p, d)
    requires q in PathsOf(Trees(ps, d, dirs, t))
    ensures SomeAbove(ps, q)
    decreases Room(dirs, d), |ps|
  {
    hide Tallest, ChildPaths;
    assert ps != [] by { if ps == [] { NoTrees(d, dirs, t); } }
    var p := ps[0];
    assert p in ps;
    TreesFirst(ps, d, dirs, t);
    if q in PathsOf(TreeAt(p, dirs, t).children) {
      TreesBelow(ChildPaths(dirs, p), p, dirs, t, q);
      var c :| c in ChildPaths(dirs, p) && c <= q;
      assert p <= q;
    } else if q != p {
      TreesBelow(ps[1..], d, dirs, t, q);
      var c :| c in ps[1..] && c <= q;
      assert c in ps;
    }
  }

  lemma {:induction false} TreesDistinct(ps: seq<Path>, d: Path, dirs: seq<Path>, t: Totals)
    requires Once(dirs) && Once(ps)
    requires forall p :: p in ps ==> p in dirs && ChildOf(p, d)
    ensures Distinct(Trees(ps, d, dirs, t))
    decreases Room(dirs, d), |ps|
  {
    hide Tallest, ChildPaths, Once, PathsOf, Trees;
    if ps == [] {
      NoTrees(d, dirs, t);
    } else {
      var p := ps[0];
      assert p in ps;
      OnceRest(ps);
      ChildPathsOnce(dirs, p);
      TreesDistinct(ChildPaths(dirs, p), p, dirs, t);
      TreesDistinct(ps[1..], d, dirs, t);
      TreesFirst(ps, d, dirs, t);
      var k := TreeAt(p, dirs, t);
      forall q | q in PathsOf(k.children)
        ensures q != p && q !in PathsOf(Trees(ps[1..], d, dirs, t))
      {
        TreesBelow(ChildPaths(dirs, p), p, dirs, t, q);
        NotBeside(p, ps[1..], d, dirs, t, q);
      }
      if p in PathsOf(Trees(ps[1..], d, dirs, t)) {
        NotBeside(p, ps[1..], d, dirs, t, p);
      }
    }
  }

  /** What is below one folder is not below another beside it. */
  lemma {:induction false} NotBeside(p: Path, rest: seq<Path>, d: Path, dirs: seq<Path>, t: Totals, q: Path)
    requires ChildOf(p, d) && p !in rest && p <= q
    requires forall c :: c in rest ==> c in dirs && ChildOf(c, d)
    ensures q !in PathsOf(Trees(rest, d, dirs, t))
  {
    hide PathsOf, Trees;
    if q in PathsOf(Trees(rest, d, dirs, t)) {
      TreesBelow(rest, d, dirs, t, q);
      var c :| c in rest && c <= q;
      OnePrefix(c, p, q);
    }
  }

  lemma OnePrefix(c: Path, p: Path, q: Path)
    requires |c| == |p| && c <= q && p <= q
    ensures c == p
  {
    assert c == q[..|c|] && p == q[..|p|];
  }

  /** The folder holds nothing but one folder: the same code, now and at first. */
  predicate Link(d: Path, dirs: seq<Path>, f: Files) {
    var cs := ChildPaths(dirs, d);
    |cs| == 1 && Sum(f.lines, d) == Sum(f.lines, cs[0]) && Sum(f.base, d) == Sum(f.base, cs[0])
  }

  lemma {:induction false} ChainIsLink(p: Path, dirs: seq<Path>, t: Totals, f: Files)
    requires TotalsOf(t, f)
    ensures Chain(TreeAt(p, dirs, t)) <==> Link(p, dirs, f)
  {
    hide Sum, At, ChildPaths, TreeAt, Chain;
    ChainTells(p, dirs, t);
  }

  /** Below a folder, by way of one of those in it. */
  lemma {:induction false} ByWayOf(p: Path, dirs: seq<Path>, q: Path)
    requires Whole(dirs) && q in dirs
    ensures SomeAbove(ChildPaths(dirs, p), q) <==> p <= q && p != q
  {
    if p <= q && p != q {
      var c := q[..|p| + 1];
      assert c <= q && ChildOf(c, p);
      assert c in ChildPaths(dirs, p);
    }
    if SomeAbove(ChildPaths(dirs, p), q) {
      var c :| c in ChildPaths(dirs, p) && c <= q;
      assert p <= q && |q| > |p|;
    }
  }

  lemma {:induction false} KeptTrees(ps: seq<Path>, d: Path, dirs: seq<Path>, t: Totals, f: Files, q: Path)
    requires Whole(dirs) && TotalsOf(t, f)
    requires forall p :: p in ps ==> p in dirs && ChildOf(p, d)
    ensures q in Kept(Trees(ps, d, dirs, t)) <==> q in dirs && SomeAbove(ps, q) && !Link(q, dirs, f)
    decreases Room(dirs, d), |ps|
  {
    hide Tallest, ChildPaths, ChildOf, Link, Chain, Trees, Whole, TotalsOf;
    if ps == [] {
      NoTrees(d, dirs, t);
    } else {
      var p := ps[0];
      assert p in ps;
      RoomShrinks(dirs, d, p);
      KeptTrees(ChildPaths(dirs, p), p, dirs, t, f, q);
      KeptTrees(ps[1..], d, dirs, t, f, q);
      TreesFirst(ps, d, dirs, t);
      ChainIsLink(p, dirs, t, f);
      FirstAbove(ps, q);
      if q in dirs {
        ByWayOf(p, dirs, q);
      }
    }
  }

  lemma FirstAbove(ps: seq<Path>, q: Path)
    requires ps != []
    ensures SomeAbove(ps, q) <==> ps[0] <= q || SomeAbove(ps[1..], q)
  {
    if SomeAbove(ps, q) {
      var p :| p in ps && p <= q;
      assert p == ps[0] || p in ps[1..];
    }
    if SomeAbove(ps[1..], q) {
      var p :| p in ps[1..] && p <= q;
      assert p in ps;
    }
    assert ps[0] in ps;
  }

  // ---- the finished tree ----

  lemma {:induction false} TrunkAlone(trunk: Branch, f: Files)
    ensures Counts(trunk, f) && Exact(trunk.children, f) ==> Exact([trunk], f)
    ensures trunk.path !in PathsOf(trunk.children) && Distinct(trunk.children) ==> Distinct([trunk])
  {
    ConsKeeps(trunk, [], [], f);
    assert [trunk] + [] == [trunk];
  }

  lemma FoldersAreWhole(f: Files, dirs: seq<Path>)
    requires dirs == Folders(f)
    ensures Whole(dirs) && Once(dirs)
    ensures forall d :: d in dirs <==> d == [] || exists e :: e in All(f) && d <= Dir(e.file)
  {
    hide WithDirs, All, Dir;
    RootAlone();
    WithDirsHave([[]], All(f));
    forall p
      ensures multiset(dirs)[p] <= 1
    {
      NoTwiceCounts(dirs, p);
    }
    forall d, e | d in dirs && e <= d
      ensures e in dirs
    {
      if d != [] && e != [] {
        var file :| file in All(f) && d <= Dir(file.file);
        assert e <= Dir(file.file);
      }
    }
  }

  /** What a tree must be: its branches named from the one above, no two with one path, in order at every
      level, each with exactly the numbers of the files at or below its path, and the folders left exactly
      those above some file that are no link of a chain. */
  ghost predicate Sound(trunk: Branch, f: Files) {
    && trunk.path == [] && Named(trunk.children, []) && Exact([trunk], f) && Distinct([trunk])
    && InOrder(trunk.children) && LevelsInOrder(trunk.children)
    && forall q :: q in PathsOf(trunk.children) <==>
         q != [] && (exists e :: e in All(f) && q <= Dir(e.file)) && !Link(q, Folders(f), f)
  }

  lemma GrownIsSound(trunk: Branch, f: Files)
    requires Grown(trunk, f)
    ensures Sound(trunk, f)
  {
    hide WithDirs, Trees, ChildPaths, Sorted, Compressed, TotalsOf, Sum, Exact, Named, Distinct, PathsOf, Kept, Link,
         All, InOrder, LevelsInOrder;
    var t :| TotalsOf(t, f) && trunk == GrownFrom(Folders(f), t);
    var dirs := Folders(f);
    var ps := ChildPaths(dirs, []);
    var built := Trees(ps, [], dirs, t);
    FoldersAreWhole(f, dirs);
    TreesExact(ps, [], dirs, t, f);
    CompressedKeeps(built, [], f);
    ChildPathsOnce(dirs, []);
    TreesDistinct(ps, [], dirs, t);
    CompressedDistinct(built);
    SortedKeeps(Compressed(built), [], f);
    SortedInOrder(Compressed(built));
    CompressedIsKept(built);
    TreeCounts([], dirs, t, f);
    forall q
      ensures q in PathsOf(trunk.children) <==>
              q != [] && (exists e :: e in All(f) && q <= Dir(e.file)) && !Link(q, dirs, f)
    {
      KeptTrees(ps, [], dirs, t, f, q);
      if q in dirs {
        ByWayOf([], dirs, q);
      }
    }
    CountsAlike(TreeAt([], dirs, t), trunk, f);
    TrunkAlone(trunk, f);
  }

  /** Building counts, joins and orders; what comes out is sound. */
  method BuildGrowthTree(f: Files) returns (trunk: Branch)
    ensures Grown(trunk, f) && Sound(trunk, f)
  {
    hide TreeAt, Sum, WithDirs, Sound, Sorted, ChildPaths;
    var builder := new Builder();
    var lines := builder.Each(f.lines, map[]);
    var base := builder.Each(f.base, map[]);
    var added := builder.Each(f.added, map[]);
    var removed := builder.Each(f.removed, map[]);
    var t := Totals(lines, base, added, removed);
    FoldersOfAll(f);
    var root := builder.Assemble([], t);
    var below := Compress(root.children);
    var sorted := SortChildren(below);
    trunk := root.(children := sorted);
    assert TotalsOf(t, f) && trunk == GrownFrom(Folders(f), t);
    GrownIsSound(trunk, f);
  }
}
