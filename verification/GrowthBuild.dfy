/** Building the growth tree (buildGrowthTree): every folder counts the files below it, chains of single
    folders are joined, and branches are put in order. Files come in the order a map gives them. */
module GrowthBuild {
  import opened GrowthTree

  /** A counted file, by the names on the way to it, and a number of it. */
  datatype Entry = Entry(file: Path, value: nat)

  function Dir(file: Path): Path { if file == [] then [] else file[..|file| - 1] }

  /** What the files at or below d come to. */
  function Sum(files: seq<Entry>, d: Path): nat {
    if files == [] then 0 else (if d <= Dir(files[0].file) then files[0].value else 0) + Sum(files[1..], d)
  }

  function At(t: map<Path, nat>, d: Path): nat { if d in t then t[d] else 0 }

  /** The folders made so far, in the order they were made, with dir and what is above it. */
  function WithDir(dirs: seq<Path>, dir: Path): (r: seq<Path>)
    ensures dir in r && dirs <= r
    decreases |dir|
  {
    if dir in dirs then dirs
    else if dir == [] then dirs + [dir]
    else WithDir(dirs, Dir(dir)) + [dir]
  }

  function WithDirs(dirs: seq<Path>, files: seq<Entry>): seq<Path>
    decreases |files|
  {
    if files == [] then dirs else WithDirs(WithDir(dirs, Dir(files[0].file)), files[1..])
  }

  /** The folders' nodes while the tree is built: each made once, and hung under the one above it. */
  class Builder {
    var dirs: seq<Path>
    var children: map<Path, seq<Path>>

    constructor ()
      ensures Valid() && dirs == [[]]
    {
      dirs, children := [[]], map[];
      new;
      forall d
        ensures ChildPaths(dirs, d) == []
      {
        assert dirs[1..] == [];
      }
    }

    /** What hangs under a folder is the folders made in it, in the order they were made. */
    ghost predicate Valid()
      reads this
    {
      [] in dirs && Hung(children, dirs)
    }

    method Node(dir: Path)
      requires Valid()
      modifies this
      ensures Valid() && dirs == WithDir(old(dirs), dir)
      decreases |dir|
    {
      hide Hung;
      if dir !in dirs {
        Node(Dir(dir));
        HungMore(children, dirs, dir);
        children := children[Dir(dir) := Listed(children, Dir(dir)) + [dir]];
        dirs := dirs + [dir];
      }
    }

    /** Adds each file to its folder and every one above it. */
    method Each(files: seq<Entry>, before: map<Path, nat>) returns (totals: map<Path, nat>)
      requires Valid()
      modifies this
      ensures Valid() && dirs == WithDirs(old(dirs), files)
      ensures forall d :: At(totals, d) == At(before, d) + Sum(files, d)
    {
      hide WithDir, Valid;
      totals := before;
      for i := 0 to |files|
        invariant Valid() && WithDirs(dirs, files[i..]) == WithDirs(old(dirs), files)
        invariant forall d :: At(totals, d) + Sum(files[i..], d) == At(before, d) + Sum(files, d)
      {
        assert files[i..][1..] == files[i + 1..];
        Node(Dir(files[i].file));
        totals := Climb(totals, Dir(files[i].file), files[i].value);
      }
      assert files[|files|..] == [];
    }

    /** The node of d with all that hangs under it. */
    method Assemble(d: Path, t: Totals) returns (b: Branch)
      requires Valid()
      ensures b == TreeAt(d, dirs, t)
      decreases Room(dirs, d)
    {
      hide Tallest, ChildPaths, Trees;
      var ps := Listed(children, d);
      var below: seq<Branch> := [];
      TreesNone(d, dirs, t);
      for i := |ps| downto 0
        invariant forall p :: p in ps[i..] ==> p in dirs && ChildOf(p, d)
        invariant below == Trees(ps[i..], d, dirs, t)
      {
        assert ps[i] in ps;
        RoomShrinks(dirs, d, ps[i]);
        var k := Assemble(ps[i], t);
        TreesMore(ps[i..], d, dirs, t);
        assert ps[i..][1..] == ps[i + 1..];
        below := [k] + below;
      }
      assert ps[0..] == ps;
      var name := if d == [] then [] else [d[|d| - 1]];
      b := Branch(d, name, At(t.lines, d), At(t.base, d), At(t.added, d), At(t.removed, d), false, below);
    }
  }

  function Listed(children: map<Path, seq<Path>>, d: Path): seq<Path> { if d in children then children[d] else [] }

  ghost predicate Hung(children: map<Path, seq<Path>>, dirs: seq<Path>) {
    forall d :: Listed(children, d) == ChildPaths(dirs, d)
  }

  lemma HungMore(children: map<Path, seq<Path>>, dirs: seq<Path>, dir: Path)
    requires Hung(children, dirs) && dir != []
    ensures Hung(children[Dir(dir) := Listed(children, Dir(dir)) + [dir]], dirs + [dir])
  {
    hide ChildPaths, ChildOf;
    var now := children[Dir(dir) := Listed(children, Dir(dir)) + [dir]];
    forall d
      ensures Listed(now, d) == ChildPaths(dirs + [dir], d)
    {
      ChildPathsMore(dirs, dir, d);
      assert Listed(children, d) + [] == Listed(children, d);
    }
  }

  lemma {:induction false} ChildPathsMore(dirs: seq<Path>, c: Path, d: Path)
    ensures ChildPaths(dirs + [c], d) == ChildPaths(dirs, d) + if ChildOf(c, d) then [c] else []
    ensures c != [] ==> (ChildOf(c, d) <==> d == Dir(c))
    ensures c == [] ==> !ChildOf(c, d)
  {
    hide ChildOf;
    ChildOfDir(c, d);
    if dirs == [] {
      assert dirs + [c] == [c] && [c][1..] == [];
    } else {
      assert (dirs + [c])[0] == dirs[0] && (dirs + [c])[1..] == dirs[1..] + [c];
      ChildPathsMore(dirs[1..], c, d);
      ThreeInARow(if ChildOf(dirs[0], d) then [dirs[0]] else [], ChildPaths(dirs[1..], d),
                  if ChildOf(c, d) then [c] else []);
    }
  }

  lemma ThreeInARow(x: seq<Path>, y: seq<Path>, z: seq<Path>)
    ensures x + (y + z) == (x + y) + z
  {
  }

  lemma ChildOfDir(c: Path, d: Path)
    ensures c != [] ==> (ChildOf(c, d) <==> d == Dir(c))
    ensures c == [] ==> !ChildOf(c, d)
  {
    if c != [] && ChildOf(c, d) {
      assert d == c[..|d|];
    }
  }

  lemma {:induction false} TreesNone(d: Path, dirs: seq<Path>, t: Totals)
    ensures Trees([], d, dirs, t) == []
  {
  }

  lemma {:induction false} TreesMore(ps: seq<Path>, d: Path, dirs: seq<Path>, t: Totals)
    requires ps != [] && ps[0] in dirs && ChildOf(ps[0], d)
    requires forall p :: p in ps[1..] ==> p in dirs && ChildOf(p, d)
    ensures forall p :: p in ps ==> p in dirs && ChildOf(p, d)
    ensures Trees(ps, d, dirs, t) == [TreeAt(ps[0], dirs, t)] + Trees(ps[1..], d, dirs, t)
  {
    hide ChildOf, Tallest, TreeAt;
    assert ps == [ps[0]] + ps[1..];
  }

  method Climb(before: map<Path, nat>, dir: Path, v: nat) returns (totals: map<Path, nat>)
    ensures forall d :: At(totals, d) == At(before, d) + if d <= dir then v else 0
  {
    totals := before;
    var n := dir;
    while true
      invariant n <= dir
      invariant forall d :: At(totals, d) == At(before, d) + if d <= dir && |d| > |n| then v else 0
      decreases |n|
    {
      totals := totals[n := At(totals, n) + v];
      forall d
        ensures At(totals, d) == At(before, d) + if d <= dir && |d| >= |n| then v else 0
      {
        if d <= dir && |d| == |n| {
          assert d == n;
        }
      }
      if n == [] {
        return;
      }
      n := Dir(n);
    }
  }

  // ---- the tree of the folders ----

  datatype Totals = Totals(lines: map<Path, nat>, base: map<Path, nat>, added: map<Path, nat>, removed: map<Path, nat>)

  predicate ChildOf(c: Path, d: Path) { |c| == |d| + 1 && d <= c }

  function ChildPaths(dirs: seq<Path>, d: Path): (r: seq<Path>)
    ensures forall c :: c in r <==> c in dirs && ChildOf(c, d)
  {
    if dirs == [] then []
    else (if ChildOf(dirs[0], d) then [dirs[0]] else []) + ChildPaths(dirs[1..], d)
  }

  function Tallest(dirs: seq<Path>): (n: nat)
    ensures forall d :: d in dirs ==> |d| <= n
  {
    if dirs == [] then 0
    else
      var rest := Tallest(dirs[1..]);
      if |dirs[0]| > rest then |dirs[0]| else rest
  }

  function Room(dirs: seq<Path>, d: Path): nat { if |d| <= Tallest(dirs) then 1 + Tallest(dirs) - |d| else 0 }

  lemma RoomShrinks(dirs: seq<Path>, d: Path, c: Path)
    requires c in dirs && ChildOf(c, d)
    ensures Room(dirs, c) < Room(dirs, d)
  {
    hide Tallest;
    assert |c| <= Tallest(dirs);
  }

  function TreeAt(d: Path, dirs: seq<Path>, t: Totals): Branch
    decreases Room(dirs, d), 1, 0
  {
    var name := if d == [] then [] else [d[|d| - 1]];
    Branch(d, name, At(t.lines, d), At(t.base, d), At(t.added, d), At(t.removed, d), false,
      Trees(ChildPaths(dirs, d), d, dirs, t))
  }

  function Trees(ps: seq<Path>, d: Path, dirs: seq<Path>, t: Totals): (r: seq<Branch>)
    requires forall p :: p in ps ==> p in dirs && ChildOf(p, d)
    ensures |r| == |ps|
    decreases Room(dirs, d), 0, |ps|
  {
    if ps == [] then []
    else
      RoomShrinks(dirs, d, ps[0]);
      [TreeAt(ps[0], dirs, t)] + Trees(ps[1..], d, dirs, t)
  }

  /** The code files counted now and at first, and what this session's edits added and removed. */
  datatype Files = Files(lines: seq<Entry>, base: seq<Entry>, added: seq<Entry>, removed: seq<Entry>)

  ghost predicate TotalsOf(t: Totals, f: Files) {
    forall d :: At(t.lines, d) == Sum(f.lines, d) && At(t.base, d) == Sum(f.base, d)
             && At(t.added, d) == Sum(f.added, d) && At(t.removed, d) == Sum(f.removed, d)
  }

  predicate Counts(k: Branch, f: Files) {
    && k.lines == Sum(f.lines, k.path) && k.base == Sum(f.base, k.path)
    && k.added == Sum(f.added, k.path) && k.removed == Sum(f.removed, k.path)
  }

  /** Each branch counts exactly the files at or below its path. */
  predicate Exact(ks: seq<Branch>, f: Files) {
    ks != [] ==> Counts(ks[0], f) && Exact(ks[0].children, f) && Exact(ks[1..], f)
  }

  /** Each branch's name leads from the branch above it. */
  predicate Named(ks: seq<Branch>, above: Path) {
    ks != [] ==>
      && ks[0].path == above + ks[0].name && ks[0].name != []
      && Named(ks[0].children, ks[0].path) && Named(ks[1..], above)
  }

  lemma {:induction false} TreesExact(ps: seq<Path>, d: Path, dirs: seq<Path>, t: Totals, f: Files)
    requires TotalsOf(t, f)
    requires forall p :: p in ps ==> p in dirs && ChildOf(p, d)
    ensures Exact(Trees(ps, d, dirs, t), f) && Named(Trees(ps, d, dirs, t), d)
    decreases Room(dirs, d), |ps|
  {
    hide Tallest, ChildPaths, Counts, TotalsOf, Sum;
    if ps != [] {
      var p := ps[0];
      assert p in ps;
      ChildName(p, d);
      TreesExact(ps[1..], d, dirs, t, f);
      TreeCounts(p, dirs, t, f);
      TreesExact(ChildPaths(dirs, p), p, dirs, t, f);
      TreesFirst(ps, d, dirs, t);
    }
  }

  lemma {:induction false} TreeCounts(p: Path, dirs: seq<Path>, t: Totals, f: Files)
    requires TotalsOf(t, f)
    ensures Counts(TreeAt(p, dirs, t), f)
  {
    hide Trees, Sum, At;
  }

  lemma ChildName(p: Path, d: Path)
    requires ChildOf(p, d)
    ensures p == d + [p[|p| - 1]]
  {
    assert p[..|d|] == d;
  }

  lemma {:induction false} TreesFirst(ps: seq<Path>, d: Path, dirs: seq<Path>, t: Totals)
    requires ps != [] && forall p :: p in ps ==> p in dirs && ChildOf(p, d)
    ensures var r := Trees(ps, d, dirs, t);
            r[0] == TreeAt(ps[0], dirs, t) && r[1..] == Trees(ps[1..], d, dirs, t)
  {
  }
}
