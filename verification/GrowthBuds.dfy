/** Which branch of the growth tree each item of the plan is drawn under (placeBuds). */
module GrowthBuds {
  import opened GrowthBuild
  import opened GrowthGrown
  import opened GrowthMention
  import opened GrowthOpen
  import opened GrowthOrder
  import opened GrowthSpelled
  import opened GrowthTree

  datatype Bud = Bud(id: int, text: string, status: string)

  /** What reading a plan item goes by: where items have been worked on, and lower casing. */
  datatype Reading = Reading(worked: map<int, Path>, lower: string -> string)

  /** Every path of the tree, a branch before those under it. */
  function WalkPaths(ks: seq<Branch>): seq<Path> {
    if ks == [] then [] else [ks[0].path] + WalkPaths(ks[0].children) + WalkPaths(ks[1..])
  }

  lemma {:induction false} WalkIsPaths(ks: seq<Branch>, p: Path)
    ensures p in WalkPaths(ks) <==> p in PathsOf(ks)
  {
    if ks != [] {
      WalkIsPaths(ks[0].children, p);
      WalkIsPaths(ks[1..], p);
    }
  }

  /** The folder of the tree that a text names, [] for none. */
  function MentionedIn(trunk: Branch, text: string, r: Reading): Path {
    Mentioned(text, WalkPaths([trunk]), r.lower, [])
  }

  /** The walk's order does not matter, nor would any other. */
  lemma {:induction false} MentionedInAnyOrder(trunk: Branch, text: string, r: Reading, others: seq<Path>)
    requires forall p :: p in others <==> p in PathsOf([trunk])
    requires forall p :: p in others ==> Clean(p)
    ensures MentionedIn(trunk, text, r) == Mentioned(text, others, r.lower, [])
  {
    hide Mentioned, WalkPaths, PathsOf, Clean;
    forall p
      ensures p in WalkPaths([trunk]) <==> p in others
    {
      WalkIsPaths([trunk], p);
    }
    MentionedWhateverTheOrder(text, WalkPaths([trunk]), others, r.lower);
  }

  // ---- the branch nearest to a folder ----

  /** Some branch with this path stands under an open one, among ks or below. */
  predicate UnderOpen(ks: seq<Branch>, open: set<Path>, x: Path) {
    ks != [] &&
    (|| (ks[0].path in open && exists c :: c in ks[0].children && c.path == x)
     || UnderOpen(ks[0].children, open, x) || UnderOpen(ks[1..], open, x))
  }

  predicate Takes(trunk: Branch, open: set<Path>, x: Path) {
    x == trunk.path || (x in PathsOf(trunk.children) && UnderOpen([trunk], open, x))
  }

  /** The folder itself, else the nearest above it, that the trunk or an open branch holds. */
  function DrawnAt(trunk: Branch, open: set<Path>, dir: Path): (at: Path)
    ensures Takes(trunk, open, at)
    ensures at <= dir || at == trunk.path
    decreases |dir|
  {
    if Takes(trunk, open, dir) then dir else if dir == [] then trunk.path else DrawnAt(trunk, open, Dir(dir))
  }

  /** No folder between takes it. */
  lemma {:induction false} DrawnAtIsNearest(trunk: Branch, open: set<Path>, dir: Path, x: Path)
    requires trunk.path == [] && DrawnAt(trunk, open, dir) < x <= dir
    ensures !Takes(trunk, open, x)
    decreases |dir|
  {
    hide Takes;
    if !Takes(trunk, open, dir) {
      PrefixOfDir(x, dir);
      if x != dir {
        DrawnAtIsNearest(trunk, open, Dir(dir), x);
      }
    }
  }

  // ---- growing a planned branch ----

  function Grow(ks: seq<Branch>, above: Path, s: Branch): (r: seq<Branch>)
    ensures |r| == |ks|
  {
    if ks == [] then []
    else
      var below := Grow(ks[0].children, above, s);
      [ks[0].(children := if ks[0].path == above then below + [s] else below)] + Grow(ks[1..], above, s)
  }

  /** The deepest folder of the tree above dir. */
  function DeepestAbove(all: set<Path>, dir: Path): (r: Path)
    requires [] in all
    ensures r in all && r <= dir
    ensures dir !in all ==> r < dir
    decreases |dir|
  {
    if dir in all then dir else assert dir != []; DeepestAbove(all, Dir(dir))
  }

  function Planted(trunk: Branch, dir: Path): Branch
    requires trunk.path == []
  {
    var all := PathsOf([trunk]);
    if dir in all then trunk
    else
      var above := DeepestAbove(all, dir);
      Grow([trunk], above, Branch(dir, dir[|above|..], 0, 0, 0, 0, true, []))[0]
  }

  function Extra(ks: seq<Branch>, above: Path, s: Branch): set<Path> { if above in PathsOf(ks) then {s.path} else {} }

  lemma {:induction false} GrowPaths(ks: seq<Branch>, above: Path, s: Branch)
    requires Distinct(ks) && s.children == [] && s.path !in PathsOf(ks)
    ensures Distinct(Grow(ks, above, s))
    ensures PathsOf(Grow(ks, above, s)) == PathsOf(ks) + Extra(ks, above, s)
  {
    hide PathsOf, Distinct, Extra;
    if ks == [] {
      GrowNone(above, s);
    } else {
      var k := ks[0];
      assert ks == [k] + ks[1..];
      ConsPaths(k, ks[1..]);
      GrowPaths(k.children, above, s);
      GrowPaths(ks[1..], above, s);
      GrowFirst(k, ks[1..], above, s);
    }
  }

  lemma {:induction false} GrowFirst(k: Branch, rest: seq<Branch>, above: Path, s: Branch)
    requires Distinct([k] + rest) && s.children == [] && s.path !in PathsOf([k] + rest)
    requires var below, more := Grow(k.children, above, s), Grow(rest, above, s);
             && Distinct(below) && PathsOf(below) == PathsOf(k.children) + Extra(k.children, above, s)
             && Distinct(more) && PathsOf(more) == PathsOf(rest) + Extra(rest, above, s)
    ensures Distinct(Grow([k] + rest, above, s))
    ensures PathsOf(Grow([k] + rest, above, s)) == PathsOf([k] + rest) + Extra([k] + rest, above, s)
  {
    hide PathsOf, Distinct, Extra;
    assert ([k] + rest)[1..] == rest;
    var below, more := Grow(k.children, above, s), Grow(rest, above, s);
    ConsPaths(k, rest);
    ExtraParts(k, rest, above, s);
    if k.path == above {
      AppendPath(below, s);
      ConsPaths(k.(children := below + [s]), more);
    } else {
      ConsPaths(k.(children := below), more);
    }
  }

  lemma {:induction false} GrowNone(above: Path, s: Branch)
    ensures Distinct(Grow([], above, s)) && PathsOf(Grow([], above, s)) == PathsOf([]) + Extra([], above, s)
  {
  }

  lemma {:induction false} ExtraParts(k: Branch, rest: seq<Branch>, above: Path, s: Branch)
    requires Distinct([k] + rest)
    ensures if k.path == above then Extra(k.children, above, s) == {} && Extra(rest, above, s) == {}
              && Extra([k] + rest, above, s) == {s.path}
            else Extra([k] + rest, above, s) == Extra(k.children, above, s) + Extra(rest, above, s)
    ensures Extra(k.children, above, s) == {} || Extra(rest, above, s) == {}
    ensures Extra(k.children, above, s) <= {s.path} && Extra(rest, above, s) <= {s.path}
  {
    ConsPaths(k, rest);
  }

  lemma {:induction false} AppendPath(ks: seq<Branch>, s: Branch)
    requires Distinct(ks) && s.children == [] && s.path !in PathsOf(ks)
    ensures Distinct(ks + [s]) && PathsOf(ks + [s]) == PathsOf(ks) + {s.path}
  {
    if ks == [] {
      assert [s][1..] == [];
    } else {
      assert (ks + [s])[1..] == ks[1..] + [s];
      AppendPath(ks[1..], s);
    }
  }

  /** Planting makes exactly the folder asked for, under the deepest one above it. */
  lemma PlantedPaths(trunk: Branch, dir: Path)
    requires trunk.path == [] && Distinct([trunk])
    ensures var r := Planted(trunk, dir);
            r.path == [] && Distinct([r]) && PathsOf([r]) == PathsOf([trunk]) + {dir}
  {
    var all := PathsOf([trunk]);
    assert [] in all;
    if dir !in all {
      var above := DeepestAbove(all, dir);
      var s := Branch(dir, dir[|above|..], 0, 0, 0, 0, true, []);
      GrowPaths([trunk], above, s);
      assert Grow([trunk], above, s) == [Planted(trunk, dir)];
    }
  }

  /** Some branch with path p, among ks or below, has s on it. */
  predicate HangsOn(ks: seq<Branch>, p: Path, s: Branch) {
    ks != [] &&
    ((ks[0].path == p && s in ks[0].children) || HangsOn(ks[0].children, p, s) || HangsOn(ks[1..], p, s))
  }

  lemma {:induction false} GrownHangs(ks: seq<Branch>, p: Path, s: Branch)
    requires p in PathsOf(ks)
    ensures HangsOn(Grow(ks, p, s), p, s)
  {
    var g := Grow(ks, p, s);
    assert g[1..] == Grow(ks[1..], p, s);
    if ks[0].path == p {
    } else if p in PathsOf(ks[0].children) {
      GrownHangs(ks[0].children, p, s);
    } else {
      GrownHangs(ks[1..], p, s);
    }
  }

  lemma {:induction false} DeepestIsLast(all: set<Path>, dir: Path, x: Path)
    requires [] in all && x in all && x <= dir
    ensures x <= DeepestAbove(all, dir)
    decreases |dir|
  {
    if dir !in all {
      PrefixOfDir(x, dir);
      DeepestIsLast(all, Dir(dir), x);
    }
  }

  /** A folder planted is new and empty, marked as planned, and hangs on the deepest folder of the tree that is
      above it, named from there. */
  lemma {:induction false} PlantedOnDeepest(trunk: Branch, dir: Path) returns (above: Path)
    requires trunk.path == [] && dir !in PathsOf([trunk])
    ensures above in PathsOf([trunk]) && above < dir
    ensures forall x :: x in PathsOf([trunk]) && x <= dir ==> x <= above
    ensures HangsOn([Planted(trunk, dir)], above, Branch(dir, dir[|above|..], 0, 0, 0, 0, true, []))
  {
    hide Grow, HangsOn, DeepestAbove;
    var all := PathsOf([trunk]);
    assert [] in all;
    above := DeepestAbove(all, dir);
    var s := Branch(dir, dir[|above|..], 0, 0, 0, 0, true, []);
    forall x | x in all && x <= dir
      ensures x <= above
    {
      DeepestIsLast(all, dir, x);
    }
    GrownHangs([trunk], above, s);
    assert Grow([trunk], above, s) == [Planted(trunk, dir)];
  }

  // ---- placing the plan ----

  /** The tree once a plan item has been read: with the folder it names, when it names a new one. */
  function TreeFor(trunk: Branch, b: Bud, r: Reading): (t: Branch)
    requires trunk.path == []
    ensures t.path == []
  {
    if b.id in r.worked || MentionedIn(trunk, b.text, r) != [] || SpelledOut(b.text) == [] then trunk
    else Planted(trunk, SpelledOut(b.text))
  }

  function FolderFor(trunk: Branch, b: Bud, r: Reading): Path {
    if b.id in r.worked then Dir(r.worked[b.id])
    else
      var m := MentionedIn(trunk, b.text, r);
      if m != [] then m else SpelledOut(b.text)
  }

  function TreeAfter(trunk: Branch, plan: seq<Bud>, r: Reading): (t: Branch)
    requires trunk.path == []
    ensures t.path == []
    decreases |plan|
  {
    if plan == [] then trunk else TreeAfter(TreeFor(trunk, plan[0], r), plan[1..], r)
  }

  /** The branch each plan item goes on. */
  function Places(trunk: Branch, open: set<Path>, plan: seq<Bud>, r: Reading): (ats: seq<Path>)
    requires trunk.path == []
    ensures |ats| == |plan|
    decreases |plan|
  {
    if plan == [] then []
    else
      var t := TreeFor(trunk, plan[0], r);
      [DrawnAt(t, open, FolderFor(trunk, plan[0], r))] + Places(t, open, plan[1..], r)
  }

  /** The items that go on one branch, in the plan's order. */
  function Choose(plan: seq<Bud>, ats: seq<Path>, at: Path): seq<Bud>
    requires |ats| == |plan|
  {
    if plan == [] then [] else (if ats[0] == at then [plan[0]] else []) + Choose(plan[1..], ats[1..], at)
  }

  lemma {:induction false} ChooseConcat(a: seq<Bud>, before: seq<Path>, c: seq<Bud>, after: seq<Path>, p: Path)
    requires |a| == |before| && |c| == |after|
    ensures Choose(a + c, before + after, p) == Choose(a, before, p) + Choose(c, after, p)
  {
    hide Choose;
    if a == [] {
      assert a + c == c && before + after == after;
      NothingChosen(p);
      assert [] + Choose(c, after, p) == Choose(c, after, p);
    } else {
      assert (a + c)[1..] == a[1..] + c && (before + after)[1..] == before[1..] + after;
      ChooseConcat(a[1..], before[1..], c, after, p);
      FirstChosen(a, before, p);
      FirstChosen(a + c, before + after, p);
      var first := if before[0] == p then [a[0]] else [];
      assert first + (Choose(a[1..], before[1..], p) + Choose(c, after, p)) ==
             first + Choose(a[1..], before[1..], p) + Choose(c, after, p);
    }
  }

  lemma {:induction false} NothingChosen(p: Path)
    ensures Choose([], [], p) == []
  {
  }

  lemma {:induction false} FirstChosen(plan: seq<Bud>, ats: seq<Path>, p: Path)
    requires plan != [] && |plan| == |ats|
    ensures Choose(plan, ats, p) == (if ats[0] == p then [plan[0]] else []) + Choose(plan[1..], ats[1..], p)
  {
  }

  /** Each item is chosen for its own place, between those before it and those after. */
  lemma {:induction false} ChosenInOrder(a: seq<Bud>, before: seq<Path>, b: Bud, at: Path, c: seq<Bud>,
                                         after: seq<Path>, p: Path)
    requires |a| == |before| && |c| == |after|
    ensures Choose(a + [b] + c, before + [at] + after, p) ==
            Choose(a, before, p) + (if at == p then [b] else []) + Choose(c, after, p)
  {
    ChooseConcat(a + [b], before + [at], c, after, p);
    ChooseConcat(a, before, [b], [at], p);
    ChosenOne(b, at, p);
  }

  lemma {:induction false} ChosenOne(b: Bud, at: Path, p: Path)
    ensures Choose([b], [at], p) == if at == p then [b] else []
  {
    assert [b][1..] == [] && [at][1..] == [];
  }

  function BudsOn(buds: map<Path, seq<Bud>>, at: Path): seq<Bud> { if at in buds then buds[at] else [] }

  /** Where one item belongs: the file it was worked in, else a folder it names, else a planned one. */
  method Target(trunk: Branch, b: Bud, r: Reading) returns (grown: Branch, folder: Path)
    requires trunk.path == []
    ensures grown == TreeFor(trunk, b, r) && folder == FolderFor(trunk, b, r)
  {
    hide Mentioned, Planted, WalkPaths, SpelledOut;
    grown, folder := trunk, [];
    var mentioned := MentionedDir(b.text, WalkPaths([trunk]), r.lower);
    if b.id in r.worked {
      folder := Dir(r.worked[b.id]);
    } else if mentioned != [] {
      folder := mentioned;
    } else if SpelledOut(b.text) != [] {
      folder := SpelledOut(b.text);
      grown := Planted(trunk, folder);
    }
  }

  /** No name in the tree holds a slash. */
  ghost predicate AllClean(trunk: Branch) { forall p :: p in PathsOf([trunk]) ==> Clean(p) }

  /** An item goes to the folder of the file recorded for it, whatever its text says; without one, to the best
      of the tree's folders its text names; when it names none, to the one it spells out, which is then in the
      tree; and with none of these to the trunk. */
  lemma {:induction false} FolderOrder(trunk: Branch, b: Bud, r: Reading)
    requires trunk.path == [] && Distinct([trunk]) && AllClean(trunk)
    ensures var folder, t := FolderFor(trunk, b, r), TreeFor(trunk, b, r);
            if b.id in r.worked then
              var file := r.worked[b.id];
              t == trunk && folder == if file == [] then [] else file[..|file| - 1]
            else if exists p :: p in PathsOf([trunk]) && p != [] && Names(b.text, p, r.lower) then
              && t == trunk && folder in PathsOf([trunk]) && folder != [] && Names(b.text, folder, r.lower)
              && forall p :: p in PathsOf([trunk]) && p != [] && Names(b.text, p, r.lower) ==> !Better(p, folder)
            else
              folder == SpelledOut(b.text) && PathsOf([t]) == PathsOf([trunk]) + if folder == [] then {} else {folder}
  {
    hide Names, Better, Mentioned, Planted, SpelledOut, PathsOf, Distinct, Clean;
    if b.id !in r.worked {
      BestInTree(trunk, b.text, r);
      PlantedPaths(trunk, SpelledOut(b.text));
    }
  }

  lemma {:induction false} BestInTree(trunk: Branch, text: string, r: Reading)
    requires AllClean(trunk)
    ensures var m := MentionedIn(trunk, text, r);
            && (m != [] ==> m in PathsOf([trunk]) && Names(text, m, r.lower))
            && (forall p :: p in PathsOf([trunk]) && p != [] && Names(text, p, r.lower) ==> m != [] && !Better(p, m))
  {
    hide Names, Better, Mentioned, PathsOf, WalkPaths, Clean;
    forall p
      ensures p in WalkPaths([trunk]) <==> p in PathsOf([trunk])
    {
      WalkIsPaths([trunk], p);
    }
    CleanTrunk();
    MentionedIsBest(text, WalkPaths([trunk]), r.lower, []);
    forall p | p in PathsOf([trunk]) && p != [] && Names(text, p, r.lower)
      ensures MentionedIn(trunk, text, r) != [] && !Better(p, MentionedIn(trunk, text, r))
    {
      assert Candidate(text, WalkPaths([trunk]), r.lower, p);
      AnyIsBetter(p);
    }
  }

  lemma {:induction false} CleanTrunk()
    ensures Clean([])
  {
  }

  lemma {:induction false} AnyIsBetter(p: Path)
    requires p != []
    ensures Better(p, [])
  {
  }

  class Planting {
    const open: set<Path>
    var trunk: Branch
    var buds: map<Path, seq<Bud>>

    constructor (trunk: Branch, open: set<Path>)
      ensures this.trunk == trunk && this.open == open && buds == map[]
    {
      this.trunk, this.open, buds := trunk, open, map[];
    }

    /** Every item goes on one branch, after those that were there, in the plan's order. */
    method PlaceBuds(plan: seq<Bud>, r: Reading)
      requires trunk.path == []
      modifies this
      ensures trunk == TreeAfter(old(trunk), plan, r)
      ensures forall p :: BudsOn(buds, p) == BudsOn(old(buds), p) + Choose(plan, Places(old(trunk), open, plan, r), p)
    {
      hide DrawnAt, TreeFor, FolderFor, TreeAfter, Places, Choose, Planted, MentionedIn;
      ghost var ats := Places(trunk, open, plan, r);
      assert plan[0..] == plan && ats[0..] == ats;
      for i := 0 to |plan|
        invariant trunk.path == []
        invariant TreeAfter(trunk, plan[i..], r) == TreeAfter(old(trunk), plan, r)
        invariant Places(trunk, open, plan[i..], r) == ats[i..]
        invariant forall p :: BudsOn(buds, p) + Choose(plan[i..], ats[i..], p) ==
                    BudsOn(old(buds), p) + Choose(plan, ats, p)
      {
        var b := plan[i];
        ghost var before := buds;
        assert plan[i..][0] == b && plan[i..][1..] == plan[i + 1..];
        PlacesFirst(trunk, open, plan[i..], r);
        var grown, folder := Target(trunk, b, r);
        trunk := grown;
        var at := DrawnAt(trunk, open, folder);
        assert ats[i] == ats[i..][0] == at && ats[i..][1..] == ats[i + 1..];
        buds := buds[at := BudsOn(buds, at) + [b]];
        forall p
          ensures BudsOn(buds, p) + Choose(plan[i + 1..], ats[i + 1..], p) ==
                  BudsOn(old(buds), p) + Choose(plan, ats, p)
        {
          ChooseNext(BudsOn(before, p), plan[i..], ats[i..], p);
        }
      }
      forall p
        ensures BudsOn(buds, p) == BudsOn(old(buds), p) + Choose(plan, ats, p)
      {
        ChooseNone(BudsOn(buds, p), plan[|plan|..], ats[|plan|..], p);
      }
      TreeAfterNone(trunk, plan[|plan|..], r);
    }
  }

  lemma {:induction false} TreeAfterNone(trunk: Branch, plan: seq<Bud>, r: Reading)
    requires trunk.path == [] && plan == []
    ensures TreeAfter(trunk, plan, r) == trunk
  {
  }

  lemma {:induction false} PlacesFirst(trunk: Branch, open: set<Path>, plan: seq<Bud>, r: Reading)
    requires trunk.path == [] && plan != []
    ensures var t := TreeFor(trunk, plan[0], r);
            && TreeAfter(trunk, plan, r) == TreeAfter(t, plan[1..], r)
            && Places(trunk, open, plan, r)[0] == DrawnAt(t, open, FolderFor(trunk, plan[0], r))
            && Places(trunk, open, plan, r)[1..] == Places(t, open, plan[1..], r)
  {
    hide DrawnAt, TreeFor, FolderFor;
  }

  lemma {:induction false} ChooseNext(before: seq<Bud>, plan: seq<Bud>, ats: seq<Path>, p: Path)
    requires |plan| == |ats| && plan != []
    ensures before + Choose(plan, ats, p) ==
            (if ats[0] == p then before + [plan[0]] else before) + Choose(plan[1..], ats[1..], p)
  {
    assert [] + Choose(plan[1..], ats[1..], p) == Choose(plan[1..], ats[1..], p);
  }

  lemma {:induction false} ChooseNone(before: seq<Bud>, plan: seq<Bud>, ats: seq<Path>, p: Path)
    requires |plan| == |ats| && plan == []
    ensures before + Choose(plan, ats, p) == before
  {
  }

  /** Reading the plan takes no branch out of the tree, and every item's branch is in it. */
  lemma {:induction false} PlacesStand(trunk: Branch, open: set<Path>, plan: seq<Bud>, r: Reading)
    requires trunk.path == [] && Distinct([trunk])
    ensures var t := TreeAfter(trunk, plan, r);
            && Distinct([t]) && PathsOf([trunk]) <= PathsOf([t])
            && (forall i :: 0 <= i < |plan| ==> Places(trunk, open, plan, r)[i] in PathsOf([t]))
            && (AllClean(trunk) ==> AllClean(t))
    decreases |plan|
  {
    hide DrawnAt, PathsOf, Distinct, Planted, UnderOpen, Clean, SpelledOut, MentionedIn;
    if plan != [] {
      var t := TreeFor(trunk, plan[0], r);
      PlantedPaths(trunk, SpelledOut(plan[0].text));
      SpelledIsClean(plan[0].text);
      PlacesStand(t, open, plan[1..], r);
      PlacesFirst(trunk, open, plan, r);
      TrunkPaths(t);
      var ats := Places(trunk, open, plan, r);
      forall i | 0 <= i < |plan|
        ensures ats[i] in PathsOf([TreeAfter(trunk, plan, r)])
      {
        if i > 0 {
          assert ats[i] == ats[1..][i - 1];
        }
      }
    }
  }

  lemma TrunkPaths(t: Branch)
    ensures PathsOf([t]) == {t.path} + PathsOf(t.children)
  {
    assert [t][1..] == [];
  }
}
