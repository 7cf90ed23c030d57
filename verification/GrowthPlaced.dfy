/** Whether the branch that a plan item goes on is drawn. */
module GrowthPlaced {
  import opened GrowthBuds
  import opened GrowthGrown
  import opened GrowthOpen
  import opened GrowthSpelled
  import opened GrowthTree

  // ---- whether a branch is shown ----

  function VisibleBefore(ks: seq<Branch>, i: nat): nat
    requires i <= |ks|
  {
    if i == 0 then 0 else (if Visible(ks[0]) then 1 else 0) + VisibleBefore(ks[1..], i - 1)
  }

  /** A branch is shown exactly when it is worth showing and there is room for it; a branch with its path
      is shown nowhere else. */
  lemma {:induction false} ShownWhenRoom(ks: seq<Branch>, room: nat, i: nat)
    requires Distinct(ks) && i < |ks|
    ensures ks[i] in Shown(ks, room) <==> Visible(ks[i]) && VisibleBefore(ks, i) < room
    ensures ks[i].path in PathsOf(Shown(ks, room)) <==> ks[i] in Shown(ks, room)
  {
    hide Visible, Shown, PathsOf, Distinct, VisibleBefore;
    var k, rest := ks[0], ks[1..];
    assert ks == [k] + rest;
    ConsPaths(k, rest);
    ShownStep(ks, room, i);
    if !Visible(k) {
      HeadNotShown(k, rest, room);
      if i > 0 {
        ShownWhenRoom(rest, room, i - 1);
      }
    } else if room > 0 {
      HeadNotShown(k, rest, room - 1);
      ConsPaths(k, Shown(rest, room - 1));
      if i > 0 {
        InPaths(rest, ks[i]);
        ShownWhenRoom(rest, room - 1, i - 1);
      }
    }
  }

  lemma ShownStep(ks: seq<Branch>, room: nat, i: nat)
    requires i < |ks|
    ensures Shown(ks, room) ==
            if !Visible(ks[0]) then Shown(ks[1..], room)
            else if room == 0 then [] else [ks[0]] + Shown(ks[1..], room - 1)
    ensures VisibleBefore(ks, i) ==
            if i == 0 then 0 else (if Visible(ks[0]) then 1 else 0) + VisibleBefore(ks[1..], i - 1)
    ensures PathsOf([]) == {}
  {
    hide Visible;
  }

  lemma {:induction false} HeadNotShown(k: Branch, rest: seq<Branch>, room: nat)
    requires Distinct([k] + rest)
    ensures k.path !in PathsOf(Shown(rest, room)) && k !in Shown(rest, room)
    ensures Distinct(rest) && PathsOf(Shown(rest, room)) <= PathsOf(rest)
    ensures PathsOf(k.children) !! PathsOf(rest) && k.path !in PathsOf(rest)
  {
    hide Visible, Shown;
    ConsPaths(k, rest);
    ShownPaths(rest, room);
    NotAmong(Shown(rest, room), k);
  }

  lemma {:induction false} NotAmong(ks: seq<Branch>, k: Branch)
    requires k.path !in PathsOf(ks)
    ensures k !in ks
  {
    if k in ks {
      InPaths(ks, k);
    }
  }

  /** The folder of p is an open branch, drawn among ks or below. */
  ghost predicate DrawnOpen(ks: seq<Branch>, open: set<Path>, d: nat, p: Branch, l: nat) {
    (p, l) in Drawn(ks, open, d) && p.path in open
  }

  lemma {:induction false} ListedDrawn(ks: seq<Branch>, open: set<Path>, d: nat, k: Branch)
    requires k in ks
    ensures (k, d) in Drawn(ks, open, d)
    decreases |ks|
  {
    if k != ks[0] {
      ListedDrawn(ks[1..], open, d, k);
    }
  }

  lemma {:induction false} ShownUnderOpen(ks: seq<Branch>, room: nat, open: set<Path>, x: Path)
    requires UnderOpen(Shown(ks, room), open, x)
    ensures UnderOpen(ks, open, x)
  {
    hide Visible;
    var r := Shown(ks, room);
    if !Visible(ks[0]) {
      ShownUnderOpen(ks[1..], room, open, x);
    } else {
      assert r[0] == ks[0] && r[1..] == Shown(ks[1..], room - 1);
      if UnderOpen(r[1..], open, x) {
        ShownUnderOpen(ks[1..], room - 1, open, x);
      }
    }
  }

  /** The branches in an open one take buds, and those shown are drawn. */
  lemma {:induction false} DrawnBelow(ks: seq<Branch>, open: set<Path>, d: nat, p: Branch, l: nat, c: Branch)
    requires DrawnOpen(ks, open, d, p, l) && c in p.children
    ensures UnderOpen(ks, open, c.path)
    ensures c in Kids(p) ==> (c, l + 1) in Drawn(ks, open, d)
    decreases Size(ks)
  {
    hide Kids, Drawn;
    DrawnWhere(ks, open, d, (p, l));
    var h := ks[0];
    DrawnFirst(ks, open, d);
    UnderOne(h, open, d);
    if (p, l) == (h, d) {
      if c in Kids(p) {
        ListedDrawn(Kids(p), open, d + 1, c);
      }
    } else if h.path in open && (p, l) in Drawn(Kids(h), open, d + 1) {
      DrawnBelow(Kids(h), open, d + 1, p, l, c);
      KidsUnderOpen(h, open, c.path);
    } else {
      DrawnBelow(ks[1..], open, d, p, l, c);
    }
  }

  lemma {:induction false} KidsUnderOpen(h: Branch, open: set<Path>, x: Path)
    requires UnderOpen(Kids(h), open, x)
    ensures UnderOpen(h.children, open, x)
  {
    ShownUnderOpen(h.children, MAX_BRANCHES, open, x);
  }

  /** A branch in an open one that is not shown there is not drawn at all. */
  lemma {:induction false} HiddenBelow(ks: seq<Branch>, open: set<Path>, d: nat, p: Branch, l: nat, i: nat,
                                       x: (Branch, nat))
    requires Distinct(ks) && DrawnOpen(ks, open, d, p, l) && i < |p.children| && p.children[i] !in Kids(p)
    requires x in Drawn(ks, open, d)
    ensures x.0.path != p.children[i].path
    decreases Size(ks)
  {
    hide Kids, Drawn, PathsOf;
    DrawnWhere(ks, open, d, (p, l));
    DrawnWhere(ks, open, d, x);
    var h, t := ks[0], ks[1..];
    assert ks == [h] + t;
    ConsPaths(h, t);
    KidsPaths(h);
    InPaths(p.children, p.children[i]);
    if x in Drawn(t, open, d) {
      DrawnPaths(t, open, d, x);
      if (p, l) in Drawn(t, open, d) {
        HiddenBelow(t, open, d, p, l, i, x);
      } else if (p, l) != (h, d) {
        DrawnPaths(Kids(h), open, d + 1, (p, l));
      }
    } else {
      if (p, l) in Drawn(t, open, d) {
        DrawnPaths(t, open, d, (p, l));
        HiddenElsewhere(h, open, d, x);
      } else if x == (h, d) {
        if (p, l) != (h, d) {
          DrawnPaths(Kids(h), open, d + 1, (p, l));
        }
      } else if (p, l) == (h, d) {
        DrawnPaths(Kids(h), open, d + 1, x);
        KidsPathsHidden(h, i);
      } else {
        HiddenBelow(Kids(h), open, d + 1, p, l, i, x);
      }
    }
  }

  lemma {:induction false} HiddenElsewhere(h: Branch, open: set<Path>, d: nat, x: (Branch, nat))
    requires x == (h, d) || (h.path in open && x in Drawn(Kids(h), open, d + 1))
    ensures x.0.path == h.path || x.0.path in PathsOf(h.children)
  {
    KidsPaths(h);
    if x != (h, d) {
      DrawnPaths(Kids(h), open, d + 1, x);
    }
  }

  lemma KidsPathsHidden(h: Branch, i: nat)
    requires Distinct(h.children) && i < |h.children| && h.children[i] !in Kids(h)
    ensures h.children[i].path !in PathsOf(Kids(h))
  {
    ShownWhenRoom(h.children, MAX_BRANCHES, i);
  }

  /** p is the trunk, or an open branch drawn at depth l. */
  ghost predicate Holds(trunk: Branch, open: set<Path>, p: Branch, l: nat) {
    p == trunk || DrawnOpen(Kids(trunk), open, 1, p, l)
  }

  /** A branch that the trunk or an open, drawn one holds is drawn exactly when it is among the first six of
      those worth showing there. */
  lemma {:induction false} HeldDrawnWhenShown(trunk: Branch, open: set<Path>, p: Branch, l: nat, i: nat)
    requires Distinct([trunk]) && Holds(trunk, open, p, l) && i < |p.children|
    ensures var c := p.children[i];
            c.path in DrawnPathsOf(trunk, open) <==> Visible(c) && VisibleBefore(p.children, i) < MAX_BRANCHES
  {
    hide Drawn, Visible, PathsOf, Distinct, UnderOpen, Kids, VisibleBefore;
    var c := p.children[i];
    TrunkParts(trunk);
    KidsPaths(trunk);
    if p == trunk {
      ShownInKids(trunk, i);
      if c in Kids(trunk) {
        ListedDrawn(Kids(trunk), open, 1, c);
      }
      forall x | x in TreeDrawn(trunk, open) && c !in Kids(trunk)
        ensures x.0.path != c.path
      {
        DrawnPaths(Kids(trunk), open, 1, x);
        KidsPathsHidden(trunk, i);
      }
    } else {
      DrawnPaths(Kids(trunk), open, 1, (p, l));
      ShownInKids(p, i);
      DrawnBelow(Kids(trunk), open, 1, p, l, c);
      forall x | x in TreeDrawn(trunk, open) && c !in Kids(p)
        ensures x.0.path != c.path
      {
        HiddenBelow(Kids(trunk), open, 1, p, l, i, x);
      }
    }
  }

  lemma {:induction false} ShownInKids(p: Branch, i: nat)
    requires Distinct(p.children) && i < |p.children|
    ensures p.children[i] in Kids(p) <==> Visible(p.children[i]) && VisibleBefore(p.children, i) < MAX_BRANCHES
  {
    ShownWhenRoom(p.children, MAX_BRANCHES, i);
  }

  lemma TrunkParts(trunk: Branch)
    requires Distinct([trunk])
    ensures Distinct(trunk.children) && trunk.path !in PathsOf(trunk.children)
  {
    assert [trunk][1..] == [];
  }

  // ---- the branch that takes an item ----

  /** A node of the tree: one of ks or below. */
  predicate Inside(ks: seq<Branch>, q: Branch) {
    ks != [] && (q == ks[0] || Inside(ks[0].children, q) || Inside(ks[1..], q))
  }

  lemma {:induction false} InsidePath(ks: seq<Branch>, q: Branch)
    requires Inside(ks, q)
    ensures q.path in PathsOf(ks)
  {
    if q != ks[0] {
      if Inside(ks[0].children, q) {
        InsidePath(ks[0].children, q);
      } else {
        InsidePath(ks[1..], q);
      }
    }
  }

  lemma {:induction false} InsideUnique(ks: seq<Branch>, p: Branch, q: Branch)
    requires Distinct(ks) && Inside(ks, p) && Inside(ks, q) && p.path == q.path
    ensures p == q
  {
    hide PathsOf;
    var k, rest := ks[0], ks[1..];
    WhereInside(k, rest, p);
    WhereInside(k, rest, q);
    if Inside(k.children, p) && Inside(k.children, q) {
      InsideUnique(k.children, p, q);
    } else if Inside(rest, p) && Inside(rest, q) {
      InsideUnique(rest, p, q);
    }
  }

  lemma {:induction false} WhereInside(k: Branch, rest: seq<Branch>, q: Branch)
    ensures Inside(k.children, q) ==> q.path in PathsOf(k.children)
    ensures Inside(rest, q) ==> q.path in PathsOf(rest)
  {
    if Inside(k.children, q) {
      InsidePath(k.children, q);
    }
    if Inside(rest, q) {
      InsidePath(rest, q);
    }
  }

  lemma {:induction false} ShownInside(ks: seq<Branch>, room: nat, q: Branch)
    requires Inside(Shown(ks, room), q)
    ensures Inside(ks, q)
  {
    hide Visible;
    var r := Shown(ks, room);
    if !Visible(ks[0]) {
      ShownInside(ks[1..], room, q);
    } else {
      assert r[0] == ks[0] && r[1..] == Shown(ks[1..], room - 1);
      if Inside(r[1..], q) {
        ShownInside(ks[1..], room - 1, q);
      }
    }
  }

  lemma {:induction false} DrawnInside(ks: seq<Branch>, open: set<Path>, d: nat, x: (Branch, nat))
    requires x in Drawn(ks, open, d)
    ensures Inside(ks, x.0)
    decreases Size(ks)
  {
    hide Drawn;
    DrawnWhere(ks, open, d, x);
    if x != (ks[0], d) {
      if ks[0].path in open && x in Drawn(Kids(ks[0]), open, d + 1) {
        DrawnInside(Kids(ks[0]), open, d + 1, x);
        ShownInside(ks[0].children, MAX_BRANCHES, x.0);
      } else {
        DrawnInside(ks[1..], open, d, x);
      }
    }
  }

  /** The open node that a folder under an open one stands in. */
  lemma {:induction false} OpenNode(ks: seq<Branch>, open: set<Path>, x: Path) returns (q: Branch)
    requires UnderOpen(ks, open, x)
    ensures Inside(ks, q) && q.path in open && exists c :: c in q.children && c.path == x
  {
    if ks[0].path in open && exists c :: c in ks[0].children && c.path == x {
      q := ks[0];
    } else if UnderOpen(ks[0].children, open, x) {
      q := OpenNode(ks[0].children, open, x);
    } else {
      q := OpenNode(ks[1..], open, x);
    }
  }

  /** x is the trunk, or a branch that the trunk or an open, drawn one holds; and then it is drawn exactly
      when it is among the first six there worth showing. */
  ghost predicate DrawnWhenShown(trunk: Branch, open: set<Path>, x: Path) {
    && (x == trunk.path
        || exists p, l: nat, i: nat :: Holds(trunk, open, p, l) && i < |p.children| && p.children[i].path == x)
    && forall p, l: nat, i: nat :: Holds(trunk, open, p, l) && i < |p.children| && p.children[i].path == x ==>
         (x in DrawnPathsOf(trunk, open) <==> Visible(p.children[i]) && VisibleBefore(p.children, i) < MAX_BRANCHES)
  }

  lemma TakenIsHeld(trunk: Branch, open: set<Path>, x: Path) returns (p: Branch, l: nat, i: nat)
    requires Distinct([trunk]) && OpenDrawn(trunk, open) && UnderOpen([trunk], open, x)
    ensures Holds(trunk, open, p, l) && i < |p.children| && p.children[i].path == x
  {
    hide Distinct, UnderOpen, Drawn, Kids;
    p := OpenNode([trunk], open, x);
    if p.path == trunk.path {
      TrunkInside(trunk);
      InsideUnique([trunk], p, trunk);
      l := 0;
    } else {
      var y :| y in TreeDrawn(trunk, open) && y.0.path == p.path;
      DrawnInside(Kids(trunk), open, 1, y);
      KidInside(trunk, y.0);
      InsideUnique([trunk], p, y.0);
      l := y.1;
    }
    var c :| c in p.children && c.path == x;
    i :| i < |p.children| && p.children[i] == c;
  }

  lemma {:induction false} TrunkInside(trunk: Branch)
    ensures Inside([trunk], trunk)
  {
  }

  lemma {:induction false} KidInside(trunk: Branch, q: Branch)
    requires Inside(Kids(trunk), q)
    ensures Inside([trunk], q)
  {
    ShownInside(trunk.children, MAX_BRANCHES, q);
  }

  lemma TakenDrawnWhenShown(trunk: Branch, open: set<Path>, x: Path)
    requires Distinct([trunk]) && OpenDrawn(trunk, open) && Takes(trunk, open, x)
    ensures DrawnWhenShown(trunk, open, x)
  {
    hide Distinct, UnderOpen, Holds, DrawnPathsOf, Visible, VisibleBefore, PathsOf;
    if x != trunk.path {
      var p, l, i := TakenIsHeld(trunk, open, x);
    }
    forall p, l: nat, i: nat | Holds(trunk, open, p, l) && i < |p.children| && p.children[i].path == x
      ensures x in DrawnPathsOf(trunk, open) <==> Visible(p.children[i]) && VisibleBefore(p.children, i) < MAX_BRANCHES
    {
      HeldDrawnWhenShown(trunk, open, p, l, i);
    }
  }

  /** An item about a branch that is held goes on it. */
  lemma {:induction false} HeldTakesItsItems(trunk: Branch, open: set<Path>, p: Branch, l: nat, i: nat)
    requires Distinct([trunk]) && trunk.path in open && Holds(trunk, open, p, l) && i < |p.children|
    ensures DrawnAt(trunk, open, p.children[i].path) == p.children[i].path
  {
    hide Drawn, PathsOf, Kids;
    var c := p.children[i];
    InPaths(p.children, c);
    if p != trunk {
      KidsPaths(trunk);
      DrawnPaths(Kids(trunk), open, 1, (p, l));
      DrawnBelow(Kids(trunk), open, 1, p, l, c);
      KidsUnderOpen(trunk, open, c.path);
    }
    assert UnderOpen([trunk], open, c.path);
  }

  /** Whatever folder a plan item is about, the branch it goes on is the trunk or one that the trunk or an
      open, drawn branch holds; but it, and so the item, is drawn only among the first six worth showing. */
  lemma {:induction false} BudDrawnWhenShown(trunk: Branch, open: set<Path>, dir: Path)
    requires Distinct([trunk]) && OpenDrawn(trunk, open)
    ensures DrawnWhenShown(trunk, open, DrawnAt(trunk, open, dir))
    ensures forall p, l: nat, i: nat :: Holds(trunk, open, p, l) && i < |p.children| && p.children[i].path == dir ==>
              DrawnAt(trunk, open, dir) == dir
  {
    hide Takes, DrawnWhenShown, Holds, DrawnPathsOf;
    TakenDrawnWhenShown(trunk, open, DrawnAt(trunk, open, dir));
    forall p, l: nat, i: nat | Holds(trunk, open, p, l) && i < |p.children| && p.children[i].path == dir
      ensures DrawnAt(trunk, open, dir) == dir
    {
      HeldTakesItsItems(trunk, open, p, l, i);
    }
  }

  /** n folders of one line each, their names n to 1 letters long. */
  function Folders(n: nat): (ks: seq<Branch>)
    ensures |ks| == n
  {
    if n == 0 then [] else [Branch([Letters(n)], [Letters(n)], 1, 1, 0, 0, false, [])] + Folders(n - 1)
  }

  function Letters(n: nat): (s: string)
    ensures |s| == n
  {
    seq(n, _ => 'a')
  }

  lemma FoldersFirst(n: nat)
    requires n > 0
    ensures Folders(n) == [Branch([Letters(n)], [Letters(n)], 1, 1, 0, 0, false, [])] + Folders(n - 1)
  {
  }

  lemma {:induction false} FoldersDistinct(n: nat)
    ensures Distinct(Folders(n))
    ensures forall p :: p in PathsOf(Folders(n)) ==> |p| == 1 && 1 <= |p[0]| <= n
  {
    hide Letters, Folders;
    if n > 0 {
      FoldersFirst(n);
      FoldersDistinct(n - 1);
      assert Folders(n)[1..] == Folders(n - 1);
    }
  }

  lemma {:induction false} FoldersVisible(n: nat, i: nat)
    requires i < n
    ensures var ks := Folders(n); Visible(ks[i]) && ks[i].path == [Letters(n - i)] && VisibleBefore(ks, i) == i
  {
    hide Letters, Folders;
    FoldersFirst(n);
    var ks := Folders(n);
    assert ks[0] == Branch([Letters(n)], [Letters(n)], 1, 1, 0, 0, false, []) && ks[1..] == Folders(n - 1);
    if i > 0 {
      assert ks[i] == ks[1..][i - 1];
      FoldersVisible(n - 1, i - 1);
    }
  }

  /** An item about the seventh folder of the trunk goes on it, and the folder is not drawn. */
  lemma BudCanBeHidden()
    ensures var trunk, dir := Branch([], [], 7, 7, 0, 0, false, Folders(7)), ["a"];
            DrawnAt(trunk, {[]}, dir) == dir && dir !in DrawnPathsOf(trunk, {[]})
  {
    hide Folders, Distinct, PathsOf, VisibleBefore, Visible, DrawnAt, DrawnPathsOf;
    var trunk := Branch([], [], 7, 7, 0, 0, false, Folders(7));
    FoldersDistinct(7);
    FoldersVisible(7, 6);
    assert Letters(1) == "a";
    OneTrunk(trunk);
    HeldDrawnWhenShown(trunk, {[]}, trunk, 0, 6);
    HeldTakesItsItems(trunk, {[]}, trunk, 0, 6);
  }

  lemma OneTrunk(trunk: Branch)
    requires Distinct(trunk.children) && trunk.path !in PathsOf(trunk.children)
    ensures Distinct([trunk])
  {
    assert [trunk][1..] == [];
  }

  // ---- in the tree the plan leaves ----

  lemma {:induction false} AppendUnderOpen(ks: seq<Branch>, s: Branch, open: set<Path>, x: Path)
    requires UnderOpen(ks, open, x)
    ensures UnderOpen(ks + [s], open, x)
  {
    assert (ks + [s])[0] == ks[0] && (ks + [s])[1..] == ks[1..] + [s];
    if UnderOpen(ks[1..], open, x) {
      AppendUnderOpen(ks[1..], s, open, x);
    }
  }

  /** A node of the tree after the planting. */
  function GrownNode(k: Branch, above: Path, s: Branch): Branch {
    var below := Grow(k.children, above, s);
    k.(children := if k.path == above then below + [s] else below)
  }

  lemma {:induction false} GrowAt(ks: seq<Branch>, above: Path, s: Branch, i: nat)
    requires i < |ks|
    ensures Grow(ks, above, s)[i] == GrownNode(ks[i], above, s)
  {
    if i > 0 {
      GrowAt(ks[1..], above, s, i - 1);
    }
  }

  lemma {:induction false} GrowUnderOpen(ks: seq<Branch>, above: Path, s: Branch, open: set<Path>, x: Path)
    requires UnderOpen(ks, open, x)
    ensures UnderOpen(Grow(ks, above, s), open, x)
  {
    var g := Grow(ks, above, s);
    var k, below := ks[0], Grow(ks[0].children, above, s);
    assert g[0].path == k.path && g[1..] == Grow(ks[1..], above, s);
    if k.path in open && exists c :: c in k.children && c.path == x {
      var i :| 0 <= i < |k.children| && k.children[i].path == x;
      GrowAt(k.children, above, s, i);
      assert g[0].children[i].path == x;
    } else if UnderOpen(k.children, open, x) {
      GrowUnderOpen(k.children, above, s, open, x);
      AppendUnderOpen(below, s, open, x);
    } else {
      GrowUnderOpen(ks[1..], above, s, open, x);
    }
  }

  lemma {:induction false} GrowFirstNode(ks: seq<Branch>, above: Path, s: Branch)
    requires ks != []
    ensures Grow(ks, above, s) == [GrownNode(ks[0], above, s)] + Grow(ks[1..], above, s)
  {
  }

  /** Planting keeps what is shown, grown, and can only show one branch more. */
  lemma {:induction false} GrowShown(ks: seq<Branch>, above: Path, s: Branch, room: nat)
    ensures Shown(Grow(ks, above, s), room) == Grow(Shown(ks, room), above, s)
  {
    hide Visible;
    if ks != [] {
      var k, rest, g := ks[0], ks[1..], Grow(ks, above, s);
      GrowFirstNode(ks, above, s);
      assert g[0] == GrownNode(k, above, s) && g[1..] == Grow(rest, above, s);
      SameVisible(k, above, s);
      if !Visible(k) {
        GrowShown(rest, above, s, room);
      } else if room > 0 {
        GrowShown(rest, above, s, room - 1);
        var r := [k] + Shown(rest, room - 1);
        assert r[0] == k && r[1..] == Shown(rest, room - 1);
        GrowFirstNode(r, above, s);
      }
    }
  }

  lemma SameVisible(k: Branch, above: Path, s: Branch)
    ensures Visible(GrownNode(k, above, s)) <==> Visible(k)
  {
  }

  lemma {:induction false} ShownPrefix(ks: seq<Branch>, s: Branch, room: nat)
    ensures Shown(ks, room) <= Shown(ks + [s], room)
  {
    hide Visible;
    if ks != [] {
      assert (ks + [s])[0] == ks[0] && (ks + [s])[1..] == ks[1..] + [s];
      if !Visible(ks[0]) {
        ShownPrefix(ks[1..], s, room);
      } else if room > 0 {
        ShownPrefix(ks[1..], s, room - 1);
      }
    }
  }

  lemma {:induction false} KidsGrown(k: Branch, above: Path, s: Branch)
    ensures Grow(Kids(k), above, s) <= Kids(GrownNode(k, above, s))
  {
    hide Shown;
    GrowShown(k.children, above, s, MAX_BRANCHES);
    ShownPrefix(Grow(k.children, above, s), s, MAX_BRANCHES);
  }

  ghost predicate DrawnPath(ks: seq<Branch>, open: set<Path>, d: nat, x: Path) {
    exists y :: y in Drawn(ks, open, d) && y.0.path == x
  }

  lemma {:induction false} MoreDrawn(ks: seq<Branch>, more: seq<Branch>, open: set<Path>, d: nat)
    requires ks <= more
    ensures Drawn(ks, open, d) <= Drawn(more, open, d)
    decreases |ks|
  {
    hide Under;
    if ks != [] {
      assert ks[0] == more[0] && ks[1..] <= more[1..];
      MoreDrawn(ks[1..], more[1..], open, d);
    }
  }

  /** What was drawn is drawn after the planting. */
  lemma {:induction false} GrowDrawn(ks: seq<Branch>, above: Path, s: Branch, open: set<Path>, d: nat, x: Path)
    requires DrawnPath(ks, open, d, x)
    ensures DrawnPath(Grow(ks, above, s), open, d, x)
    decreases Size(ks)
  {
    hide Drawn, Kids;
    var y :| y in Drawn(ks, open, d) && y.0.path == x;
    DrawnWhere(ks, open, d, y);
    var k, g := ks[0], Grow(ks, above, s);
    GrowFirstNode(ks, above, s);
    var h := GrownNode(k, above, s);
    assert g[0] == h && g[1..] == Grow(ks[1..], above, s);
    DrawnFirst(g, open, d);
    if y == (k, d) {
      assert (h, d) in Drawn(g, open, d);
    } else if k.path in open && y in Drawn(Kids(k), open, d + 1) {
      GrowDrawn(Kids(k), above, s, open, d + 1, x);
      KidsGrown(k, above, s);
      MoreDrawn(Grow(Kids(k), above, s), Kids(h), open, d + 1);
      UnderOne(h, open, d);
    } else {
      GrowDrawn(ks[1..], above, s, open, d, x);
    }
  }

  /** Planting a folder draws no branch less, and takes an item from no branch. */
  lemma PlantedStands(trunk: Branch, open: set<Path>, dir: Path, x: Path)
    requires trunk.path == [] && Distinct([trunk])
    ensures var r := Planted(trunk, dir);
            && (x in DrawnPathsOf(trunk, open) ==> x in DrawnPathsOf(r, open))
            && (Takes(trunk, open, x) ==> Takes(r, open, x))
  {
    hide Grow, UnderOpen, Drawn, Kids, PathsOf, Distinct;
    PlantedPaths(trunk, dir);
    TrunkPaths(trunk);
    TrunkPaths(Planted(trunk, dir));
    if dir !in PathsOf([trunk]) {
      RootIsPath(trunk);
      var above := DeepestAbove(PathsOf([trunk]), dir);
      var s := Branch(dir, dir[|above|..], 0, 0, 0, 0, true, []);
      PlantedNode(trunk, dir, above, s);
      TrunkParts(trunk);
      TrunkParts(Planted(trunk, dir));
      if Takes(trunk, open, x) && x != [] {
        GrowUnderOpen([trunk], above, s, open, x);
      }
      if x in DrawnPathsOf(trunk, open) {
        GrowDrawn(Kids(trunk), above, s, open, 1, x);
        KidsGrown(trunk, above, s);
        MoreDrawn(Grow(Kids(trunk), above, s), Kids(GrownNode(trunk, above, s)), open, 1);
      }
    }
  }

  lemma RootIsPath(trunk: Branch)
    ensures trunk.path in PathsOf([trunk])
  {
  }

  lemma {:induction false} PlantedNode(trunk: Branch, dir: Path, above: Path, s: Branch)
    requires trunk.path == [] && dir !in PathsOf([trunk]) && [] in PathsOf([trunk])
    requires above == DeepestAbove(PathsOf([trunk]), dir) && s == Branch(dir, dir[|above|..], 0, 0, 0, 0, true, [])
    ensures Planted(trunk, dir) == GrownNode(trunk, above, s) && Grow([trunk], above, s) == [Planted(trunk, dir)]
  {
    hide PathsOf, DeepestAbove;
    GrowFirstNode([trunk], above, s);
    assert [trunk][1..] == [];
  }

  /** In the tree the plan leaves: what was open is drawn, what took an item takes it, and every item's
      branch is drawn exactly when it is among the first six where it stands. */
  lemma {:induction false} PlanDrawnWhenShown(trunk: Branch, open: set<Path>, plan: seq<Bud>, r: Reading)
    requires trunk.path == [] && Distinct([trunk]) && OpenDrawn(trunk, open)
    ensures var t, ats := TreeAfter(trunk, plan, r), Places(trunk, open, plan, r);
            && Distinct([t]) && OpenDrawn(t, open)
            && (forall x :: Takes(trunk, open, x) ==> Takes(t, open, x))
            && forall i :: 0 <= i < |plan| ==> DrawnWhenShown(t, open, ats[i])
    decreases |plan|
  {
    hide DrawnAt, TreeFor, FolderFor, TreeAfter, Places, Distinct, OpenDrawn, Takes, DrawnWhenShown;
    if plan == [] {
      TreeAfterNone(trunk, plan, r);
    } else {
      var t := TreeFor(trunk, plan[0], r);
      OneMoreStands(trunk, open, plan[0], r);
      PlacesFirst(trunk, open, plan, r);
      PlanDrawnWhenShown(t, open, plan[1..], r);
      var ats, last := Places(trunk, open, plan, r), TreeAfter(trunk, plan, r);
      TakenDrawnWhenShown(last, open, ats[0]);
      forall i | 0 <= i < |plan|
        ensures DrawnWhenShown(last, open, ats[i])
      {
        if i > 0 {
          assert ats[i] == ats[1..][i - 1];
        }
      }
    }
  }

  lemma OneMoreStands(trunk: Branch, open: set<Path>, b: Bud, r: Reading)
    requires trunk.path == [] && Distinct([trunk]) && OpenDrawn(trunk, open)
    ensures var t := TreeFor(trunk, b, r);
            Distinct([t]) && OpenDrawn(t, open) && forall x :: Takes(trunk, open, x) ==> Takes(t, open, x)
  {
    hide Distinct, Takes, DrawnPathsOf, Planted, MentionedIn, SpelledOut;
    var dir := SpelledOut(b.text);
    PlantedPaths(trunk, dir);
    forall x
      ensures x in DrawnPathsOf(trunk, open) ==> x in DrawnPathsOf(Planted(trunk, dir), open)
      ensures Takes(trunk, open, x) ==> Takes(Planted(trunk, dir), open, x)
    {
      PlantedStands(trunk, open, dir, x);
    }
  }
}
