/** Choosing the branches drawn open within a budget of rows (openBranches). */
module GrowthOpen {
  import opened GrowthTree

  // ---- the drawn tree ----

  /** Every branch drawn under an open one, with its depth, the branches ks being drawn at depth d. */
  function Drawn(ks: seq<Branch>, open: set<Path>, d: nat): set<(Branch, nat)>
    decreases Size(ks)
  {
    if ks == [] then {}
    else {(ks[0], d)} + Under(ks[0], open, d) + Drawn(ks[1..], open, d)
  }

  function Under(k: Branch, open: set<Path>, d: nat): set<(Branch, nat)>
    decreases 1 + Size(k.children), 0
  {
    if k.path in open then Drawn(Kids(k), open, d + 1) else {}
  }

  /** The branch rows drawn below ks. */
  function Rows(ks: seq<Branch>, open: set<Path>): nat
    decreases Size(ks)
  {
    if ks == [] then 0 else RowsUnder(ks[0], open) + Rows(ks[1..], open)
  }

  function RowsUnder(k: Branch, open: set<Path>): nat
    decreases 1 + Size(k.children), 0
  {
    if k.path in open then Cost(k) + Rows(Kids(k), open) else 0
  }

  /** The branch rows of the whole tree: the trunk's own, always open, and those below. */
  function TreeRows(trunk: Branch, open: set<Path>): nat { Cost(trunk) + Rows(Kids(trunk), open) }

  function TreeDrawn(trunk: Branch, open: set<Path>): set<(Branch, nat)> { Drawn(Kids(trunk), open, 1) }

  // ---- paths are names ----

  function PathsOf(ks: seq<Branch>): set<Path> {
    if ks == [] then {} else {ks[0].path} + PathsOf(ks[0].children) + PathsOf(ks[1..])
  }

  /** No two branches share a path. */
  predicate Distinct(ks: seq<Branch>) {
    ks != [] ==>
      var below, rest := PathsOf(ks[0].children), PathsOf(ks[1..]);
      && ks[0].path !in below && ks[0].path !in rest && below !! rest
      && Distinct(ks[0].children) && Distinct(ks[1..])
  }

  /** Nothing below a closed branch is open. */
  predicate Tidy(ks: seq<Branch>, open: set<Path>)
    decreases Size(ks)
  {
    ks != [] ==>
      && (if ks[0].path in open then Tidy(Kids(ks[0]), open) else PathsOf(ks[0].children) !! open)
      && Tidy(ks[1..], open)
  }

  lemma {:induction false} ShownPaths(ks: seq<Branch>, room: nat)
    ensures PathsOf(Shown(ks, room)) <= PathsOf(ks)
    ensures Distinct(ks) ==> Distinct(Shown(ks, room))
  {
    hide Visible;
    if ks != [] {
      if !Visible(ks[0]) {
        ShownPaths(ks[1..], room);
      } else if room > 0 {
        ShownPaths(ks[1..], room - 1);
        var r := Shown(ks, room);
        assert r[1..] == Shown(ks[1..], room - 1);
      }
    }
  }

  lemma KidsPaths(k: Branch)
    ensures PathsOf(Kids(k)) <= PathsOf(k.children)
    ensures Distinct(k.children) ==> Distinct(Kids(k))
  {
    ShownPaths(k.children, MAX_BRANCHES);
  }

  // ---- nothing open ----

  function Flat(ks: seq<Branch>, d: nat): set<(Branch, nat)> { set k | k in ks :: (k, d) }

  lemma {:induction false} NothingOpen(ks: seq<Branch>, open: set<Path>, d: nat)
    requires PathsOf(ks) !! open
    ensures Drawn(ks, open, d) == Flat(ks, d) && Rows(ks, open) == 0 && Tidy(ks, open)
  {
    if ks != [] {
      NothingOpen(ks[1..], open, d);
      assert Drawn(ks, open, d) == {(ks[0], d)} + Flat(ks[1..], d);
      assert ks == [ks[0]] + ks[1..];
    }
  }

  // ---- opening one branch ----

  /** Opening a branch that is elsewhere changes nothing here. */
  lemma {:induction false} OpenElsewhere(ks: seq<Branch>, open: set<Path>, d: nat, p: Path)
    requires p !in PathsOf(ks)
    ensures Drawn(ks, open + {p}, d) == Drawn(ks, open, d)
    ensures Rows(ks, open + {p}) == Rows(ks, open)
    ensures Tidy(ks, open) ==> Tidy(ks, open + {p})
    decreases Size(ks)
  {
    if ks != [] {
      OpenElsewhere(ks[1..], open, d, p);
      KidsPaths(ks[0]);
      if ks[0].path in open {
        OpenElsewhere(Kids(ks[0]), open, d + 1, p);
      }
    }
  }

  lemma {:induction false} DrawnPaths(ks: seq<Branch>, open: set<Path>, d: nat, x: (Branch, nat))
    requires x in Drawn(ks, open, d)
    ensures x.0.path in PathsOf(ks) && PathsOf(x.0.children) <= PathsOf(ks)
    ensures Distinct(ks) ==> Distinct(x.0.children) && x.0.path !in PathsOf(x.0.children)
    decreases Size(ks)
  {
    if x != (ks[0], d) {
      if x in Under(ks[0], open, d) {
        KidsPaths(ks[0]);
        DrawnPaths(Kids(ks[0]), open, d + 1, x);
      } else {
        DrawnPaths(ks[1..], open, d, x);
      }
    }
  }

  /** Where a drawn branch is, among ks. */
  lemma DrawnWhere(ks: seq<Branch>, open: set<Path>, d: nat, x: (Branch, nat))
    requires x in Drawn(ks, open, d)
    ensures ks != []
    ensures x == (ks[0], d) || (ks[0].path in open && x in Drawn(Kids(ks[0]), open, d + 1))
            || x in Drawn(ks[1..], open, d)
  {
  }

  lemma {:induction false} ClosedBelow(ks: seq<Branch>, open: set<Path>, d: nat, c: Branch, l: nat)
    requires Tidy(ks, open) && (c, l) in Drawn(ks, open, d) && c.path !in open
    ensures PathsOf(c.children) !! open
    decreases Size(ks)
  {
    hide PathsOf, Drawn;
    DrawnWhere(ks, open, d, (c, l));
    if (c, l) != (ks[0], d) {
      if ks[0].path in open && (c, l) in Drawn(Kids(ks[0]), open, d + 1) {
        ClosedBelow(Kids(ks[0]), open, d + 1, c, l);
      } else {
        ClosedBelow(ks[1..], open, d, c, l);
      }
    }
  }

  /** What is below a closed branch is not drawn. */
  lemma {:induction false} BelowNotDrawn(ks: seq<Branch>, open: set<Path>, d: nat, c: Branch, l: nat, x: (Branch, nat))
    requires Distinct(ks) && (c, l) in Drawn(ks, open, d) && c.path !in open
    requires x in Drawn(ks, open, d)
    ensures x.0.path !in PathsOf(c.children)
    decreases Size(ks)
  {
    hide PathsOf, Drawn;
    DrawnWhere(ks, open, d, (c, l));
    DrawnWhere(ks, open, d, x);
    var h, t, kids := ks[0], ks[1..], Kids(ks[0]);
    KidsPaths(h);
    PathsOfFirst(ks);
    if (c, l) in Drawn(t, open, d) {
      DrawnPaths(t, open, d, (c, l));
    } else if (c, l) != (h, d) {
      DrawnPaths(kids, open, d + 1, (c, l));
    }
    if x in Drawn(t, open, d) {
      DrawnPaths(t, open, d, x);
      if (c, l) in Drawn(t, open, d) {
        BelowNotDrawn(t, open, d, c, l, x);
      }
    } else if x != (h, d) {
      DrawnPaths(kids, open, d + 1, x);
      if (c, l) != (h, d) && (c, l) !in Drawn(t, open, d) {
        BelowNotDrawn(kids, open, d + 1, c, l, x);
      }
    }
  }

  lemma {:induction false} PathsOfFirst(ks: seq<Branch>)
    requires ks != []
    ensures PathsOf(ks) == {ks[0].path} + PathsOf(ks[0].children) + PathsOf(ks[1..])
  {
  }

  lemma {:induction false} OpenHead(k: Branch, open: set<Path>, d: nat)
    requires k.path !in open && PathsOf(k.children) !! open && k.path !in PathsOf(k.children)
    ensures Under(k, open, d) == {} && RowsUnder(k, open) == 0
    ensures var now := open + {k.path};
            Under(k, now, d) == Flat(Kids(k), d + 1) && RowsUnder(k, now) == Cost(k) && Tidy(Kids(k), now)
  {
    KidsPaths(k);
    NothingOpen(Kids(k), open + {k.path}, d + 1);
  }

  lemma {:induction false} DrawnFirst(ks: seq<Branch>, open: set<Path>, d: nat)
    requires ks != []
    ensures Drawn(ks, open, d) == {(ks[0], d)} + Under(ks[0], open, d) + Drawn(ks[1..], open, d)
    ensures Rows(ks, open) == RowsUnder(ks[0], open) + Rows(ks[1..], open)
    ensures Tidy(ks, open) <==>
              && (if ks[0].path in open then Tidy(Kids(ks[0]), open) else PathsOf(ks[0].children) !! open)
              && Tidy(ks[1..], open)
  {
  }

  lemma {:induction false} UnderOne(k: Branch, open: set<Path>, d: nat)
    ensures Under(k, open, d) == if k.path in open then Drawn(Kids(k), open, d + 1) else {}
    ensures RowsUnder(k, open) == if k.path in open then Cost(k) + Rows(Kids(k), open) else 0
  {
  }

  /** Opening a drawn branch draws its own and nothing else, and takes just their rows. */
  lemma {:induction false} OpenAdds(ks: seq<Branch>, open: set<Path>, d: nat, c: Branch, l: nat)
    requires Distinct(ks) && Tidy(ks, open)
    requires (c, l) in Drawn(ks, open, d) && c.path !in open
    ensures var now := open + {c.path};
            && Drawn(ks, now, d) == Drawn(ks, open, d) + Flat(Kids(c), l + 1)
            && Rows(ks, now) == Rows(ks, open) + Cost(c)
            && Tidy(ks, now)
    decreases Size(ks)
  {
    hide PathsOf, Drawn, Rows, Under, RowsUnder, Tidy, Cost, Flat;
    DrawnWhere(ks, open, d, (c, l));
    var h, t, p := ks[0], ks[1..], c.path;
    var now := open + {p};
    DrawnFirst(ks, open, d);
    DrawnFirst(ks, now, d);
    UnderOne(h, open, d);
    UnderOne(h, now, d);
    KidsPaths(h);
    if (c, l) == (h, d) {
      OpenHead(h, open, d);
      OpenElsewhere(t, open, d, p);
    } else if h.path in open && (c, l) in Drawn(Kids(h), open, d + 1) {
      DrawnPaths(Kids(h), open, d + 1, (c, l));
      OpenAdds(Kids(h), open, d + 1, c, l);
      OpenElsewhere(t, open, d, p);
    } else {
      DrawnPaths(t, open, d, (c, l));
      OpenAdds(t, open, d, c, l);
      if h.path in open {
        OpenElsewhere(Kids(h), open, d + 1, p);
      }
    }
  }

  /** A branch is drawn once. */
  lemma {:induction false} DrawnOnce(ks: seq<Branch>, open: set<Path>, d: nat, x: (Branch, nat), y: (Branch, nat))
    requires Distinct(ks) && x in Drawn(ks, open, d) && y in Drawn(ks, open, d) && x.0.path == y.0.path
    ensures x == y
    decreases Size(ks)
  {
    hide PathsOf, Drawn;
    DrawnWhere(ks, open, d, x);
    DrawnWhere(ks, open, d, y);
    var h, t, kids := ks[0], ks[1..], Kids(ks[0]);
    KidsPaths(h);
    if x in Drawn(t, open, d) {
      DrawnPaths(t, open, d, x);
    } else if x != (h, d) {
      DrawnPaths(kids, open, d + 1, x);
    }
    if y in Drawn(t, open, d) {
      DrawnPaths(t, open, d, y);
      if x in Drawn(t, open, d) {
        DrawnOnce(t, open, d, x, y);
      }
    } else if y != (h, d) {
      DrawnPaths(kids, open, d + 1, y);
      if x != (h, d) && x !in Drawn(t, open, d) {
        DrawnOnce(kids, open, d + 1, x, y);
      }
    }
  }

  // ---- the choice ----

  predicate Light(x: Branch, trunk: Branch) { x.lines as real < 0.12 * trunk.lines as real }

  /** A closed branch that may be opened: it has branches to choose from and is not too deep. */
  predicate Eligible(x: Branch, depth: nat, open: set<Path>) { x.path !in open && |Kids(x)| >= 2 && depth < 4 }

  /** The frontier is what is drawn, each branch with its depth. */
  ghost predicate Frontier(frontier: seq<Branch>, depth: map<Path, nat>, trunk: Branch, open: set<Path>) {
    && (forall k :: k in frontier ==> k.path in depth && (k, depth[k.path]) in TreeDrawn(trunk, open))
    && (forall x :: x in TreeDrawn(trunk, open) ==> x.0 in frontier && x.0.path in depth && depth[x.0.path] == x.1)
  }

  function PathSet(kids: seq<Branch>): set<Path> { set k | k in kids :: k.path }

  function Deepened(depth: map<Path, nat>, kids: seq<Branch>, d: nat): map<Path, nat> {
    depth + map p | p in PathSet(kids) :: d
  }

  /** Every branch drawn open below the trunk was worth opening. */
  ghost predicate OpenedWell(trunk: Branch, open: set<Path>) {
    forall x :: x in TreeDrawn(trunk, open) && x.0.path in open ==> !Light(x.0, trunk) && |Kids(x.0)| >= 2 && x.1 < 4
  }

  function DrawnPathsOf(trunk: Branch, open: set<Path>): set<Path> { set x | x in TreeDrawn(trunk, open) :: x.0.path }

  /** The trunk is open, and whatever else is open is drawn. */
  ghost predicate OpenDrawn(trunk: Branch, open: set<Path>) {
    trunk.path in open && open <= {trunk.path} + DrawnPathsOf(trunk, open)
  }

  /** What every round of the choice keeps. */
  ghost predicate Round(trunk: Branch, budget: int, open: set<Path>, depth: map<Path, nat>, frontier: seq<Branch>,
                        rows: int, tried: set<Branch>) {
    && Distinct([trunk]) && Distinct(Kids(trunk)) && Tidy(Kids(trunk), open)
    && Frontier(frontier, depth, trunk, open)
    && rows == TreeRows(trunk, open) && rows <= (if budget > Cost(trunk) then budget else Cost(trunk))
    && (forall k :: k in tried ==> k in frontier && rows + Cost(k) > budget)
    && OpenedWell(trunk, open) && OpenDrawn(trunk, open)
  }

  lemma FirstRound(trunk: Branch, budget: int)
    requires Distinct([trunk])
    ensures Round(trunk, budget, {trunk.path}, Deepened(map[], Kids(trunk), 1), Kids(trunk), Cost(trunk), {})
  {
    hide Light, Cost, Drawn, Rows, Tidy, Frontier, Kids, Eligible, Deepened;
    var open := {trunk.path};
    KidsPaths(trunk);
    assert [trunk][1..] == [];
    NothingOpen(Kids(trunk), open, 1);
    FirstFrontier(trunk, open);
    forall x | x in TreeDrawn(trunk, open)
      ensures x.0.path !in open
    {
      DrawnPaths(Kids(trunk), open, 1, x);
    }
  }

  lemma FirstFrontier(trunk: Branch, open: set<Path>)
    requires TreeDrawn(trunk, open) == Flat(Kids(trunk), 1)
    ensures Frontier(Kids(trunk), Deepened(map[], Kids(trunk), 1), trunk, open)
  {
    hide Drawn, Kids, TreeDrawn;
  }

  lemma OpenRound(trunk: Branch, budget: int, open: set<Path>, depth: map<Path, nat>, frontier: seq<Branch>, rows: int,
                  tried: set<Branch>, c: Branch)
    requires Round(trunk, budget, open, depth, frontier, rows, tried)
    requires c in frontier && Eligible(c, depth[c.path], open) && !Light(c, trunk) && rows + Cost(c) <= budget
    ensures Round(trunk, budget, open + {c.path}, Deepened(depth, Kids(c), depth[c.path] + 1), frontier + Kids(c),
                  rows + Cost(c), tried)
  {
    hide Light, Cost, Drawn, Rows, Tidy, Distinct, PathsOf, Kids, Deepened, OpenedWell, OpenDrawn;
    OpenAdds(Kids(trunk), open, 1, c, depth[c.path]);
    OpenedFrontier(trunk, open, depth, frontier, c);
    OpenedOne(trunk, open, c, depth[c.path]);
    OpenedDrawn(trunk, open, c, depth[c.path]);
  }

  lemma OpenedDrawn(trunk: Branch, open: set<Path>, c: Branch, l: nat)
    requires OpenDrawn(trunk, open) && (c, l) in TreeDrawn(trunk, open)
    requires TreeDrawn(trunk, open) <= TreeDrawn(trunk, open + {c.path})
    ensures OpenDrawn(trunk, open + {c.path})
  {
    hide TreeDrawn;
    forall x | x in TreeDrawn(trunk, open)
      ensures x.0.path in DrawnPathsOf(trunk, open + {c.path})
    {
    }
    assert (c, l).0.path in DrawnPathsOf(trunk, open + {c.path});
  }

  /** A branch that does not fit is not looked at again: the rows only grow. */
  lemma TriedRound(trunk: Branch, budget: int, open: set<Path>, depth: map<Path, nat>, frontier: seq<Branch>, rows: int,
                   tried: set<Branch>, c: Branch)
    requires Round(trunk, budget, open, depth, frontier, rows, tried)
    requires c in frontier && rows + Cost(c) > budget
    ensures Round(trunk, budget, open, depth, frontier, rows, tried + {c})
  {
    hide Light, Cost, TreeDrawn, TreeRows, Tidy, Distinct, PathsOf, Kids, OpenedWell, OpenDrawn, Frontier;
  }

  lemma {:induction false} OpenedOne(trunk: Branch, open: set<Path>, c: Branch, l: nat)
    requires Distinct(Kids(trunk)) && Tidy(Kids(trunk), open) && OpenedWell(trunk, open)
    requires (c, l) in TreeDrawn(trunk, open) && Eligible(c, l, open) && !Light(c, trunk)
    ensures OpenedWell(trunk, open + {c.path})
  {
    hide Light, TreeDrawn, Tidy, Distinct, Kids;
    forall x | x in TreeDrawn(trunk, open + {c.path}) && x.0.path in open + {c.path}
      ensures !Light(x.0, trunk) && |Kids(x.0)| >= 2 && x.1 < 4
    {
      NewlyOpen(trunk, open, c, l, x);
    }
  }

  /** An open path more is one path of the tree fewer to open. */
  lemma OpenShrinks(trunk: Branch, open: set<Path>, c: Branch, l: nat)
    requires (c, l) in TreeDrawn(trunk, open) && c.path !in open
    ensures |PathsOf([trunk]) - (open + {c.path})| < |PathsOf([trunk]) - open|
  {
    KidsPaths(trunk);
    DrawnPaths(Kids(trunk), open, 1, (c, l));
    assert c.path in PathsOf([trunk]);
    var all := PathsOf([trunk]);
    assert all - (open + {c.path}) == (all - open) - {c.path};
  }

  /** What the choice ends with: what is open is drawn, the rows fit the budget wherever the trunk's own
      do, every branch has its depth, every branch opened holds its share of the code, and every one left
      closed that could have been opened is too light or would not fit. */
  ghost predicate Settled(trunk: Branch, budget: int, open: set<Path>, depth: map<Path, nat>) {
    && OpenDrawn(trunk, open)
    && TreeRows(trunk, open) <= (if budget > Cost(trunk) then budget else Cost(trunk))
    && (forall x :: x in TreeDrawn(trunk, open) ==> x.0.path in depth && depth[x.0.path] == x.1)
    && (forall x :: x in TreeDrawn(trunk, open) && x.0.path in open ==>
          !Light(x.0, trunk) && |Kids(x.0)| >= 2 && x.1 < 4)
    && (forall x :: x in TreeDrawn(trunk, open) && Eligible(x.0, x.1, open) ==>
          Light(x.0, trunk) || TreeRows(trunk, open) + Cost(x.0) > budget)
  }

  lemma NothingLeft(trunk: Branch, budget: int, open: set<Path>, depth: map<Path, nat>, frontier: seq<Branch>,
                    rows: int, tried: set<Branch>)
    requires Round(trunk, budget, open, depth, frontier, rows, tried)
    requires forall k :: k in frontier && k !in tried && k.path in depth && Eligible(k, depth[k.path], open) ==>
               Light(k, trunk)
    ensures Settled(trunk, budget, open, depth)
  {
    hide Light, Cost, TreeDrawn, TreeRows, Tidy, Distinct, Kids, Eligible, OpenDrawn;
  }

  lemma RoundDepths(trunk: Branch, budget: int, open: set<Path>, depth: map<Path, nat>, frontier: seq<Branch>,
                    rows: int, tried: set<Branch>)
    requires Round(trunk, budget, open, depth, frontier, rows, tried)
    ensures forall k :: k in frontier ==> k.path in depth && (k, depth[k.path]) in TreeDrawn(trunk, open)
  {
    hide Light, Cost, TreeDrawn, TreeRows, Tidy, Distinct, Kids, Eligible, OpenDrawn;
  }

  lemma {:induction false} NewlyOpen(trunk: Branch, open: set<Path>, c: Branch, l: nat, x: (Branch, nat))
    requires Distinct(Kids(trunk)) && Tidy(Kids(trunk), open)
    requires (c, l) in TreeDrawn(trunk, open) && c.path !in open
    requires x in TreeDrawn(trunk, open + {c.path}) && x.0.path in open + {c.path}
    ensures x == (c, l) || (x in TreeDrawn(trunk, open) && x.0.path in open)
  {
    hide Drawn, Rows, Tidy, Distinct, PathsOf, Kids;
    var ks := Kids(trunk);
    OpenAdds(ks, open, 1, c, l);
    ClosedBelow(ks, open, 1, c, l);
    DrawnPaths(ks, open, 1, (c, l));
    if x in Flat(Kids(c), l + 1) {
      KidInPaths(c, x.0);
    } else if x.0.path == c.path {
      DrawnOnce(ks, open, 1, x, (c, l));
    }
  }

  lemma KidInPaths(c: Branch, k: Branch)
    requires k in Kids(c)
    ensures k.path in PathsOf(c.children)
  {
    InPaths(c.children, k);
  }

  lemma {:induction false} InPaths(ks: seq<Branch>, k: Branch)
    requires k in ks
    ensures k.path in PathsOf(ks)
  {
    if k != ks[0] {
      InPaths(ks[1..], k);
    }
  }

  lemma {:induction false} OpenedFrontier(trunk: Branch, open: set<Path>, depth: map<Path, nat>, frontier: seq<Branch>,
                                          c: Branch)
    requires Distinct(Kids(trunk)) && Tidy(Kids(trunk), open)
    requires Frontier(frontier, depth, trunk, open) && c in frontier && c.path !in open
    ensures Frontier(frontier + Kids(c), Deepened(depth, Kids(c), depth[c.path] + 1), trunk, open + {c.path})
  {
    hide Drawn, Rows, Tidy, Distinct, PathsOf, Kids, Cost, Flat, Deepened;
    var l := depth[c.path];
    OpenAdds(Kids(trunk), open, 1, c, l);
    forall x | x in TreeDrawn(trunk, open)
      ensures x.0.path !in PathSet(Kids(c))
    {
      BelowNotDrawn(Kids(trunk), open, 1, c, l, x);
      forall k | k in Kids(c)
        ensures k.path != x.0.path
      {
        KidInPaths(c, k);
      }
    }
    JoinFrontier(frontier, depth, Kids(c), l + 1, trunk, open, open + {c.path});
  }

  lemma JoinFrontier(frontier: seq<Branch>, depth: map<Path, nat>, kids: seq<Branch>, d: nat, trunk: Branch,
                     open: set<Path>, now: set<Path>)
    requires Frontier(frontier, depth, trunk, open)
    requires forall x :: x in TreeDrawn(trunk, open) ==> x.0.path !in PathSet(kids)
    requires TreeDrawn(trunk, now) == TreeDrawn(trunk, open) + Flat(kids, d)
    ensures Frontier(frontier + kids, Deepened(depth, kids, d), trunk, now)
  {
    hide TreeDrawn;
    var later := Deepened(depth, kids, d);
    forall k | k in frontier
      ensures k.path in later && later[k.path] == depth[k.path]
    {
      assert (k, depth[k.path]) in TreeDrawn(trunk, open);
    }
    forall k | k in kids
      ensures k.path in later && later[k.path] == d
    {
      assert k.path in PathSet(kids);
    }
  }

  // ---- the heaviest first ----

  /** No branch has more code than the one it hangs on, as when code is counted by folder. */
  predicate Shrinking(ks: seq<Branch>) {
    ks != [] ==> BelowNoHeavier(ks[0].children, ks[0].lines) && Shrinking(ks[0].children) && Shrinking(ks[1..])
  }

  predicate BelowNoHeavier(ks: seq<Branch>, n: nat) { forall k :: k in ks ==> k.lines <= n }

  /** The rows that the open branches with at least n lines take among ks. */
  function HeavyRows(ks: seq<Branch>, open: set<Path>, n: nat): nat
    decreases Size(ks)
  {
    if ks == [] then 0
    else
      var own := if ks[0].path !in open then 0
                 else (if ks[0].lines >= n then Cost(ks[0]) else 0) + HeavyRows(Kids(ks[0]), open, n);
      own + HeavyRows(ks[1..], open, n)
  }

  lemma {:induction false} HeavyRowsGrow(ks: seq<Branch>, open: set<Path>, now: set<Path>, n: nat)
    requires open <= now
    ensures HeavyRows(ks, open, n) <= HeavyRows(ks, now, n)
    decreases Size(ks)
  {
    hide Cost, Kids;
    if ks != [] {
      HeavyRowsGrow(ks[1..], open, now, n);
      if ks[0].path in open {
        HeavyRowsGrow(Kids(ks[0]), open, now, n);
      }
    }
  }

  /** When no lighter branch is open these are all the rows there are. */
  lemma {:induction false} AllHeavy(ks: seq<Branch>, open: set<Path>, d: nat, n: nat)
    requires forall x :: x in Drawn(ks, open, d) && x.0.path in open ==> x.0.lines >= n
    ensures HeavyRows(ks, open, n) == Rows(ks, open)
    decreases Size(ks)
  {
    hide Cost, Kids, Rows, RowsUnder, Drawn, Under;
    if ks == [] {
      NoRowsAtAll(open);
    } else {
      DrawnFirst(ks, open, d);
      UnderOne(ks[0], open, d);
      AllHeavy(ks[1..], open, d, n);
      if ks[0].path in open {
        assert (ks[0], d) in Drawn(ks, open, d);
        AllHeavy(Kids(ks[0]), open, d + 1, n);
      }
    }
  }

  lemma {:induction false} NoRowsAtAll(open: set<Path>)
    ensures Rows([], open) == 0
  {
  }

  lemma {:induction false} ShrinkingIn(ks: seq<Branch>, k: Branch)
    requires Shrinking(ks) && k in ks
    ensures BelowNoHeavier(k.children, k.lines) && Shrinking(k.children)
  {
    hide BelowNoHeavier;
    if k != ks[0] {
      ShrinkingIn(ks[1..], k);
    }
  }

  lemma {:induction false} DrawnShrinks(ks: seq<Branch>, open: set<Path>, d: nat, x: (Branch, nat))
    requires forall k :: k in ks ==> Shrinking(k.children) && BelowNoHeavier(k.children, k.lines)
    requires x in Drawn(ks, open, d)
    ensures BelowNoHeavier(x.0.children, x.0.lines)
    decreases Size(ks)
  {
    hide Drawn, BelowNoHeavier;
    DrawnWhere(ks, open, d, x);
    if x != (ks[0], d) {
      if ks[0].path in open && x in Drawn(Kids(ks[0]), open, d + 1) {
        forall k | k in Kids(ks[0])
          ensures Shrinking(k.children) && BelowNoHeavier(k.children, k.lines)
        {
          ShrinkingIn(ks[0].children, k);
        }
        DrawnShrinks(Kids(ks[0]), open, d + 1, x);
      } else {
        DrawnShrinks(ks[1..], open, d, x);
      }
    }
  }

  /** What is open is no lighter than what could still be opened, and a branch that did not fit does not fit
      beside the open ones no lighter than itself. */
  ghost predicate Greedy(trunk: Branch, budget: int, open: set<Path>, tried: set<Branch>) {
    && (forall x, y :: x in TreeDrawn(trunk, open) && x.0.path in open
                       && y in TreeDrawn(trunk, open) && Eligible(y.0, y.1, open) && y.0 !in tried ==>
          y.0.lines <= x.0.lines)
    && (forall k :: k in tried ==> Crowded(trunk, budget, open, k))
  }

  /** Beside the trunk's own rows and those of the open branches no lighter than k, k's do not fit. */
  predicate Crowded(trunk: Branch, budget: int, open: set<Path>, k: Branch) {
    Cost(trunk) + HeavyRows(Kids(trunk), open, k.lines) + Cost(k) > budget
  }

  lemma GreedyFirst(trunk: Branch, budget: int)
    requires Distinct([trunk])
    ensures Greedy(trunk, budget, {trunk.path}, {})
  {
    hide Cost, Drawn, Rows, Tidy, Kids, Eligible;
    var open := {trunk.path};
    KidsPaths(trunk);
    assert [trunk][1..] == [];
    forall x | x in TreeDrawn(trunk, open)
      ensures x.0.path !in open
    {
      DrawnPaths(Kids(trunk), open, 1, x);
    }
  }

  /** c is the heaviest of what could be opened. */
  ghost predicate HeaviestLeft(trunk: Branch, open: set<Path>, tried: set<Branch>, c: Branch) {
    forall y :: y in TreeDrawn(trunk, open) && Eligible(y.0, y.1, open) && y.0 !in tried ==> y.0.lines <= c.lines
  }

  lemma GreedyTried(trunk: Branch, budget: int, open: set<Path>, tried: set<Branch>, c: Branch, l: nat)
    requires Greedy(trunk, budget, open, tried)
    requires (c, l) in TreeDrawn(trunk, open) && Eligible(c, l, open) && c !in tried
    requires TreeRows(trunk, open) + Cost(c) > budget
    ensures Greedy(trunk, budget, open, tried + {c})
  {
    hide Cost, Drawn, Kids, Eligible, Rows, HeavyRows;
    AllHeavy(Kids(trunk), open, 1, c.lines);
  }

  lemma {:induction false} GreedyOpened(trunk: Branch, budget: int, open: set<Path>, tried: set<Branch>, c: Branch,
                                        l: nat)
    requires Distinct(Kids(trunk)) && Tidy(Kids(trunk), open) && Shrinking(trunk.children)
    requires Greedy(trunk, budget, open, tried) && HeaviestLeft(trunk, open, tried, c)
    requires (c, l) in TreeDrawn(trunk, open) && Eligible(c, l, open) && c !in tried
    ensures Greedy(trunk, budget, open + {c.path}, tried)
  {
    hide Cost, TreeDrawn, Kids, Rows, HeavyRows, Tidy, Distinct, Crowded, Shrinking;
    var now := open + {c.path};
    forall k | k in tried
      ensures Crowded(trunk, budget, now, k)
    {
      StillCrowded(trunk, budget, open, now, k);
    }
    forall x, y | x in TreeDrawn(trunk, now) && x.0.path in now
                  && y in TreeDrawn(trunk, now) && Eligible(y.0, y.1, now) && y.0 !in tried
      ensures y.0.lines <= x.0.lines
    {
      NewlyOpen(trunk, open, c, l, x);
      NewlyEligible(trunk, open, c, l, y);
    }
  }

  lemma StillCrowded(trunk: Branch, budget: int, open: set<Path>, now: set<Path>, k: Branch)
    requires open <= now && Crowded(trunk, budget, open, k)
    ensures Crowded(trunk, budget, now, k)
  {
    hide Cost, Kids, HeavyRows;
    HeavyRowsGrow(Kids(trunk), open, now, k.lines);
  }

  /** What can be opened once c is open could be before, or hangs on c and is no heavier. */
  lemma {:induction false} NewlyEligible(trunk: Branch, open: set<Path>, c: Branch, l: nat, y: (Branch, nat))
    requires Distinct(Kids(trunk)) && Tidy(Kids(trunk), open) && Shrinking(trunk.children)
    requires (c, l) in TreeDrawn(trunk, open) && c.path !in open
    requires y in TreeDrawn(trunk, open + {c.path}) && Eligible(y.0, y.1, open + {c.path})
    ensures (y in TreeDrawn(trunk, open) && Eligible(y.0, y.1, open)) || y.0.lines <= c.lines
  {
    hide Drawn, Kids, Rows, Tidy, Distinct, Shrinking;
    OpenAdds(Kids(trunk), open, 1, c, l);
    forall k | k in Kids(trunk)
      ensures Shrinking(k.children) && BelowNoHeavier(k.children, k.lines)
    {
      ShrinkingIn(trunk.children, k);
    }
    DrawnShrinks(Kids(trunk), open, 1, (c, l));
  }

  /** A branch left closed that could have been opened and is not too light would not fit even if no lighter one
      were open: none takes the room of a heavier one. */
  ghost predicate HeaviestFirst(trunk: Branch, budget: int, open: set<Path>) {
    forall x :: x in TreeDrawn(trunk, open) && Eligible(x.0, x.1, open) && !Light(x.0, trunk) ==>
      Crowded(trunk, budget, open, x.0)
  }

  lemma GreedyEnds(trunk: Branch, budget: int, open: set<Path>, depth: map<Path, nat>, frontier: seq<Branch>,
                   tried: set<Branch>)
    requires Greedy(trunk, budget, open, tried) && Frontier(frontier, depth, trunk, open)
    requires forall k :: k in frontier && k !in tried && k.path in depth && Eligible(k, depth[k.path], open) ==>
               Light(k, trunk)
    ensures HeaviestFirst(trunk, budget, open)
  {
    hide TreeDrawn, Eligible, Light, Crowded;
  }

  lemma HeaviestOnFrontier(trunk: Branch, open: set<Path>, depth: map<Path, nat>, frontier: seq<Branch>,
                           tried: set<Branch>, c: Branch)
    requires Frontier(frontier, depth, trunk, open)
    requires forall k :: k in frontier && k !in tried && k.path in depth && Eligible(k, depth[k.path], open) ==>
               k.lines <= c.lines
    ensures HeaviestLeft(trunk, open, tried, c)
  {
    hide TreeDrawn, Eligible;
  }

  // ---- choosing ----

  lemma DeepenedNone(depth: map<Path, nat>, d: nat)
    ensures Deepened(depth, [], d) == depth
  {
  }

  lemma DeepenedOne(depth: map<Path, nat>, kids: seq<Branch>, k: Branch, d: nat)
    ensures Deepened(depth, kids + [k], d) == Deepened(depth, kids, d)[k.path := d]
  {
    assert PathSet(kids + [k]) == PathSet(kids) + {k.path};
  }

  /** The branches drawn open and every branch's depth, as the nodes keep them. */
  class Opening {
    const trunk: Branch
    var open: set<Path>
    var depth: map<Path, nat>

    constructor (trunk: Branch)
      ensures this.trunk == trunk && open == {} && depth == map[]
    {
      this.trunk := trunk;
      open, depth := {}, map[];
    }

    predicate Openable(k: Branch, tried: set<Branch>)
      requires k.path in depth
      reads this
    {
      k !in tried && Eligible(k, depth[k.path], open)
    }

    /** The first of the heaviest branches that may be opened. */
    method Heaviest(frontier: seq<Branch>, tried: set<Branch>) returns (best: int)
      requires forall k :: k in frontier ==> k.path in depth
      ensures best < |frontier|
      ensures best < 0 ==> forall k :: k in frontier ==> !Openable(k, tried)
      ensures best >= 0 ==> Openable(frontier[best], tried)
      ensures best >= 0 ==> forall k :: k in frontier && Openable(k, tried) ==> k.lines <= frontier[best].lines
    {
      hide Eligible;
      best := -1;
      for i := 0 to |frontier|
        invariant best < i
        invariant best < 0 ==> forall j :: 0 <= j < i ==> !Openable(frontier[j], tried)
        invariant best >= 0 ==> Openable(frontier[best], tried)
        invariant best >= 0 ==> forall j :: 0 <= j < i && Openable(frontier[j], tried) ==>
                                  frontier[j].lines <= frontier[best].lines
      {
        if Openable(frontier[i], tried) && (best < 0 || frontier[i].lines > frontier[best].lines) {
          best := i;
        }
      }
    }

    method Deepen(kids: seq<Branch>, d: nat)
      modifies this`depth
      ensures depth == Deepened(old(depth), kids, d)
    {
      hide Deepened;
      DeepenedNone(depth, d);
      for i := 0 to |kids|
        invariant depth == Deepened(old(depth), kids[..i], d)
      {
        depth := depth[kids[i].path := d];
        DeepenedOne(old(depth), kids[..i], kids[i], d);
        assert kids[..i + 1] == kids[..i] + [kids[i]];
      }
      assert kids[..|kids|] == kids;
    }

    /** Greedy by lines: ends when no closed branch on the frontier is left that is not light and fits. */
    method OpenBranches(budget: int)
      requires Distinct([trunk]) && open == {} && depth == map[]
      modifies this
      ensures Settled(trunk, budget, open, depth)
      ensures Shrinking(trunk.children) ==> HeaviestFirst(trunk, budget, open)
    {
      hide Light, Cost, TreeDrawn, Distinct, PathsOf, Kids, Deepened, Round, Settled, Openable, Greedy, Shrinking;
      hide HeaviestFirst;
      open := {trunk.path};
      var rows: int := Cost(trunk);
      Deepen(Kids(trunk), 1);
      var frontier, tried: set<Branch> := Kids(trunk), {};
      FirstRound(trunk, budget);
      GreedyFirst(trunk, budget);
      while true
        invariant Round(trunk, budget, open, depth, frontier, rows, tried)
        invariant Shrinking(trunk.children) ==> Greedy(trunk, budget, open, tried)
        decreases |PathsOf([trunk]) - open|, |(set k | k in frontier) - tried|
      {
        RoundDepths(trunk, budget, open, depth, frontier, rows, tried);
        var best := Heaviest(frontier, tried);
        if best < 0 || Light(frontier[best], trunk) {
          LightFrom(frontier, tried, best);
          NothingLeft(trunk, budget, open, depth, frontier, rows, tried);
          NoneLeft(budget, frontier, rows, tried);
          return;
        }
        var c := frontier[best];
        var kids, l := Kids(c), depth[c.path];
        NowEligible(c, tried);
        NextChosen(budget, frontier, rows, tried, c);
        if rows + Cost(c) > budget {
          TriedRound(trunk, budget, open, depth, frontier, rows, tried, c);
          TriedShrinks(frontier, tried, c);
          tried := tried + {c};
        } else {
          OpenRound(trunk, budget, open, depth, frontier, rows, tried, c);
          OpenShrinks(trunk, open, c, l);
          open, rows := open + {c.path}, rows + Cost(c);
          Deepen(kids, l + 1);
          frontier := frontier + kids;
        }
      }
    }

    lemma NowEligible(c: Branch, tried: set<Branch>)
      requires c.path in depth && Openable(c, tried)
      ensures c !in tried && Eligible(c, depth[c.path], open) && c.path !in open
    {
    }

    lemma TriedShrinks(frontier: seq<Branch>, tried: set<Branch>, c: Branch)
      requires c in frontier && c !in tried
      ensures |(set k | k in frontier) - (tried + {c})| < |(set k | k in frontier) - tried|
    {
      var all := set k | k in frontier;
      assert all - (tried + {c}) == (all - tried) - {c};
    }

    /** The heaviest left being too light, so is every other. */
    lemma LightFrom(frontier: seq<Branch>, tried: set<Branch>, best: int)
      requires forall k :: k in frontier ==> k.path in depth
      requires best < |frontier|
      requires best < 0 ==> forall k :: k in frontier ==> !Openable(k, tried)
      requires best >= 0 ==> Light(frontier[best], trunk)
      requires best >= 0 ==> forall k :: k in frontier && Openable(k, tried) ==> k.lines <= frontier[best].lines
      ensures forall k :: k in frontier && k !in tried && Eligible(k, depth[k.path], open) ==> Light(k, trunk)
    {
      hide Eligible;
    }

    lemma NoneLeft(budget: int, frontier: seq<Branch>, rows: int, tried: set<Branch>)
      requires Round(trunk, budget, open, depth, frontier, rows, tried)
      requires forall k :: k in frontier && k !in tried && k.path in depth && Eligible(k, depth[k.path], open) ==>
                 Light(k, trunk)
      ensures Shrinking(trunk.children) && Greedy(trunk, budget, open, tried) ==> HeaviestFirst(trunk, budget, open)
    {
      hide Frontier, Light, Eligible, Greedy, HeaviestFirst, Shrinking;
      if Shrinking(trunk.children) && Greedy(trunk, budget, open, tried) {
        GreedyEnds(trunk, budget, open, depth, frontier, tried);
      }
    }

    /** The heaviest left is opened, or set aside when it does not fit. */
    lemma NextChosen(budget: int, frontier: seq<Branch>, rows: int, tried: set<Branch>, c: Branch)
      requires Round(trunk, budget, open, depth, frontier, rows, tried)
      requires forall k :: k in frontier ==> k.path in depth
      requires c in frontier && Openable(c, tried)
      requires forall k :: k in frontier && Openable(k, tried) ==> k.lines <= c.lines
      ensures Shrinking(trunk.children) && Greedy(trunk, budget, open, tried) ==>
                if rows + Cost(c) > budget then Greedy(trunk, budget, open, tried + {c})
                else Greedy(trunk, budget, open + {c.path}, tried)
    {
      hide Light, Cost, TreeDrawn, TreeRows, Tidy, Distinct, Kids, OpenDrawn, Greedy, Shrinking, HeaviestLeft;
      if Shrinking(trunk.children) && Greedy(trunk, budget, open, tried) {
        HeaviestOnFrontier(trunk, open, depth, frontier, tried, c);
        if rows + Cost(c) > budget {
          GreedyTried(trunk, budget, open, tried, c, depth[c.path]);
        } else {
          GreedyOpened(trunk, budget, open, tried, c, depth[c.path]);
        }
      }
    }
  }
}
