/** Opening branches heaviest first, in a tree that was built: no branch takes the room of a heavier one. */
module GrowthGreedy {
  import opened GrowthBuild
  import opened GrowthGrown
  import opened GrowthOpen
  import opened GrowthTree

  lemma {:induction false} SumShrinks(files: seq<Entry>, d: Path, e: Path)
    requires d <= e
    ensures Sum(files, e) <= Sum(files, d)
  {
    hide Dir;
    if files != [] {
      SumShrinks(files[1..], d, e);
    }
  }

  lemma {:induction false} ExactShrinks(ks: seq<Branch>, above: Path, f: Files)
    requires Exact(ks, f) && Named(ks, above)
    ensures Shrinking(ks) && BelowNoHeavier(ks, Sum(f.lines, above))
  {
    hide Sum;
    if ks != [] {
      ExactShrinks(ks[0].children, ks[0].path, f);
      ExactShrinks(ks[1..], above, f);
      SumShrinks(f.lines, above, ks[0].path);
    }
  }

  /** In every tree a build can give, code is counted by folder, so no branch outweighs the one it hangs on. */
  lemma {:induction false} GrownShrinks(trunk: Branch, f: Files)
    requires Grown(trunk, f)
    ensures Shrinking(trunk.children)
  {
    hide *;
    GrownIsSound(trunk, f);
    SoundShrinks(trunk, f);
  }

  lemma SoundShrinks(trunk: Branch, f: Files)
    requires Sound(trunk, f)
    ensures Shrinking(trunk.children)
  {
    hide Shrinking, Distinct, All, Link, PathsOf, Counts;
    ExactShrinks(trunk.children, [], f);
  }

  lemma LightIs(x: Branch, trunk: Branch)
    ensures Light(x, trunk) <==> 100 * x.lines < 12 * trunk.lines
  {
    assert (100 * x.lines) as real == 100.0 * x.lines as real
      && (12 * trunk.lines) as real == 12.0 * trunk.lines as real;
  }

  /** A choice of branches to open, in numbers: every branch opened holds twelve hundredths of the code, has two
      branches or more to show and hangs at most three below the trunk; and any other of that kind that is drawn
      would not fit beside the open branches no lighter than itself. */
  lemma {:induction false} OpenedHeaviestFirst(trunk: Branch, budget: int, open: set<Path>, depth: map<Path, nat>,
                                               x: (Branch, nat))
    requires Settled(trunk, budget, open, depth) && HeaviestFirst(trunk, budget, open)
    requires x in TreeDrawn(trunk, open)
    ensures var good := 100 * x.0.lines >= 12 * trunk.lines && |Kids(x.0)| >= 2 && x.1 <= 3;
            if x.0.path in open then good
            else good ==> Cost(trunk) + HeavyRows(Kids(trunk), open, x.0.lines) + Cost(x.0) > budget
  {
    hide TreeDrawn, Cost, HeavyRows, Kids, Light;
    LightIs(x.0, trunk);
  }
}
