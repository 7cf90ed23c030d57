/** Joining chains of single folders (compress) and ordering branches (sortChildren). */
module GrowthShape {
  import opened GrowthBuild
  import opened GrowthOpen
  import opened GrowthTree

  /** c adds nothing to the numbers of its only child. */
  predicate Chain(c: Branch) {
    |c.children| == 1 && c.lines == c.children[0].lines && c.base == c.children[0].base
  }

  /** The folder a chain ends in, with the whole chain's name. */
  function Joined(c: Branch): (j: Branch)
    ensures Size(j.children) <= Size(c.children) && !Chain(j)
    ensures j.lines == c.lines && j.base == c.base
    decreases Size(c.children)
  {
    if !Chain(c) then c
    else
      var only := c.children[0];
      assert c.children[1..] == [];
      Joined(only.(name := c.name + only.name))
  }

  function Compressed(ks: seq<Branch>): (r: seq<Branch>)
    ensures |r| == |ks|
    ensures forall i :: 0 <= i < |ks| ==> r[i].lines == ks[i].lines && r[i].base == ks[i].base
    decreases Size(ks)
  {
    if ks == [] then []
    else
      var j := Joined(ks[0]);
      [j.(children := Compressed(j.children))] + Compressed(ks[1..])
  }

  method Compress(ks: seq<Branch>) returns (r: seq<Branch>)
    ensures r == Compressed(ks)
    decreases Size(ks)
  {
    hide Joined, Chain;
    r := [];
    assert ks[0..] == ks;
    for i := 0 to |ks|
      invariant r + Compressed(ks[i..]) == Compressed(ks)
    {
      CompressedNext(r, ks, i);
      var c := Join(ks[i]);
      var below := Compress(c.children);
      r := r + [c.(children := below)];
    }
    assert ks[|ks|..] == [] && r + [] == r;
  }

  method Join(k: Branch) returns (c: Branch)
    ensures c == Joined(k)
  {
    c := k;
    while Chain(c)
      invariant Joined(c) == Joined(k)
      decreases Size(c.children)
    {
      assert c.children[1..] == [];
      var only := c.children[0];
      c := only.(name := c.name + only.name);
    }
  }

  lemma {:induction false} CompressedNext(r: seq<Branch>, ks: seq<Branch>, i: nat)
    requires i < |ks|
    ensures Size(ks[i].children) < Size(ks)
    ensures var j := Joined(ks[i]);
            r + Compressed(ks[i..]) == (r + [j.(children := Compressed(j.children))]) + Compressed(ks[i + 1..])
  {
    hide Joined, Compressed;
    SizeOne(ks, i);
    var rest := ks[i..];
    assert rest[0] == ks[i] && rest[1..] == ks[i + 1..];
    CompressedFirst(rest);
  }

  lemma {:induction false} CompressedFirst(ks: seq<Branch>)
    requires ks != []
    ensures var j := Joined(ks[0]); Compressed(ks) == [j.(children := Compressed(j.children))] + Compressed(ks[1..])
  {
    hide Joined;
  }

  lemma {:induction false} SizeOne(ks: seq<Branch>, i: nat)
    requires i < |ks|
    ensures Size(ks[i].children) < Size(ks)
  {
    if i > 0 {
      assert ks[1..][i - 1] == ks[i];
      SizeOne(ks[1..], i - 1);
    }
  }

  // ---- what joining keeps ----

  lemma {:induction false} JoinedKeeps(c: Branch, above: Path, f: Files)
    requires Exact([c], f) && Named([c], above)
    ensures Exact([Joined(c)], f) && Named([Joined(c)], above)
    decreases Size(c.children)
  {
    if Chain(c) {
      var only := c.children[0];
      var n := only.(name := c.name + only.name);
      assert c.children[1..] == [] && c.children == [only];
      assert [c][1..] == [] && [n][1..] == [];
      assert n.path == above + n.name;
      JoinedKeeps(n, above, f);
    }
  }

  lemma {:induction false} CompressedKeeps(ks: seq<Branch>, above: Path, f: Files)
    requires Exact(ks, f) && Named(ks, above)
    ensures Exact(Compressed(ks), f) && Named(Compressed(ks), above)
    decreases Size(ks)
  {
    hide Joined;
    if ks != [] {
      var j := Joined(ks[0]);
      OneExact(ks[0], ks, above, f);
      JoinedKeeps(ks[0], above, f);
      OneNamed(j, above, f);
      CompressedKeeps(j.children, j.path, f);
      CompressedKeeps(ks[1..], above, f);
    }
  }

  lemma {:induction false} OneExact(k: Branch, ks: seq<Branch>, above: Path, f: Files)
    requires ks != [] && k == ks[0] && Exact(ks, f) && Named(ks, above)
    ensures Exact([k], f) && Named([k], above)
    ensures Exact(ks[1..], f) && Named(ks[1..], above)
  {
    assert [k][1..] == [];
  }

  lemma {:induction false} OneNamed(j: Branch, above: Path, f: Files)
    requires Exact([j], f) && Named([j], above)
    ensures Exact(j.children, f) && Named(j.children, j.path)
  {
  }

  // ---- which folders are left ----

  /** The paths of the folders that are no link of a chain. */
  function Kept(ks: seq<Branch>): set<Path> {
    if ks == [] then {}
    else (if Chain(ks[0]) then {} else {ks[0].path}) + Kept(ks[0].children) + Kept(ks[1..])
  }

  lemma {:induction false} JoinedKept(c: Branch)
    ensures var j := Joined(c);
            (if Chain(c) then {} else {c.path}) + Kept(c.children) == {j.path} + Kept(j.children)
    decreases Size(c.children)
  {
    if Chain(c) {
      var only := c.children[0];
      assert c.children[1..] == [];
      JoinedKept(only.(name := c.name + only.name));
    }
  }

  /** Joining leaves exactly the folders that are no link of a chain. */
  lemma {:induction false} CompressedIsKept(ks: seq<Branch>)
    ensures PathsOf(Compressed(ks)) == Kept(ks)
    decreases Size(ks)
  {
    hide Joined, Chain;
    if ks != [] {
      var j := Joined(ks[0]);
      JoinedKept(ks[0]);
      CompressedIsKept(j.children);
      CompressedIsKept(ks[1..]);
    }
  }
}
