/** The growth tree does not depend on the order a map gives its files in. */
module GrowthOrder {
  import opened GrowthBuild
  import opened GrowthShape
  import opened GrowthTree
  import opened Text

  // ---- the order of branches ----

  predicate StringLess(s: string, t: string) {
    t != [] && (s == [] || s[0] < t[0] || (s[0] == t[0] && StringLess(s[1..], t[1..])))
  }

  /** A name as it is drawn. */
  function Slashed(name: Path): string {
    if name == [] then "" else if |name| == 1 then name[0] else name[0] + "/" + Slashed(name[1..])
  }

  /** More code first, then by name. */
  predicate Less(x: Branch, y: Branch) {
    x.lines > y.lines || (x.lines == y.lines && StringLess(Slashed(x.name), Slashed(y.name)))
  }

  function Insert(x: Branch, s: seq<Branch>): (r: seq<Branch>)
    ensures |r| == |s| + 1
  {
    if s == [] || !Less(s[0], x) then [x] + s else [s[0]] + Insert(x, s[1..])
  }

  function InsertAll(ks: seq<Branch>): (r: seq<Branch>)
    ensures |r| == |ks|
  {
    if ks == [] then [] else Insert(ks[0], InsertAll(ks[1..]))
  }

  /** Every folder's branches in order. */
  function Sorted(ks: seq<Branch>): seq<Branch> {
    if ks == [] then [] else Insert(ks[0].(children := Sorted(ks[0].children)), Sorted(ks[1..]))
  }

  predicate InOrder(ks: seq<Branch>) { forall i :: 0 < i < |ks| ==> !Less(ks[i], ks[i - 1]) }

  lemma {:induction false} StringLessTrans(s: string, t: string, u: string)
    requires StringLess(s, t) && StringLess(t, u)
    ensures StringLess(s, u)
  {
    if s != [] && s[0] == t[0] && t[0] == u[0] {
      StringLessTrans(s[1..], t[1..], u[1..]);
    }
  }

  lemma {:induction false} StringLessTotal(s: string, t: string)
    ensures !(StringLess(s, t) && StringLess(t, s))
    ensures s != t ==> StringLess(s, t) || StringLess(t, s)
  {
    if s != [] && t != [] && s[0] == t[0] {
      StringLessTotal(s[1..], t[1..]);
      assert s == [s[0]] + s[1..] && t == [t[0]] + t[1..];
    }
  }

  lemma LessTrans(x: Branch, y: Branch, z: Branch)
    requires Less(x, y) && Less(y, z)
    ensures Less(x, z)
  {
    if x.lines == y.lines == z.lines {
      StringLessTrans(Slashed(x.name), Slashed(y.name), Slashed(z.name));
    }
  }

  lemma LessTotal(x: Branch, y: Branch)
    ensures !(Less(x, y) && Less(y, x))
    ensures Slashed(x.name) != Slashed(y.name) ==> Less(x, y) || Less(y, x)
  {
    StringLessTotal(Slashed(x.name), Slashed(y.name));
  }

  lemma {:induction false} InsertInOrder(x: Branch, s: seq<Branch>)
    requires InOrder(s)
    ensures InOrder(Insert(x, s))
    ensures s != [] ==> Insert(x, s)[0] == x || Insert(x, s)[0] == s[0]
  {
    hide Less;
    if s != [] && Less(s[0], x) {
      assert InOrder(s[1..]) by {
        forall i | 0 < i < |s[1..]|
          ensures !Less(s[1..][i], s[1..][i - 1])
        {
          assert s[1..][i] == s[i + 1] && s[1..][i - 1] == s[i];
        }
      }
      InsertInOrder(x, s[1..]);
      LessTotal(s[0], x);
      var r := Insert(x, s[1..]);
      if |s| > 1 {
        assert s[1..][0] == s[1];
      }
      assert !Less(r[0], s[0]);
      forall i | 0 < i < |Insert(x, s)|
        ensures !Less(Insert(x, s)[i], Insert(x, s)[i - 1])
      {
        if i > 1 {
          assert Insert(x, s)[i] == r[i - 1] && Insert(x, s)[i - 1] == r[i - 2];
        }
      }
    }
  }

  /** The branches of every branch of ks are in order, and so on down. */
  predicate LevelsInOrder(ks: seq<Branch>) {
    ks != [] ==> InOrder(ks[0].children) && LevelsInOrder(ks[0].children) && LevelsInOrder(ks[1..])
  }

  lemma {:induction false} InsertLevels(x: Branch, s: seq<Branch>)
    requires InOrder(x.children) && LevelsInOrder(x.children) && LevelsInOrder(s)
    ensures LevelsInOrder(Insert(x, s))
  {
    hide Less, InOrder;
    if s != [] && Less(s[0], x) {
      InsertLevels(x, s[1..]);
      assert Insert(x, s)[1..] == Insert(x, s[1..]);
    } else {
      assert ([x] + s)[1..] == s;
    }
  }

  /** At every level the branches come out in order: none before a heavier one, equals by name. */
  lemma {:induction false} SortedInOrder(ks: seq<Branch>)
    ensures InOrder(Sorted(ks)) && LevelsInOrder(Sorted(ks))
  {
    hide Insert, InOrder;
    if ks == [] {
      NothingInOrder();
    } else {
      var x := ks[0].(children := Sorted(ks[0].children));
      SortedInOrder(ks[0].children);
      SortedInOrder(ks[1..]);
      InsertInOrder(x, Sorted(ks[1..]));
      InsertLevels(x, Sorted(ks[1..]));
    }
  }

  lemma NothingInOrder()
    ensures InOrder([])
  {
  }

  // ---- ordering step by step ----

  method PutInOrder(x: Branch, s: seq<Branch>) returns (r: seq<Branch>)
    ensures r == Insert(x, s)
  {
    hide Less;
    var i := 0;
    while i < |s| && Less(s[i], x)
      invariant i <= |s|
      invariant Insert(x, s) == s[..i] + Insert(x, s[i..])
    {
      assert s[i..][1..] == s[i + 1..] && s[..i + 1] == s[..i] + [s[i]];
      assert s[..i] + ([s[i]] + Insert(x, s[i + 1..])) == s[..i + 1] + Insert(x, s[i + 1..]);
      i := i + 1;
    }
    r := s[..i] + ([x] + s[i..]);
  }

  method SortChildren(ks: seq<Branch>) returns (r: seq<Branch>)
    ensures r == Sorted(ks)
    decreases Size(ks)
  {
    hide Insert;
    r := [];
    for i := |ks| downto 0
      invariant r == Sorted(ks[i..])
    {
      SizeOne(ks, i);
      var below := SortChildren(ks[i].children);
      assert ks[i..][1..] == ks[i + 1..];
      r := PutInOrder(ks[i].(children := below), r);
    }
    assert ks[0..] == ks;
  }

  // ---- inserting in any order ----

  lemma {:induction false} InsertStep(x: Branch, s: seq<Branch>)
    ensures s == [] || !Less(s[0], x) ==> Insert(x, s) == [x] + s
    ensures s != [] && Less(s[0], x) ==> Insert(x, s) == [s[0]] + Insert(x, s[1..])
  {
  }

  lemma {:induction false} InsertSwap(x: Branch, y: Branch, s: seq<Branch>)
    requires Less(x, y)
    ensures Insert(x, Insert(y, s)) == Insert(y, Insert(x, s))
  {
    hide Less, Insert;
    LessTotal(x, y);
    InsertStep(x, s);
    InsertStep(y, s);
    if s != [] && Less(s[0], x) {
      LessTrans(s[0], x, y);
      InsertSwap(x, y, s[1..]);
      InsertStep(x, [s[0]] + Insert(y, s[1..]));
      InsertStep(y, [s[0]] + Insert(x, s[1..]));
      assert ([s[0]] + Insert(y, s[1..]))[1..] == Insert(y, s[1..]);
      assert ([s[0]] + Insert(x, s[1..]))[1..] == Insert(x, s[1..]);
    } else {
      InsertStep(y, [x] + s);
      assert ([x] + s)[1..] == s;
      InsertStep(x, Insert(y, s));
    }
  }

  /** Any two different branches can be told apart by their order. */
  ghost predicate Apart(ks: seq<Branch>) {
    forall x, y :: x in ks && y in ks && x != y ==> Less(x, y) || Less(y, x)
  }

  lemma {:induction false} InsertMiddle(a: seq<Branch>, x: Branch, b: seq<Branch>)
    requires Apart(a + [x] + b)
    ensures InsertAll(a + [x] + b) == Insert(x, InsertAll(a + b))
  {
    hide Less, Insert;
    var all := a + [x] + b;
    if a == [] {
      assert all[1..] == b && a + b == b;
    } else {
      assert all[1..] == a[1..] + [x] + b && (a + b)[1..] == a[1..] + b;
      assert a[0] in all && x in all;
      assert Apart(a[1..] + [x] + b);
      InsertMiddle(a[1..], x, b);
      var s := InsertAll(a[1..] + b);
      if Less(x, a[0]) {
        InsertSwap(x, a[0], s);
      } else if x != a[0] {
        InsertSwap(a[0], x, s);
      }
    }
  }

  // ---- one folder, joined and in order ----

  function Finished(b: Branch): Branch {
    var j := Joined(b);
    j.(children := Sorted(Compressed(j.children)))
  }

  lemma {:induction false} SortedCompressed(ks: seq<Branch>)
    requires ks != []
    ensures Sorted(Compressed(ks)) == Insert(Finished(ks[0]), Sorted(Compressed(ks[1..])))
  {
    hide Joined, Insert;
    assert Compressed(ks)[1..] == Compressed(ks[1..]);
  }

  /** The finished branches of several folders under d, in the order given. */
  function FinishedAt(ps: seq<Path>, d: Path, dirs: seq<Path>, t: Totals): (r: seq<Branch>)
    requires forall p :: p in ps ==> p in dirs && ChildOf(p, d)
    ensures |r| == |ps|
  {
    if ps == [] then [] else [Finished(TreeAt(ps[0], dirs, t))] + FinishedAt(ps[1..], d, dirs, t)
  }

  lemma {:induction false} SortedTrees(ps: seq<Path>, d: Path, dirs: seq<Path>, t: Totals)
    requires forall p :: p in ps ==> p in dirs && ChildOf(p, d)
    ensures Sorted(Compressed(Trees(ps, d, dirs, t))) == InsertAll(FinishedAt(ps, d, dirs, t))
  {
    hide Finished, Insert, TreeAt, Trees;
    if ps == [] {
      NoTrees(d, dirs, t);
    } else {
      TreesFirst(ps, d, dirs, t);
      SortedCompressed(Trees(ps, d, dirs, t));
      SortedTrees(ps[1..], d, dirs, t);
      assert FinishedAt(ps, d, dirs, t)[1..] == FinishedAt(ps[1..], d, dirs, t);
    }
  }

  lemma {:induction false} NoTrees(d: Path, dirs: seq<Path>, t: Totals)
    ensures Trees([], d, dirs, t) == []
  {
  }

  lemma {:induction false} JoinedRenamed(c: Branch, a: Path)
    ensures Joined(c.(name := a + c.name)) == Joined(c).(name := a + Joined(c).name)
    decreases Size(c.children)
  {
    if Chain(c) {
      var only := c.children[0];
      assert c.children[1..] == [];
      assert a + c.name + only.name == a + (c.name + only.name);
      JoinedRenamed(only.(name := c.name + only.name), a);
    }
  }

  lemma {:induction false} JoinedName(c: Branch)
    ensures c.name <= Joined(c).name
    decreases Size(c.children)
  {
    if Chain(c) {
      var only := c.children[0];
      assert c.children[1..] == [];
      JoinedName(only.(name := c.name + only.name));
    }
  }

  // ---- siblings are told apart ----

  /** Names hold no slash. */
  ghost predicate Clean(p: Path) { forall i :: 0 <= i < |p| ==> '/' !in p[i] }

  lemma {:induction false} SlashedFirst(name: Path)
    requires name != [] && '/' !in name[0]
    ensures Before(Slashed(name), '/') == name[0]
  {
    if |name| == 1 {
      SplitOne(name[0], '/');
    } else {
      BeforeFirst(name[0], '/', Slashed(name[1..]));
      assert name[0] + ['/'] + Slashed(name[1..]) == Slashed(name);
    }
  }

  lemma {:induction false} FinishedName(p: Path, dirs: seq<Path>, t: Totals)
    requires p != [] && Clean(p)
    ensures var b := Finished(TreeAt(p, dirs, t));
            b.name != [] && b.name[0] == p[|p| - 1] && Before(Slashed(b.name), '/') == p[|p| - 1]
  {
    hide Joined, Compressed, Sorted, Slashed, Trees;
    var b := TreeAt(p, dirs, t);
    JoinedName(b);
    assert b.name[0] == Joined(b).name[0];
    SlashedFirst(Joined(b).name);
  }

  lemma {:induction false} SiblingsApart(p: Path, q: Path, d: Path, dirs: seq<Path>, t: Totals)
    requires ChildOf(p, d) && ChildOf(q, d) && Clean(p) && Clean(q) && p != q
    ensures var x, y := Finished(TreeAt(p, dirs, t)), Finished(TreeAt(q, dirs, t));
            Less(x, y) || Less(y, x)
  {
    hide Finished, TreeAt, Less, Slashed;
    FinishedName(p, dirs, t);
    FinishedName(q, dirs, t);
    ChildName(p, d);
    ChildName(q, d);
    LessTotal(Finished(TreeAt(p, dirs, t)), Finished(TreeAt(q, dirs, t)));
  }

  lemma {:induction false} FinishedFrom(ps: seq<Path>, d: Path, dirs: seq<Path>, t: Totals, x: Branch) returns (p: Path)
    requires forall p :: p in ps ==> p in dirs && ChildOf(p, d)
    requires x in FinishedAt(ps, d, dirs, t)
    ensures p in ps && x == Finished(TreeAt(p, dirs, t))
  {
    hide Finished, TreeAt;
    if x == Finished(TreeAt(ps[0], dirs, t)) {
      p := ps[0];
    } else {
      p := FinishedFrom(ps[1..], d, dirs, t, x);
    }
  }

  lemma {:induction false} FinishedApart(ps: seq<Path>, d: Path, dirs: seq<Path>, t: Totals)
    requires forall p :: p in ps ==> p in dirs && ChildOf(p, d) && Clean(p)
    ensures Apart(FinishedAt(ps, d, dirs, t))
  {
    hide Finished, TreeAt, Less, FinishedAt;
    var r := FinishedAt(ps, d, dirs, t);
    forall x, y | x in r && y in r && x != y
      ensures Less(x, y) || Less(y, x)
    {
      var p := FinishedFrom(ps, d, dirs, t, x);
      var q := FinishedFrom(ps, d, dirs, t, y);
      SiblingsApart(p, q, d, dirs, t);
    }
  }

  // ---- the folders in any order ----

  lemma {:induction false} FinishedConcat(a: seq<Path>, b: seq<Path>, d: Path, dirs: seq<Path>, t: Totals)
    requires forall p :: p in a + b ==> p in dirs && ChildOf(p, d)
    ensures forall p :: p in a || p in b ==> p in a + b
    ensures FinishedAt(a + b, d, dirs, t) == FinishedAt(a, d, dirs, t) + FinishedAt(b, d, dirs, t)
  {
    hide Finished, TreeAt;
    if a == [] {
      assert a + b == b;
    } else {
      assert (a + b)[1..] == a[1..] + b;
      FinishedConcat(a[1..], b, d, dirs, t);
    }
  }

  lemma {:induction false} AnyOrder(ps: seq<Path>, qs: seq<Path>, d: Path, dirs: seq<Path>, t: Totals)
    requires multiset(ps) == multiset(qs)
    requires forall p :: p in ps ==> p in dirs && ChildOf(p, d) && Clean(p)
    ensures forall q :: q in qs ==> q in dirs && ChildOf(q, d)
    ensures InsertAll(FinishedAt(ps, d, dirs, t)) == InsertAll(FinishedAt(qs, d, dirs, t))
  {
    hide Finished, TreeAt, Insert, ChildOf, Clean;
    forall q | q in qs
      ensures q in ps
    {
      assert multiset(qs)[q] > 0;
    }
    if ps == [] {
      assert |multiset(qs)| == 0;
    } else {
      var k := TakeSame(ps, qs);
      var a, b := qs[..k], qs[k + 1..];
      AnyOrder(ps[1..], a + b, d, dirs, t);
      assert ps == [ps[0]] + ps[1..];
      TakeOut(a, ps[0], b, d, dirs, t);
      assert FinishedAt(ps, d, dirs, t)[1..] == FinishedAt(ps[1..], d, dirs, t);
    }
  }

  lemma CancelOne<T>(m: multiset<T>, n: multiset<T>, p: T)
    requires multiset{p} + m == multiset{p} + n
    ensures m == n
  {
    forall q
      ensures m[q] == n[q]
    {
      assert (multiset{p} + m)[q] == (multiset{p} + n)[q];
    }
  }

  lemma TakeSame<T>(ps: seq<T>, qs: seq<T>) returns (k: nat)
    requires ps != [] && multiset(ps) == multiset(qs)
    ensures k < |qs| && qs[k] == ps[0]
    ensures qs == qs[..k] + [ps[0]] + qs[k + 1..]
    ensures multiset(ps[1..]) == multiset(qs[..k] + qs[k + 1..])
  {
    var p := ps[0];
    assert multiset(ps)[p] > 0;
    assert p in qs;
    k :| 0 <= k < |qs| && qs[k] == p;
    assert qs == qs[..k] + [p] + qs[k + 1..];
    assert ps == [p] + ps[1..];
    var a, b, rest := qs[..k], qs[k + 1..], ps[1..];
    assert multiset(a + [p] + b) == multiset{p} + (multiset(a) + multiset(b));
    assert multiset([p] + rest) == multiset{p} + multiset(rest);
    CancelOne(multiset(rest), multiset(a) + multiset(b), p);
  }

  lemma {:induction false} TakeOut(a: seq<Path>, p: Path, b: seq<Path>, d: Path, dirs: seq<Path>, t: Totals)
    requires forall q :: q in a + [p] + b ==> q in dirs && ChildOf(q, d) && Clean(q)
    ensures forall q :: q in a + b ==> q in a + [p] + b
    ensures p in a + [p] + b
    ensures InsertAll(FinishedAt(a + [p] + b, d, dirs, t)) ==
            Insert(Finished(TreeAt(p, dirs, t)), InsertAll(FinishedAt(a + b, d, dirs, t)))
  {
    hide Finished, TreeAt, Insert, ChildOf, Clean;
    var x := Finished(TreeAt(p, dirs, t));
    FinishedConcat(a + [p], b, d, dirs, t);
    FinishedConcat(a, [p], d, dirs, t);
    FinishedConcat(a, b, d, dirs, t);
    assert [p][1..] == [] && FinishedAt([p], d, dirs, t) == [x];
    FinishedApart(a + [p] + b, d, dirs, t);
    InsertMiddle(FinishedAt(a, d, dirs, t), x, FinishedAt(b, d, dirs, t));
  }

  // ---- two orders of the same folders ----

  ghost predicate SameTotals(t: Totals, u: Totals) {
    forall d :: At(t.lines, d) == At(u.lines, d) && At(t.base, d) == At(u.base, d)
             && At(t.added, d) == At(u.added, d) && At(t.removed, d) == At(u.removed, d)
  }

  lemma {:induction false} ChildCount(dirs: seq<Path>, d: Path, p: Path)
    ensures multiset(ChildPaths(dirs, d))[p] == if ChildOf(p, d) then multiset(dirs)[p] else 0
  {
    hide ChildOf;
    if dirs != [] {
      ChildCount(dirs[1..], d, p);
      assert dirs == [dirs[0]] + dirs[1..];
      assert [] + ChildPaths(dirs[1..], d) == ChildPaths(dirs[1..], d);
    }
  }

  lemma {:induction false} SameChildren(dirs: seq<Path>, others: seq<Path>, d: Path)
    requires multiset(dirs) == multiset(others)
    ensures multiset(ChildPaths(dirs, d)) == multiset(ChildPaths(others, d))
  {
    hide ChildPaths, ChildOf;
    forall p
      ensures multiset(ChildPaths(dirs, d))[p] == multiset(ChildPaths(others, d))[p]
    {
      ChildCount(dirs, d, p);
      ChildCount(others, d, p);
    }
  }

  ghost predicate SameFolders(dirs: seq<Path>, others: seq<Path>, t: Totals, u: Totals) {
    && multiset(dirs) == multiset(others) && SameTotals(t, u)
    && (forall d :: d in dirs ==> Clean(d))
  }

  lemma SameOne(ps: seq<Path>, qs: seq<Path>)
    requires multiset(ps) == multiset(qs)
    ensures |ps| == |qs| && (|ps| == 1 ==> ps == qs)
  {
    assert |multiset(ps)| == |multiset(qs)|;
    if |ps| == 1 {
      var k := TakeSame(ps, qs);
    }
  }

  /** A folder that is no chain is finished by finishing the folders in it. */
  lemma {:induction false} FinishedPlain(p: Path, dirs: seq<Path>, t: Totals)
    requires !Chain(TreeAt(p, dirs, t))
    ensures var b := TreeAt(p, dirs, t);
            Finished(b) == b.(children := InsertAll(FinishedAt(ChildPaths(dirs, p), p, dirs, t)))
  {
    hide Chain, Sorted, Compressed, InsertAll, ChildPaths, Trees;
    SortedTrees(ChildPaths(dirs, p), p, dirs, t);
  }

  /** A chain is finished by finishing the one folder in it. */
  lemma {:induction false} FinishedChain(p: Path, dirs: seq<Path>, t: Totals, x: Path)
    requires Chain(TreeAt(p, dirs, t)) && ChildPaths(dirs, p) == [x]
    ensures x in dirs && ChildOf(x, p)
    ensures var f := Finished(TreeAt(x, dirs, t));
            Finished(TreeAt(p, dirs, t)) == f.(name := TreeAt(p, dirs, t).name + f.name)
  {
    hide Sorted, Compressed, Chain;
    var b, only := TreeAt(p, dirs, t), TreeAt(x, dirs, t);
    assert x in ChildPaths(dirs, p);
    TreesFirst([x], p, dirs, t);
    assert b.children == [only];
    JoinedRenamed(only, b.name);
  }

  lemma {:induction false} ChainTells(p: Path, dirs: seq<Path>, t: Totals)
    ensures Chain(TreeAt(p, dirs, t)) <==>
              |ChildPaths(dirs, p)| == 1
              && var x := ChildPaths(dirs, p)[0]; At(t.lines, p) == At(t.lines, x) && At(t.base, p) == At(t.base, x)
  {
    var ps := ChildPaths(dirs, p);
    if |ps| == 1 {
      assert ps[0] in ps;
      TreesFirst(ps, p, dirs, t);
    }
  }

  /** Each folder comes out the same, whichever order the folders were made in. */
  lemma {:induction false} FinishedSame(p: Path, dirs: seq<Path>, t: Totals, others: seq<Path>, u: Totals)
    requires SameFolders(dirs, others, t, u)
    ensures Finished(TreeAt(p, dirs, t)) == Finished(TreeAt(p, others, u))
    decreases Room(dirs, p), 2
  {
    hide Finished, ChildPaths, ChildOf, Clean, Sorted, Compressed, Chain, InsertAll, FinishedAt, Trees;
    var ps, qs := ChildPaths(dirs, p), ChildPaths(others, p);
    SameChildren(dirs, others, p);
    SameOne(ps, qs);
    ChainTells(p, dirs, t);
    ChainTells(p, others, u);
    if Chain(TreeAt(p, dirs, t)) {
      var x := ps[0];
      assert ps == [x];
      FinishedChain(p, dirs, t, x);
      FinishedChain(p, others, u, x);
      RoomShrinks(dirs, p, x);
      FinishedSame(x, dirs, t, others, u);
    } else {
      FinishedPlain(p, dirs, t);
      FinishedPlain(p, others, u);
      FoldersSame(p, dirs, t, others, u);
    }
  }

  lemma {:induction false} FoldersSame(p: Path, dirs: seq<Path>, t: Totals, others: seq<Path>, u: Totals)
    requires SameFolders(dirs, others, t, u)
    ensures InsertAll(FinishedAt(ChildPaths(dirs, p), p, dirs, t)) ==
            InsertAll(FinishedAt(ChildPaths(others, p), p, others, u))
    decreases Room(dirs, p), 1
  {
    hide InsertAll, FinishedAt, ChildPaths, ChildOf, Clean;
    var ps, qs := ChildPaths(dirs, p), ChildPaths(others, p);
    SameChildren(dirs, others, p);
    AnyOrder(ps, qs, p, dirs, t);
    OneByOne(qs, p, dirs, t, others, u);
  }

  lemma {:induction false} OneByOne(qs: seq<Path>, p: Path, dirs: seq<Path>, t: Totals, others: seq<Path>, u: Totals)
    requires SameFolders(dirs, others, t, u)
    requires forall q :: q in qs ==> q in dirs && q in others && ChildOf(q, p)
    ensures FinishedAt(qs, p, dirs, t) == FinishedAt(qs, p, others, u)
    decreases Room(dirs, p), 0, |qs|
  {
    hide Finished, TreeAt, ChildOf, Clean, SameFolders, Tallest;
    if qs != [] {
      assert qs[0] in qs;
      RoomShrinks(dirs, p, qs[0]);
      FinishedSame(qs[0], dirs, t, others, u);
      OneByOne(qs[1..], p, dirs, t, others, u);
    }
  }
}
