/** What a branch of the growth panel counts, which branches are shown and in which order, and which folder the words
    of an item mean. */
module GrowthWords {
  import opened GrowthBuild
  import opened GrowthGrown
  import opened GrowthMention
  import opened GrowthOrder
  import opened GrowthShape
  import opened GrowthSpelled
  import opened GrowthTree
  import opened Text

  // ---- the first six ----

  /** A branch with code in it, now or when the session began, with lines added, or planted for an item. */
  predicate Worth(c: Branch) { c.lines > 0 || c.base > 0 || c.added > 0 || c.seed }

  function WorthShowing(ks: seq<Branch>): seq<Branch> {
    if ks == [] then [] else (if Worth(ks[0]) then [ks[0]] else []) + WorthShowing(ks[1..])
  }

  lemma {:induction false} ShownUpTo(ks: seq<Branch>, room: nat) returns (p: nat)
    ensures p <= |ks| && Shown(ks, room) == WorthShowing(ks[..p]) && Hidden(ks, room) == ks[p..]
    ensures p < |ks| ==> |Shown(ks, room)| == room && Worth(ks[p])
  {
    hide Shown, Hidden, WorthShowing, Worth, Visible;
    if ks == [] || (Worth(ks[0]) && room == 0) {
      p := 0;
      assert ks[..0] == [] && ks[0..] == ks;
      NoneShown(ks, room);
    } else {
      var q := ShownUpTo(ks[1..], if Worth(ks[0]) then room - 1 else room);
      p := q + 1;
      assert ks[..p][0] == ks[0] && ks[..p][1..] == ks[1..][..q] && ks[1..][q..] == ks[p..];
      NextShown(ks, room);
      FirstWorth(ks[..p]);
      assert p < |ks| ==> ks[1..][q] == ks[p];
    }
  }

  lemma {:induction false} NoneShown(ks: seq<Branch>, room: nat)
    requires ks == [] || (Worth(ks[0]) && room == 0)
    ensures Shown(ks, room) == [] == WorthShowing([]) && Hidden(ks, room) == ks
  {
  }

  lemma {:induction false} NextShown(ks: seq<Branch>, room: nat)
    requires ks != [] && !(Worth(ks[0]) && room == 0)
    ensures var left := if Worth(ks[0]) then room - 1 else room;
            && Shown(ks, room) == (if Worth(ks[0]) then [ks[0]] else []) + Shown(ks[1..], left)
            && Hidden(ks, room) == Hidden(ks[1..], left)
  {
    assert [] + Shown(ks[1..], room) == Shown(ks[1..], room);
  }

  lemma {:induction false} FirstWorth(ks: seq<Branch>)
    requires ks != []
    ensures WorthShowing(ks) == (if Worth(ks[0]) then [ks[0]] else []) + WorthShowing(ks[1..])
  {
    hide Worth;
  }

  /** Of a folder's branches the first six worth showing are shown, and the others from the seventh on, worth
      showing or not, are more, on a row of their own. */
  lemma {:induction false} FirstSixShown(n: Branch) returns (p: nat)
    ensures p <= |n.children| && Kids(n) == WorthShowing(n.children[..p]) && More(n) == |n.children| - p
    ensures |Kids(n)| <= 6 && (p < |n.children| ==> |Kids(n)| == 6 && Worth(n.children[p]))
    ensures Cost(n) == |Kids(n)| + if p < |n.children| then 1 else 0
  {
    p := ShownUpTo(n.children, 6);
  }

  // ---- what a branch counts ----

  /** Each file is counted by the folders it is in, however deep below them, and by no other. */
  lemma {:induction false} CountedWhereItIs(a: seq<Entry>, e: Entry, b: seq<Entry>, d: Path)
    ensures Sum(a + [e] + b, d) ==
            Sum(a, d) + Sum(b, d) + if d == [] || (|d| < |e.file| && d == e.file[..|d|]) then e.value else 0
  {
    var files := a + [e] + b;
    if a == [] {
      assert files[1..] == b;
      InFolder(d, e.file);
    } else {
      assert files[1..] == a[1..] + [e] + b;
      CountedWhereItIs(a[1..], e, b, d);
    }
  }

  lemma InFolder(d: Path, file: Path)
    ensures d <= Dir(file) <==> d == [] || (|d| < |file| && d == file[..|d|])
  {
    if file != [] && |d| < |file| {
      assert Dir(file)[..|d|] == file[..|d|];
    }
  }

  /** None of the branches is a planned one. */
  predicate Unplanned(ks: seq<Branch>) {
    ks != [] ==> !ks[0].seed && Unplanned(ks[0].children) && Unplanned(ks[1..])
  }

  lemma {:induction false} TreesUnplanned(ps: seq<Path>, d: Path, dirs: seq<Path>, t: Totals)
    requires forall p :: p in ps ==> p in dirs && ChildOf(p, d)
    ensures Unplanned(Trees(ps, d, dirs, t))
    decreases Room(dirs, d), |ps|
  {
    hide Room, Tallest, ChildPaths, ChildOf, At;
    if ps != [] {
      var p := ps[0];
      RoomShrinks(dirs, d, p);
      TreesUnplanned(ChildPaths(dirs, p), p, dirs, t);
      TreesUnplanned(ps[1..], d, dirs, t);
      assert Trees(ps, d, dirs, t)[1..] == Trees(ps[1..], d, dirs, t);
    }
  }

  lemma {:induction false} JoinedUnplanned(c: Branch)
    requires !c.seed && Unplanned(c.children)
    ensures !Joined(c).seed && Unplanned(Joined(c).children)
    decreases Size(c.children)
  {
    if Chain(c) {
      var only := c.children[0];
      assert c.children[1..] == [];
      JoinedUnplanned(only.(name := c.name + only.name));
    }
  }

  lemma {:induction false} CompressedUnplanned(ks: seq<Branch>)
    requires Unplanned(ks)
    ensures Unplanned(Compressed(ks))
    decreases Size(ks)
  {
    hide Joined;
    if ks != [] {
      JoinedUnplanned(ks[0]);
      CompressedUnplanned(Joined(ks[0]).children);
      CompressedUnplanned(ks[1..]);
    }
  }

  lemma {:induction false} InsertUnplanned(x: Branch, ks: seq<Branch>)
    requires !x.seed && Unplanned(x.children) && Unplanned(ks)
    ensures Unplanned(Insert(x, ks))
  {
    hide Less;
    if ks != [] && Less(ks[0], x) {
      InsertUnplanned(x, ks[1..]);
      assert Insert(x, ks)[1..] == Insert(x, ks[1..]);
    } else {
      assert ([x] + ks)[1..] == ks;
    }
  }

  lemma {:induction false} SortedUnplanned(ks: seq<Branch>)
    requires Unplanned(ks)
    ensures Unplanned(Sorted(ks))
  {
    hide Insert;
    if ks != [] {
      SortedUnplanned(ks[0].children);
      SortedUnplanned(ks[1..]);
      InsertUnplanned(ks[0].(children := Sorted(ks[0].children)), Sorted(ks[1..]));
    }
  }

  /** No branch of a tree that was built from files is a planned one. */
  lemma {:induction false} GrownUnplanned(trunk: Branch, f: Files)
    requires Grown(trunk, f)
    ensures Unplanned([trunk])
  {
    hide Trees, Compressed, Sorted, Folders, TotalsOf, ChildPaths, At;
    var t :| TotalsOf(t, f) && trunk == GrownFrom(Folders(f), t);
    var dirs := Folders(f);
    var built := Trees(ChildPaths(dirs, []), [], dirs, t);
    TreesUnplanned(ChildPaths(dirs, []), [], dirs, t);
    CompressedUnplanned(built);
    SortedUnplanned(Compressed(built));
    assert [trunk][1..] == [];
  }

  // ---- heaviest first ----

  /** They part, or s ends, after k characters. */
  predicate PartAt(s: string, t: string, k: nat) {
    k <= |s| && k < |t| && s[..k] == t[..k] && (k == |s| || s[k] < t[k])
  }

  /** s stands before t in a dictionary: t goes on where s ends, or has a later character where they part. */
  ghost predicate Before(s: string, t: string) {
    exists k: nat :: PartAt(s, t, k)
  }

  lemma {:induction false} BeforeIsLess(s: string, t: string)
    ensures Before(s, t) <==> StringLess(s, t)
  {
    if s != [] && t != [] && s[0] == t[0] {
      BeforeIsLess(s[1..], t[1..]);
      BeforeBehind(s, t);
    } else if StringLess(s, t) {
      assert PartAt(s, t, 0);
    } else {
      forall k: nat
        ensures !PartAt(s, t, k)
      {
        if 0 < k <= |s| && k <= |t| && s[..k] == t[..k] {
          SameStart(s, t, k);
        }
      }
    }
  }

  lemma SameStart(s: string, t: string, k: nat)
    requires 0 < k <= |s| && k <= |t| && s[..k] == t[..k]
    ensures s[0] == t[0]
  {
    assert s[..k][0] == t[..k][0];
  }

  lemma BeforeBehind(s: string, t: string)
    requires s != [] && t != [] && s[0] == t[0]
    ensures Before(s, t) <==> Before(s[1..], t[1..])
  {
    hide PartAt;
    var x, y := s[1..], t[1..];
    if Before(s, t) {
      var k: nat :| PartAt(s, t, k);
      PartBehind(s, t, k);
    }
    if Before(x, y) {
      var k: nat :| PartAt(x, y, k);
      PartFurther(s, t, k);
    }
  }

  lemma PartBehind(s: string, t: string, k: nat)
    requires s != [] && t != [] && s[0] == t[0] && PartAt(s, t, k)
    ensures k > 0 && PartAt(s[1..], t[1..], k - 1)
  {
    assert k > 0;
    assert s[1..][..k - 1] == s[..k][1..] && t[1..][..k - 1] == t[..k][1..];
  }

  lemma PartFurther(s: string, t: string, k: nat)
    requires s != [] && t != [] && s[0] == t[0] && PartAt(s[1..], t[1..], k)
    ensures PartAt(s, t, k + 1)
  {
    assert s[..k + 1] == [s[0]] + s[1..][..k] && t[..k + 1] == [t[0]] + t[1..][..k];
  }

  /** None of ks has more code than one before it, and of two with as much none that is named earlier stands
      after the other. */
  ghost predicate HeaviestFirst(ks: seq<Branch>) {
    forall i, j :: 0 <= i < j < |ks| ==>
      ks[i].lines > ks[j].lines
      || (ks[i].lines == ks[j].lines && !Before(Slashed(ks[j].name), Slashed(ks[i].name)))
  }

  ghost predicate AllHeaviestFirst(ks: seq<Branch>) {
    HeaviestFirst(ks) && forall k :: k in ks ==> AllHeaviestFirst(k.children)
  }

  lemma NotLess(x: Branch, y: Branch)
    ensures !Less(y, x) <==>
            x.lines > y.lines || (x.lines == y.lines && !Before(Slashed(y.name), Slashed(x.name)))
  {
    BeforeIsLess(Slashed(y.name), Slashed(x.name));
  }

  lemma NotLessTrans(x: Branch, y: Branch, z: Branch)
    requires !Less(y, x) && !Less(z, y)
    ensures !Less(z, x)
  {
    var a, b, c := Slashed(x.name), Slashed(y.name), Slashed(z.name);
    if Less(z, x) && x.lines == y.lines == z.lines {
      if a != b {
        StringLessTotal(a, b);
        StringLessTrans(c, a, b);
      }
    }
  }

  lemma {:induction false} InOrderPairs(ks: seq<Branch>, i: nat, j: nat)
    requires InOrder(ks) && i < j < |ks|
    ensures !Less(ks[j], ks[i])
    decreases j - i
  {
    hide Less;
    if i + 1 < j {
      InOrderPairs(ks, i, j - 1);
      NotLessTrans(ks[i], ks[j - 1], ks[j]);
    }
  }

  lemma InOrderIsHeaviest(ks: seq<Branch>)
    requires InOrder(ks)
    ensures HeaviestFirst(ks)
  {
    hide Less, Before, InOrder, Slashed;
    forall i, j | 0 <= i < j < |ks|
      ensures ks[i].lines > ks[j].lines
              || (ks[i].lines == ks[j].lines && !Before(Slashed(ks[j].name), Slashed(ks[i].name)))
    {
      InOrderPairs(ks, i, j);
      NotLess(ks[i], ks[j]);
    }
  }

  lemma {:induction false} LevelsHeaviest(ks: seq<Branch>)
    requires InOrder(ks) && LevelsInOrder(ks)
    ensures AllHeaviestFirst(ks)
  {
    hide InOrder, HeaviestFirst;
    InOrderIsHeaviest(ks);
    forall k | k in ks
      ensures AllHeaviestFirst(k.children)
    {
      BranchInOrder(ks, k);
      LevelsHeaviest(k.children);
    }
  }

  lemma {:induction false} BranchInOrder(ks: seq<Branch>, k: Branch)
    requires LevelsInOrder(ks) && k in ks
    ensures InOrder(k.children) && LevelsInOrder(k.children)
  {
    hide InOrder;
    if k != ks[0] {
      BranchInOrder(ks[1..], k);
    }
  }

  /** Sorting puts the heaviest branch first at every level, and of two as heavy the one first by name. */
  lemma {:induction false} SortedHeaviestFirst(ks: seq<Branch>)
    ensures AllHeaviestFirst(Sorted(ks))
  {
    SortedInOrder(ks);
    LevelsHeaviest(Sorted(ks));
  }

  // ---- the folder an item's words name ----

  predicate InWord(c: char) { c == '_' || 'a' <= c <= 'z' || '0' <= c <= '9' }

  ghost predicate StandsIn(s: string, t: string) { exists a, b :: s == a + t + b }

  /** With no letter, digit or underscore at either end. */
  predicate Apart(a: string, b: string) { (a == "" || !InWord(a[|a| - 1])) && (b == "" || !InWord(b[0])) }

  ghost predicate StandsAlone(s: string, t: string) { exists a, b :: s == a + t + b && Apart(a, b) }

  /** The lower-cased text has the folder's whole path somewhere in it, or its last name, when that has three
      letters at least, standing alone. */
  ghost predicate Mentions(whole: string, path: string, last: string) {
    StandsIn(whole, path) || (|last| >= 3 && StandsAlone(whole, last))
  }

  lemma ContainsIs(s: string, t: string)
    ensures Contains(s, t) <==> StandsIn(s, t)
  {
    hide IndexFrom;
    if Contains(s, t) {
      var k := IndexFrom(s, t, 0).value;
      assert s == s[..k] + t + s[k + |t|..];
    }
    if a, b :| s == a + t + b {
      assert OccursAt(s, t, |a|);
    }
  }

  lemma Around(s: string, a: string, t: string, b: string)
    requires s == a + t + b
    ensures OccursAt(s, t, |a|)
    ensures a != "" ==> s[|a| - 1] == a[|a| - 1]
    ensures b != "" ==> s[|a| + |t|] == b[0]
    ensures b == "" <==> |a| + |t| == |s|
  {
  }

  lemma WordAtIs(s: string, a: string, t: string, b: string)
    requires s == a + t + b
    ensures WordAt(s, t, |a|) <==> Apart(a, b)
  {
    hide OccursAt;
    Around(s, a, t, b);
  }

  lemma HasWordIs(s: string, t: string)
    ensures HasWord(s, t) <==> StandsAlone(s, t)
  {
    hide WordAt, Apart;
    if HasWord(s, t) {
      var k: nat :| k <= |s| && WordAt(s, t, k);
      Parted(s, t, k);
      WordAtIs(s, s[..k], t, s[k + |t|..]);
    }
    if a, b :| s == a + t + b && Apart(a, b) {
      WordAtIs(s, a, t, b);
      assert |a| <= |s|;
    }
  }

  lemma Parted(s: string, t: string, k: nat)
    requires k <= |s| && WordAt(s, t, k)
    ensures k + |t| <= |s| && s == s[..k] + t + s[k + |t|..]
  {
  }

  lemma {:induction false} NamesIsMentions(text: string, p: Path, lower: string -> string)
    requires p != []
    ensures Names(text, p, lower) <==> Mentions(lower(text), lower(Slashed(p)), lower(p[|p| - 1]))
  {
    hide Contains, HasWord, StandsIn, StandsAlone, Slashed;
    ContainsIs(lower(text), lower(Slashed(p)));
    HasWordIs(lower(text), lower(p[|p| - 1]));
  }

  /** The text mentions this folder. */
  ghost predicate Mentioning(text: string, p: Path, lower: string -> string) {
    p != [] && Mentions(lower(text), lower(Slashed(p)), lower(p[|p| - 1]))
  }

  /** Of the folders a text mentions it means the deepest, and of two as deep the one first by name; none when it
      mentions none. */
  lemma {:induction false} MeansTheDeepest(text: string, all: seq<Path>, lower: string -> string)
    requires forall p :: p in all ==> Clean(p)
    ensures var m := Mentioned(text, all, lower, []);
            && (m == [] <==> forall p :: p in all ==> !Mentioning(text, p, lower))
            && (m != [] ==> m in all && Mentioning(text, m, lower))
            && forall p :: p in all && Mentioning(text, p, lower) ==>
                 |p| < |m| || (|p| == |m| && !Before(Slashed(p), Slashed(m)))
  {
    hide Names, Clean, Mentioned, Before, Mentions;
    assert Clean([]) by { NoNames(); }
    MentionedIsBest(text, all, lower, []);
    var m := Mentioned(text, all, lower, []);
    forall p | p in all && p != []
      ensures Mentioning(text, p, lower) <==> Candidate(text, all, lower, p)
      ensures Better(p, m) <==> |p| > |m| || (|p| == |m| && Before(Slashed(p), Slashed(m)))
    {
      NamesIsMentions(text, p, lower);
      BeforeIsLess(Slashed(p), Slashed(m));
    }
  }

  lemma NoNames()
    ensures Clean([])
  {
  }

  // ---- the folder it spells out ----

  /** The folder spelled out is all of the names of the path found, less the last if that has a point in it. */
  lemma {:induction false} FileNameDropped(text: string)
    ensures var at := FirstStart(text, 0);
            if at.None? then SpelledOut(text) == []
            else
              var names := NamesFrom(text, at.value);
              |names| >= 2 && SpelledOut(text) + (if '.' in names[|names| - 1] then [names[|names| - 1]] else []) ==
                names
  {
    hide NamesFrom;
  }

  /** Names are made of letters, digits, underscores, points and dashes. */
  lemma NameCharIs(c: char)
    ensures NameChar(c) <==> 'A' <= c <= 'Z' || 'a' <= c <= 'z' || '0' <= c <= '9' || c == '_' || c == '.' || c == '-'
  {
    assert "_.-" == ['_', '.', '-'];
  }
}
