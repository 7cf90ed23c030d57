/** Which folder of the tree the words of a plan item name (mentionedDir, wordIn). lower stands for lower
    casing. */
module GrowthMention {
  import opened GrowthOrder
  import opened GrowthTree
  import opened Text

  // ---- a word in a text ----

  predicate WordByte(c: char) { c == '_' || 'a' <= c <= 'z' || IsDigit(c) }

  /** word stands at k with no letter, digit or underscore at either end. */
  predicate WordAt(text: string, word: string, k: nat) {
    && OccursAt(text, word, k)
    && (k == 0 || !WordByte(text[k - 1]))
    && (k + |word| == |text| || !WordByte(text[k + |word|]))
  }

  predicate HasWord(text: string, word: string) { exists k: nat :: k <= |text| && WordAt(text, word, k) }

  method WordIn(text: string, word: string) returns (found: bool)
    requires word != ""
    ensures found == HasWord(text, word)
  {
    var i := 0;
    while true
      invariant i <= |text|
      invariant forall k: nat :: k < i ==> !WordAt(text, word, k)
      decreases |text| - i
    {
      var at := Index(text, word, i);
      if at.None? {
        return false;
      }
      var k := at.value;
      if (k == 0 || !WordByte(text[k - 1])) && (k + |word| == |text| || !WordByte(text[k + |word|])) {
        assert WordAt(text, word, k);
        return true;
      }
      i := k + 1;
    }
  }

  // ---- the folder named ----

  /** The text names the folder by its whole path, or by its own name of three letters or more. */
  predicate Names(text: string, p: Path, lower: string -> string)
    requires p != []
  {
    var whole, last := lower(text), lower(p[|p| - 1]);
    Contains(whole, lower(Slashed(p))) || (|last| >= 3 && HasWord(whole, last))
  }

  /** A deeper folder is better, and of two as deep the one first by name. */
  predicate Better(p: Path, best: Path) {
    |p| > |best| || (|p| == |best| && StringLess(Slashed(p), Slashed(best)))
  }

  /** The best folder of all that the text names, best being the one so far; the empty path is none. */
  function Mentioned(text: string, all: seq<Path>, lower: string -> string, best: Path): Path
    decreases |all|
  {
    if all == [] then best
    else
      var p := all[0];
      Mentioned(text, all[1..], lower, if p != [] && Names(text, p, lower) && Better(p, best) then p else best)
  }

  method MentionedDir(text: string, all: seq<Path>, lower: string -> string) returns (best: Path)
    ensures best == Mentioned(text, all, lower, [])
  {
    hide Names, Better;
    best := [];
    for i := 0 to |all|
      invariant Mentioned(text, all[i..], lower, best) == Mentioned(text, all, lower, [])
    {
      assert all[i..][1..] == all[i + 1..];
      var p := all[i];
      if p == [] {
        continue;
      }
      var named := NamesDir(text, p, lower);
      if named && Better(p, best) {
        best := p;
      }
    }
    assert all[|all|..] == [];
  }

  method NamesDir(text: string, p: Path, lower: string -> string) returns (named: bool)
    requires p != []
    ensures named == Names(text, p, lower)
  {
    hide HasWord, IndexFrom;
    var at := Index(lower(text), lower(Slashed(p)), 0);
    named := at.Some?;
    if !named {
      var last := lower(p[|p| - 1]);
      if |last| >= 3 {
        named := WordIn(lower(text), last);
      }
    }
  }

  // ---- in any order ----

  lemma {:induction false} SlashedInjective(p: Path, q: Path)
    requires |p| == |q| && Clean(p) && Clean(q) && Slashed(p) == Slashed(q)
    ensures p == q
  {
    if p != [] {
      SlashedFirst(p);
      SlashedFirst(q);
      assert p[0] == q[0];
      if |p| > 1 {
        var n := |p[0]| + 1;
        assert Slashed(p)[n..] == Slashed(p[1..]) && Slashed(q)[n..] == Slashed(q[1..]);
        SlashedInjective(p[1..], q[1..]);
      }
      assert p == [p[0]] + p[1..] && q == [q[0]] + q[1..];
    }
  }

  lemma BetterTrans(p: Path, q: Path, r: Path)
    requires Better(p, q) && Better(q, r)
    ensures Better(p, r)
  {
    if |p| == |q| == |r| {
      StringLessTrans(Slashed(p), Slashed(q), Slashed(r));
    }
  }

  lemma BetterTotal(p: Path, q: Path)
    requires Clean(p) && Clean(q) && p != q
    ensures Better(p, q) <==> !Better(q, p)
  {
    if |p| == |q| {
      StringLessTotal(Slashed(p), Slashed(q));
      if Slashed(p) == Slashed(q) {
        SlashedInjective(p, q);
      }
    }
  }

  /** A folder the text names, or none. */
  ghost predicate Candidate(text: string, all: seq<Path>, lower: string -> string, p: Path) {
    p in all && p != [] && Names(text, p, lower)
  }

  /** What comes out is best or a folder named, and none named is better. */
  lemma {:induction false} MentionedIsBest(text: string, all: seq<Path>, lower: string -> string, best: Path)
    requires Clean(best) && forall p :: p in all ==> Clean(p)
    ensures var m := Mentioned(text, all, lower, best);
            && (m == best || (Candidate(text, all, lower, m) && Better(m, best)))
            && forall p :: Candidate(text, all, lower, p) ==> !Better(p, m)
    decreases |all|
  {
    hide Names, Better, Clean;
    if all != [] {
      var p, rest := all[0], all[1..];
      var next := if p != [] && Names(text, p, lower) && Better(p, best) then p else best;
      MentionedIsBest(text, rest, lower, next);
      var m := Mentioned(text, rest, lower, next);
      if m != next && next != best {
        BetterTrans(m, p, best);
      }
      FirstNoBetter(text, p, best, next, m, lower);
      assert forall q :: Candidate(text, all, lower, q) ==> q == p || Candidate(text, rest, lower, q);
    }
  }

  lemma FirstNoBetter(text: string, p: Path, best: Path, next: Path, m: Path, lower: string -> string)
    requires Clean(p) && Clean(best) && Clean(m)
    requires next == if p != [] && Names(text, p, lower) && Better(p, best) then p else best
    requires m == next || Better(m, next)
    ensures p != [] && Names(text, p, lower) ==> !Better(p, m)
  {
    hide Names, Better, Clean;
    NotBetterThanSelf(p);
    if p != [] && Names(text, p, lower) && Better(p, m) {
      if m != next {
        BetterTrans(p, m, next);
      }
    }
  }

  lemma NotBetterThanSelf(p: Path)
    ensures !Better(p, p)
  {
    StringLessTotal(Slashed(p), Slashed(p));
  }

  /** Whatever order the folders come in, the text names the same one: the deepest of those it names, and of
      two as deep the one first by name. */
  lemma {:induction false} MentionedWhateverTheOrder(text: string, all: seq<Path>, others: seq<Path>,
                                                     lower: string -> string)
    requires forall p :: p in all <==> p in others
    requires forall p :: p in all ==> Clean(p)
    ensures Mentioned(text, all, lower, []) == Mentioned(text, others, lower, [])
    ensures forall p :: Candidate(text, all, lower, p) ==> !Better(p, Mentioned(text, all, lower, []))
  {
    hide Names, Better, Clean, Mentioned;
    assert Clean([]) by { NoNames(); }
    MentionedIsBest(text, all, lower, []);
    MentionedIsBest(text, others, lower, []);
    var m, n := Mentioned(text, all, lower, []), Mentioned(text, others, lower, []);
    if m != n {
      assert m == [] || Candidate(text, others, lower, m);
      assert n == [] || Candidate(text, all, lower, n);
      BetterTotal(m, n);
    }
  }

  lemma NoNames()
    ensures Clean([])
  {
  }
}
