/** The growth panel's tree of folders: which branches of a folder are shown, and what its numbers are. */
module GrowthTree {

  /** A folder, by the names on the way to it; the trunk is the empty path. */
  type Path = seq<string>

  /** A node: path is where it is, name what leads to it from the node above, more than one step after
      joining. */
  datatype Branch = Branch(path: Path, name: Path, lines: nat, base: nat, added: nat, removed: nat, seed: bool,
                           children: seq<Branch>)

  const MAX_BRANCHES := 6

  predicate Visible(c: Branch) { c.lines != 0 || c.base != 0 || c.seed || c.added != 0 }

  function Size(ks: seq<Branch>): (n: nat)
    ensures n >= |ks|
  {
    if ks == [] then 0 else 1 + Size(ks[0].children) + Size(ks[1..])
  }

  /** The first branches worth showing, as many as there is room for. */
  function Shown(ks: seq<Branch>, room: nat): (r: seq<Branch>)
    ensures |r| <= room && Size(r) <= Size(ks)
    ensures forall k :: k in r ==> k in ks && Visible(k)
  {
    if ks == [] then []
    else if !Visible(ks[0]) then Shown(ks[1..], room)
    else if room == 0 then []
    else [ks[0]] + Shown(ks[1..], room - 1)
  }

  /** What stands behind "… n more": all from the first one with no room on, worth showing or not. */
  function Hidden(ks: seq<Branch>, room: nat): seq<Branch> {
    if ks == [] then []
    else if !Visible(ks[0]) then Hidden(ks[1..], room)
    else if room == 0 then ks
    else Hidden(ks[1..], room - 1)
  }

  function LinesOf(ks: seq<Branch>): nat {
    if ks == [] then 0 else ks[0].lines + LinesOf(ks[1..])
  }

  function Kids(n: Branch): (r: seq<Branch>)
    ensures |r| <= MAX_BRANCHES && Size(r) <= Size(n.children)
    ensures forall k :: k in r ==> k in n.children && Visible(k)
  {
    Shown(n.children, MAX_BRANCHES)
  }

  function More(n: Branch): nat { |Hidden(n.children, MAX_BRANCHES)| }

  /** The rows an open branch takes under its own. */
  function Cost(n: Branch): nat { |Kids(n)| + if More(n) > 0 then 1 else 0 }

  method ShownChildren(n: Branch) returns (shown: seq<Branch>, more: nat, moreLines: nat)
    ensures shown == Kids(n) && more == More(n)
    ensures LinesOf(shown) + moreLines == LinesOf(n.children)
  {
    hide Visible, Shown, Hidden, LinesOf;
    shown, more, moreLines := [], 0, 0;
    assert [] + Shown(n.children, MAX_BRANCHES) == Shown(n.children, MAX_BRANCHES);
    assert n.children[0..] == n.children;
    for i := 0 to |n.children|
      invariant |shown| <= MAX_BRANCHES && more == 0 && moreLines == 0
      invariant Shown(n.children, MAX_BRANCHES) == shown + Shown(n.children[i..], MAX_BRANCHES - |shown|)
      invariant Hidden(n.children, MAX_BRANCHES) == Hidden(n.children[i..], MAX_BRANCHES - |shown|)
    {
      var c := n.children[i];
      assert n.children[i..][1..] == n.children[i + 1..];
      ShownNext(shown, n.children[i..]);
      if Visible(c) {
        if |shown| == MAX_BRANCHES {
          more, moreLines := SumUp(n.children[i..]);
          break;
        }
        shown := shown + [c];
      }
    }
    ShownEnd(shown);
    ShownAddUp(n.children, MAX_BRANCHES);
  }

  method SumUp(rest: seq<Branch>) returns (more: nat, moreLines: nat)
    ensures more == |rest| && moreLines == LinesOf(rest)
  {
    more, moreLines := 0, 0;
    for j := 0 to |rest|
      invariant more == j && moreLines + LinesOf(rest[j..]) == LinesOf(rest)
    {
      assert rest[j..][1..] == rest[j + 1..];
      more, moreLines := more + 1, moreLines + rest[j].lines;
    }
    assert rest[|rest|..] == [];
  }

  lemma {:induction false} ShownNext(shown: seq<Branch>, ks: seq<Branch>)
    requires |shown| <= MAX_BRANCHES && ks != []
    ensures var room := MAX_BRANCHES - |shown|;
            if !Visible(ks[0]) then Shown(ks, room) == Shown(ks[1..], room) && Hidden(ks, room) == Hidden(ks[1..], room)
            else if room == 0 then shown + Shown(ks, room) == shown && Hidden(ks, room) == ks
            else
              && shown + Shown(ks, room) == (shown + [ks[0]]) + Shown(ks[1..], room - 1)
              && Hidden(ks, room) == Hidden(ks[1..], room - 1)
  {
    hide Visible;
  }

  lemma {:induction false} ShownEnd(shown: seq<Branch>)
    requires |shown| <= MAX_BRANCHES
    ensures shown + Shown([], MAX_BRANCHES - |shown|) == shown && Hidden([], MAX_BRANCHES - |shown|) == []
            && LinesOf([]) == 0
  {
  }

  /** What is shown and what is summed up behind the rest make the whole. */
  lemma {:induction false} ShownAddUp(ks: seq<Branch>, room: nat)
    ensures LinesOf(Shown(ks, room)) + LinesOf(Hidden(ks, room)) == LinesOf(ks)
  {
    if ks != [] && !Visible(ks[0]) {
      ShownAddUp(ks[1..], room);
    } else if ks != [] && room > 0 {
      ShownAddUp(ks[1..], room - 1);
      assert ([ks[0]] + Shown(ks[1..], room - 1))[1..] == Shown(ks[1..], room - 1);
    }
  }
}
