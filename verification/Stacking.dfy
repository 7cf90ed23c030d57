/** Blocks of rows stacked top to bottom, one blank row between blocks, empty blocks left out; and a
    window of a given height onto the stack. Pure: what the transcript's drawing is measured against. */
module Stacking {
  import opened Text

  /** A row as drawn, and whether it belongs to the selected block. */
  datatype Row = Row(text: string, on: bool)

  const BLANK := Row("", false)

  function Under(above: seq<Row>, block: seq<Row>): seq<Row> {
    if block == [] then above
    else if above == [] then block
    else above + [BLANK] + block
  }

  function Stack(blocks: seq<seq<Row>>): seq<Row> {
    if blocks == [] then [] else Under(Stack(blocks[..|blocks| - 1]), blocks[|blocks| - 1])
  }

  /** The rows of every drawn block and the blank above it. */
  function Height(blocks: seq<seq<Row>>): nat {
    if blocks == [] then 0
    else
      var n := |blocks[|blocks| - 1]|;
      Height(blocks[..|blocks| - 1]) + if n > 0 then n + 1 else 0
  }

  function Blanks(n: nat): (r: seq<Row>)
    ensures |r| == n
  {
    seq(n, _ => BLANK)
  }

  /** The height rows that end scroll rows above the end of the stack, blanks on top. */
  function View(all: seq<Row>, scroll: nat, height: nat): (r: seq<Row>)
    requires scroll <= |all|
    ensures |r| == height
  {
    var end := |all| - scroll;
    var start := Max(end - height, 0);
    Blanks(height - (end - start)) + all[start..end]
  }

  lemma UnderAssociates(x: seq<Row>, y: seq<Row>, z: seq<Row>)
    ensures Under(Under(x, y), z) == Under(x, Under(y, z))
  {
    if x != [] && y != [] && z != [] {
      assert (x + [BLANK] + y) + [BLANK] + z == x + [BLANK] + (y + [BLANK] + z);
    }
  }

  lemma {:induction false} StackOfParts(xs: seq<seq<Row>>, ys: seq<seq<Row>>)
    ensures Stack(xs + ys) == Under(Stack(xs), Stack(ys))
    decreases |ys|
  {
    var s := xs + ys;
    if ys == [] {
      assert s == xs;
    } else {
      var n := |ys| - 1;
      assert s[..|s| - 1] == xs + ys[..n] && s[|s| - 1] == ys[n];
      StackOfParts(xs, ys[..n]);
      UnderAssociates(Stack(xs), Stack(ys[..n]), ys[n]);
    }
  }

  lemma StackOne(b: seq<Row>)
    ensures Stack([b]) == b
  {
    assert [b][..0] == [];
  }

  /** Between two blocks that show something stands one empty row; one that shows nothing takes no row. */
  lemma {:induction false} StackOfNext(blocks: seq<seq<Row>>, block: seq<Row>)
    ensures var above := Stack(blocks);
            Stack(blocks + [block]) ==
            if above == [] || block == [] then above + block else above + [Row("", false)] + block
  {
    var s := blocks + [block];
    assert s[..|s| - 1] == blocks;
    assert Stack(blocks) + [] == Stack(blocks) && [] + block == block;
  }

  /** Counted from below, the k-th row of a view is the k-th above where it ends, and blank when there is
      none. */
  lemma ViewFromBelow(all: seq<Row>, scroll: nat, height: nat, k: nat)
    requires scroll <= |all| && k < height
    ensures View(all, scroll, height)[height - 1 - k] ==
            if scroll + k < |all| then all[|all| - 1 - scroll - k] else Row("", false)
  {
  }

  /** The stack of the last blocks is what the whole stack ends in. */
  lemma {:induction false} StackEnds(blocks: seq<seq<Row>>, i: nat)
    requires i <= |blocks|
    ensures var all, part := Stack(blocks), Stack(blocks[i..]);
            |part| <= |all| && all[|all| - |part|..] == part
  {
    assert blocks == blocks[..i] + blocks[i..];
    StackOfParts(blocks[..i], blocks[i..]);
  }

  lemma {:induction false} HeightOfStack(blocks: seq<seq<Row>>)
    ensures Height(blocks) == if Stack(blocks) == [] then 0 else |Stack(blocks)| + 1
  {
    if blocks != [] {
      HeightOfStack(blocks[..|blocks| - 1]);
    }
  }

  /** A view onto the end of the stack is the same view onto the whole. */
  lemma ViewOfEnd(all: seq<Row>, part: seq<Row>, scroll: nat, height: nat)
    requires |part| <= |all| && all[|all| - |part|..] == part
    requires scroll <= |part| && (|part| >= scroll + height || |part| == |all|)
    ensures View(part, scroll, height) == View(all, scroll, height)
  {
    var d := |all| - |part|;
    var end := |part| - scroll;
    var start := Max(end - height, 0);
    assert part[start..end] == all[d..][start..end] == all[d + start..d + end];
  }

  // ---- holding the view still ----

  /** What a draw leaves behind for the next: how far the view is above the end, and the height and
      width of the stack it was anchored to. */
  datatype Anchor = Anchor(scroll: nat, total: nat, width: int)

  /** Growth since the anchored draw is added to the scroll. */
  function Hold(a: Anchor, height: nat, width: int): Anchor {
    if a.scroll == 0 then a.(total := 0)
    else
      var grown := if a.total > 0 && a.width == width && height > a.total then height - a.total else 0;
      Anchor(a.scroll + grown, height, width)
  }

  function Clamp(a: Anchor, rows: nat, height: nat): Anchor {
    a.(scroll := Min(a.scroll, Max(rows - height, 0)))
  }

  /** One draw of a window of height rows, width columns: the rows shown, and the anchor after it. */
  function Draw(a: Anchor, blocks: seq<seq<Row>>, width: int, height: nat): (r: (seq<Row>, Anchor))
    ensures |r.0| == height
  {
    var all := Stack(blocks);
    var next := Clamp(Hold(a, Height(blocks), width), |all|, height);
    (View(all, next.scroll, height), next)
  }

  /** Further up than any history is long. */
  const TOP := 0x4000_0000

  /** From the top, the next draw shows the first rows, and scroll is what there is above the last ones. */
  lemma {:induction false} TopShowsFirst(a: Anchor, blocks: seq<seq<Row>>, width: int, height: nat)
    requires a.scroll == TOP && |Stack(blocks)| <= TOP + height
    ensures var all := Stack(blocks);
            && Draw(a, blocks, width, height).0 == Blanks(Max(height - |all|, 0)) + all[..Min(height, |all|)]
            && Draw(a, blocks, width, height).1.scroll == Max(|all| - height, 0)
  {
    hide Stack, Height, Blanks;
  }

  /** At the bottom, it shows the last rows and stays there, anchored to nothing. */
  lemma {:induction false} BottomShowsLast(a: Anchor, blocks: seq<seq<Row>>, width: int, height: nat)
    requires a.scroll == 0
    ensures var all := Stack(blocks);
            && Draw(a, blocks, width, height).0 == Blanks(Max(height - |all|, 0)) + all[Max(|all| - height, 0)..]
            && Draw(a, blocks, width, height).1.scroll == 0 && Draw(a, blocks, width, height).1.total == 0
  {
    hide Stack, Height, Blanks;
    var all := Stack(blocks);
    assert all[..|all|] == all;
  }

  /** Drawn for the first time since it left the bottom, or at another width, a scrolled view ends as many rows
      above the end as it is scrolled, whatever was drawn before. */
  lemma {:induction false} FirstDrawAsScrolled(a: Anchor, blocks: seq<seq<Row>>, width: int, height: nat)
    requires a.total == 0 || a.width != width
    ensures var all := Stack(blocks);
            && Draw(a, blocks, width, height).1.scroll == Min(a.scroll, Max(|all| - height, 0))
            && Draw(a, blocks, width, height).0 == View(all, Min(a.scroll, Max(|all| - height, 0)), height)
  {
    hide Stack, Height, View;
  }

  /** The stack may have changed only below the rows shown: the part above and in view is the same. */
  predicate GrewBelow(before: seq<Row>, after: seq<Row>, scroll: nat) {
    && scroll <= |before| <= |after|
    && before[..|before| - scroll] == after[..|before| - scroll]
  }

  /** While scrolled back, a draw after growth below the view shows the same rows, as far above a
      newer end. */
  lemma {:induction false} ViewStaysStill(a: Anchor, before: seq<seq<Row>>, after: seq<seq<Row>>, width: int,
                                          height: nat)
    requires height > 0
    requires Draw(a, before, width, height).1.scroll > 0
    requires GrewBelow(Stack(before), Stack(after), Draw(a, before, width, height).1.scroll)
    ensures var first := Draw(a, before, width, height);
            var second := Draw(first.1, after, width, height);
            && second.0 == first.0
            && |Stack(after)| - second.1.scroll == |Stack(before)| - first.1.scroll
            && second.1.scroll > 0
  {
    hide Stack, Height;
    HeightOfStack(before);
    HeightOfStack(after);
    var x, y := Stack(before), Stack(after);
    var first := Draw(a, before, width, height).1;
    var second := Draw(first, after, width, height).1;
    assert first.total == |x| + 1 && first.width == width;
    assert second.scroll == first.scroll + (|y| - |x|);
    var end := |x| - first.scroll;
    var start := end - height;
    assert x[start..end] == x[..end][start..] == y[..end][start..] == y[start..end];
  }

  /** The rows shown and the anchor after a draw of each of stacks in turn. */
  function DrawRun(a: Anchor, stacks: seq<seq<seq<Row>>>, width: int, height: nat): (r: (seq<Row>, Anchor))
    requires stacks != []
    decreases |stacks|
  {
    var d := Draw(a, stacks[0], width, height);
    if |stacks| == 1 then d else DrawRun(d.1, stacks[1..], width, height)
  }

  /** Over any run of draws in which the stack only grows below what the first one showed, the last
      one shows the same rows. */
  lemma {:induction false} ViewStaysStillOverRun(a: Anchor, stacks: seq<seq<seq<Row>>>, width: int, height: nat)
    requires height > 0 && stacks != []
    requires Draw(a, stacks[0], width, height).1.scroll > 0
    requires forall i :: 0 < i < |stacks| ==>
               var all := Stack(stacks[i - 1]);
               && |all| <= |Stack(stacks[i])|
               && (var end := |Stack(stacks[0])| - Draw(a, stacks[0], width, height).1.scroll;
                   0 <= end <= |all| && all[..end] == Stack(stacks[i])[..end])
    ensures DrawRun(a, stacks, width, height).0 == Draw(a, stacks[0], width, height).0
    decreases |stacks|
  {
    hide Stack, Height;
    if |stacks| > 1 {
      var d := Draw(a, stacks[0], width, height);
      assert Stack(stacks[1 - 1]) == Stack(stacks[0]);
      ViewStaysStill(a, stacks[0], stacks[1], width, height);
      var rest := stacks[1..];
      forall i | 0 < i < |rest|
        ensures var all := Stack(rest[i - 1]);
                && |all| <= |Stack(rest[i])|
                && (var end := |Stack(rest[0])| - Draw(d.1, rest[0], width, height).1.scroll;
                    0 <= end <= |all| && all[..end] == Stack(rest[i])[..end])
      {
        assert rest[i] == stacks[i + 1] && rest[i - 1] == stacks[(i + 1) - 1];
      }
      ViewStaysStillOverRun(d.1, rest, width, height);
    }
  }
}
