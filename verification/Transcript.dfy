/** The history as an object: a cache of drawn items, and a window that draws from the end up no more items
    than it needs. What an item draws is a function of its version, the width and the expanded flag;
    click targets are not drawn. */
module Transcript {
  import opened Stacking
  import opened Text

  datatype Ctx = Ctx(width: int, expanded: bool)

  class Item {
    var version: nat
    const render: (nat, int, bool) -> seq<string>

    constructor (render: (nat, int, bool) -> seq<string>)
      ensures this.render == render && version == 0
    {
      this.render := render;
      version := 0;
    }
  }

  datatype Cached = Cached(width: int, version: nat, expanded: bool, lines: seq<string>)

  /** An item's lines drawn afresh. */
  function Rendered(it: Item, ctx: Ctx): seq<string>
    reads it
  {
    if ctx.width <= 0 then [] else it.render(it.version, ctx.width, ctx.expanded)
  }

  function Marked(lines: seq<string>, on: bool): seq<Row> {
    seq(|lines|, i requires 0 <= i < |lines| => Row(lines[i], on))
  }

  /** An item's rows, those of the selected item marked. */
  function Block(it: Item, sel: Item?, ctx: Ctx): seq<Row>
    reads it
  {
    Marked(Rendered(it, ctx), it == sel)
  }

  /** At any positive width an item's rows are its lines as it draws them there, all of them marked when it is
      the selected one and none otherwise; at no width it has none. */
  lemma {:induction false} RowsOfItem(it: Item, sel: Item?, ctx: Ctx)
    ensures ctx.width <= 0 ==> Block(it, sel, ctx) == []
    ensures ctx.width > 0 ==>
              var lines, rows := it.render(it.version, ctx.width, ctx.expanded), Block(it, sel, ctx);
              |rows| == |lines| && forall i :: 0 <= i < |lines| ==>
                                     rows[i].text == lines[i] && (rows[i].on <==> it == sel)
  {
  }

  function BlocksOf(items: seq<Item>, sel: Item?, ctx: Ctx): seq<seq<Row>>
    reads items
  {
    seq(|items|, i requires 0 <= i < |items| reads items => Block(items[i], sel, ctx))
  }

  function Texts(rows: seq<Row>): seq<string> {
    seq(|rows|, i requires 0 <= i < |rows| => rows[i].text)
  }

  /** Where the selected block's rows are. */
  function OnRows(rows: seq<Row>): set<int> {
    set k | 0 <= k < |rows| && rows[k].on
  }

  /** The selected rows of a window are, from its first to its last, those of the selected item. */
  lemma OnRowsAre(all: seq<Row>, scroll: nat, height: nat, k: int)
    requires scroll <= |all|
    ensures var rows := View(all, scroll, height); k in OnRows(rows) <==> 0 <= k < height && rows[k].on
  {
    hide View;
  }

  class History {
    var items: seq<Item>
    var cache: map<Item, Cached>
    var scroll: nat
    var anchorTotal: nat
    var anchorWidth: int
    var sel: Item?
    var selRows: set<int>

    constructor ()
      ensures Valid() && items == [] && scroll == 0 && anchorTotal == 0 && sel == null
    {
      items, cache, scroll, anchorTotal, anchorWidth, sel, selRows := [], map[], 0, 0, 0, null, {};
    }

    /** What is cached for an item is what it draws at the version and width it was cached at. */
    ghost predicate Valid()
      reads this`cache
    {
      forall it :: it in cache ==> var c := cache[it]; c.lines == it.render(c.version, c.width, c.expanded)
    }

    ghost function Blocks(ctx: Ctx): seq<seq<Row>>
      reads this`items, this`sel, items
    {
      BlocksOf(items, sel, ctx)
    }

    ghost function AnchorNow(): Anchor
      reads this`scroll, this`anchorTotal, this`anchorWidth
    {
      Anchor(scroll, anchorTotal, anchorWidth)
    }

    method Add(it: Item)
      requires Valid()
      modifies this`items
      ensures Valid() && items == old(items) + [it]
    {
      items := items + [it];
    }

    method ScrollBy(lines: int)
      modifies this`scroll
      ensures scroll as int == Max(old(scroll) + lines, 0)
    {
      scroll := Max(scroll + lines, 0);
    }

    /** The top is past any history there is; the next draw brings it back. */
    method ToTop()
      modifies this`scroll
      ensures scroll == TOP
    {
      scroll := TOP;
    }

    method ToBottom()
      modifies this`scroll
      ensures scroll == 0
    {
      scroll := 0;
    }

    method Lines(it: Item, ctx: Ctx) returns (lines: seq<string>)
      requires Valid()
      modifies this`cache
      ensures Valid()
      ensures lines == Rendered(it, ctx)
    {
      if ctx.width <= 0 {
        return [];
      }
      if it in cache {
        var c := cache[it];
        if c.width == ctx.width && c.version == it.version && c.expanded == ctx.expanded {
          return c.lines;
        }
      }
      lines := it.render(it.version, ctx.width, ctx.expanded);
      cache := cache[it := Cached(ctx.width, it.version, ctx.expanded, lines)];
    }

    /** The whole transcript as drawn, oldest first. */
    method AllLines(ctx: Ctx) returns (out: seq<string>)
      requires Valid()
      modifies this`cache
      ensures Valid()
      ensures out == Texts(Stack(Blocks(ctx)))
    {
      hide Stack;
      ghost var blocks := Blocks(ctx);
      NoBlocks();
      out := [];
      for i := 0 to |items|
        invariant Valid() && Blocks(ctx) == blocks
        invariant out == Texts(Stack(blocks[..i]))
      {
        var lines := Lines(items[i], ctx);
        OneMoreBlock(blocks, i);
        assert blocks[i] == Marked(lines, items[i] == sel);
        if |lines| == 0 {
          continue;
        }
        if |out| > 0 {
          out := out + [""];
        }
        out := out + lines;
      }
      assert blocks[..|items|] == blocks;
    }

    /** The height of everything, each item drawn or taken from the cache. */
    method Total(ctx: Ctx) returns (total: nat)
      requires Valid()
      modifies this`cache
      ensures Valid()
      ensures total == Height(Blocks(ctx))
    {
      hide Height;
      ghost var blocks := Blocks(ctx);
      NoHeight();
      total := 0;
      for i := 0 to |items|
        invariant Valid() && Blocks(ctx) == blocks
        invariant total == Height(blocks[..i])
      {
        var lines := Lines(items[i], ctx);
        OneMoreHeight(blocks, i);
        assert blocks[i] == Marked(lines, items[i] == sel);
        if |lines| > 0 {
          total := total + |lines| + 1;
        }
      }
      assert blocks[..|items|] == blocks;
    }

    method HoldAnchor(ctx: Ctx)
      requires Valid()
      modifies this`cache, this`scroll, this`anchorTotal, this`anchorWidth
      ensures Valid()
      ensures AnchorNow() == Hold(old(AnchorNow()), Height(Blocks(ctx)), ctx.width)
    {
      hide Height, Blocks;
      if scroll == 0 {
        anchorTotal := 0;
        return;
      }
      var total := Total(ctx);
      if anchorTotal > 0 && anchorWidth == ctx.width && total > anchorTotal {
        scroll := scroll + (total - anchorTotal);
      }
      anchorTotal, anchorWidth := total, ctx.width;
    }

    /** The rows of the newest items, newest row first: all of them, or at least need. */
    method Gather(ctx: Ctx, need: nat) returns (rows: seq<Row>)
      requires Valid()
      modifies this`cache
      ensures Valid()
      ensures var all := Stack(Blocks(ctx));
              && |rows| <= |all| && (|rows| >= need || |rows| == |all|)
              && forall k :: 0 <= k < |rows| ==> rows[k] == all[|all| - 1 - k]
    {
      hide Stack, Reversed, Under;
      ghost var blocks := Blocks(ctx);
      rows := [];
      var i := |items|;
      NoBlocks();
      ReversedOne();
      assert blocks[i..] == [];
      while i > 0 && |rows| < need
        invariant 0 <= i <= |items|
        invariant Valid() && Blocks(ctx) == blocks
        invariant rows == Reversed(Stack(blocks[i..]))
      {
        i := i - 1;
        var it := items[i];
        var lines := Lines(it, ctx);
        FirstBlock(blocks, i);
        assert blocks[i] == Marked(lines, it == sel);
        ReversedUnder(blocks[i], Stack(blocks[i + 1..]));
        if |lines| == 0 {
          continue;
        }
        if |rows| > 0 {
          rows := rows + [BLANK];
        }
        rows := PutRows(rows, lines, it == sel);
      }
      StackEnds(blocks, i);
      if i == 0 {
        assert blocks[0..] == blocks;
      }
      ReversedEnd(Stack(blocks[i..]), Stack(blocks));
    }

    /** The window: height rows, with scroll kept within the history there is. */
    method Window(ctx: Ctx, height: int) returns (out: seq<string>)
      requires Valid()
      modifies this`cache, this`scroll, this`anchorTotal, this`anchorWidth, this`selRows
      ensures Valid()
      ensures height <= 0 ==> out == [] && AnchorNow() == old(AnchorNow())
      ensures height > 0 ==>
                var d := Draw(old(AnchorNow()), Blocks(ctx), ctx.width, height);
                && out == Texts(d.0)
                && AnchorNow() == d.1
                && selRows == OnRows(d.0)
    {
      if height <= 0 {
        return [];
      }
      hide Stack, Height, View, BlocksOf, Hold, Texts, OnRows, Clamp;
      ghost var blocks := Blocks(ctx);
      var rows := Settle(ctx, height);
      out, selRows := Show(rows, scroll, height, Stack(blocks));
    }

    /** Holds the view where it was and keeps scroll within the history, with the rows for a window. */
    method Settle(ctx: Ctx, height: nat) returns (rows: seq<Row>)
      requires Valid() && height > 0
      modifies this`cache, this`scroll, this`anchorTotal, this`anchorWidth
      ensures Valid()
      ensures AnchorNow() == Draw(old(AnchorNow()), Blocks(ctx), ctx.width, height).1
      ensures var all := Stack(Blocks(ctx));
              && |rows| <= |all| && scroll <= |rows| && (|rows| >= scroll + height || |rows| == |all|)
              && forall k :: 0 <= k < |rows| ==> rows[k] == all[|all| - 1 - k]
    {
      hide Stack, Height, View, BlocksOf, Hold;
      ghost var blocks := Blocks(ctx);
      HoldAnchor(ctx);
      var need := height + scroll;
      rows := Gather(ctx, need);
      var maxScroll := Max(|rows| - height, 0);
      if scroll > maxScroll && |rows| < need {
        scroll := maxScroll;
      }
    }
  }

  function Reversed(s: seq<Row>): (r: seq<Row>)
    ensures |r| == |s|
  {
    seq(|s|, k requires 0 <= k < |s| => s[|s| - 1 - k])
  }

  /** An item's rows, the last one first, after rows. */
  method PutRows(rows: seq<Row>, lines: seq<string>, on: bool) returns (r: seq<Row>)
    ensures r == rows + Reversed(Marked(lines, on))
  {
    r := rows;
    for j := |lines| downto 0
      invariant r == rows + Reversed(Marked(lines[j..], on))
    {
      r := r + [Row(lines[j], on)];
      ReversedConcat(Marked(lines[j..j + 1], on), Marked(lines[j + 1..], on));
      assert Marked(lines[j..], on) == Marked(lines[j..j + 1], on) + Marked(lines[j + 1..], on);
      assert Reversed(Marked(lines[j..j + 1], on)) == [Row(lines[j], on)];
    }
    assert lines[0..] == lines;
  }

  /** The height rows above the first start of rows (newest first), blanks on top, and which of them
      are the selected block's. */
  method Show(rows: seq<Row>, start: nat, height: nat, ghost all: seq<Row>) returns (out: seq<string>, on: set<int>)
    requires |rows| <= |all| && start <= |rows|
    requires |rows| >= start + height || |rows| == |all|
    requires forall k :: 0 <= k < |rows| ==> rows[k] == all[|all| - 1 - k]
    ensures out == Texts(View(all, start, height))
    ensures on == OnRows(View(all, start, height))
  {
    hide OnRows, Blanks, View;
    var end := Min(start + height, |rows|);
    var shown: seq<Row> := [];
    var i := end;
    while i > start
      invariant start <= i <= end
      invariant shown == all[|all| - end..|all| - i]
    {
      i := i - 1;
      shown := shown + [rows[i]];
    }
    var pad := height - |shown|;
    on := set k | 0 <= k < |shown| && shown[k].on :: pad + k;
    out := PadTop(Texts(shown), height);
    ViewShown(all, start, height, end);
    OnRowsPadded(pad, shown);
    TextsPadded(pad, shown);
  }

  /** Blank rows put on top, one at a time, up to height. */
  method PadTop(shown: seq<string>, height: nat) returns (out: seq<string>)
    requires |shown| <= height
    ensures out == Texts(Blanks(height - |shown|)) + shown
  {
    out := shown;
    while |out| < height
      invariant |shown| <= |out| <= height
      invariant out == Texts(Blanks(|out| - |shown|)) + shown
    {
      out := [""] + out;
    }
  }

  lemma ViewShown(all: seq<Row>, start: nat, height: nat, end: nat)
    requires start <= end <= |all| && (end == start + height || (end <= start + height && end == |all|))
    ensures var shown := all[|all| - end..|all| - start];
            View(all, start, height) == Blanks(height - |shown|) + shown
  {
    hide Blanks;
  }

  lemma TextsPadded(pad: nat, shown: seq<Row>)
    ensures Texts(Blanks(pad) + shown) == Texts(Blanks(pad)) + Texts(shown)
  {
  }

  lemma OnRowsPadded(pad: nat, shown: seq<Row>)
    ensures OnRows(Blanks(pad) + shown) == set k | 0 <= k < |shown| && shown[k].on :: pad + k
  {
    var view := Blanks(pad) + shown;
    var on := set k | 0 <= k < |shown| && shown[k].on :: pad + k;
    forall k
      ensures k in OnRows(view) <==> k in on
    {
      if k in OnRows(view) {
        assert view[k] == shown[k - pad] && pad + (k - pad) == k;
      }
      if k in on {
        var j :| 0 <= j < |shown| && shown[j].on && pad + j == k;
        assert view[k] == shown[j];
      }
    }
  }

  lemma NoBlocks()
    ensures Stack([]) == []
  {
  }

  lemma NoHeight()
    ensures Height([]) == 0
  {
  }

  lemma OneMoreHeight(blocks: seq<seq<Row>>, i: nat)
    requires i < |blocks|
    ensures Height(blocks[..i + 1]) == Height(blocks[..i]) + if blocks[i] == [] then 0 else |blocks[i]| + 1
  {
    assert blocks[..i + 1][..i] == blocks[..i];
  }

  lemma OneMoreBlock(blocks: seq<seq<Row>>, i: nat)
    requires i < |blocks|
    ensures Stack(blocks[..i + 1]) == Under(Stack(blocks[..i]), blocks[i])
  {
    assert blocks[..i + 1][..i] == blocks[..i];
  }

  lemma FirstBlock(blocks: seq<seq<Row>>, i: nat)
    requires i < |blocks|
    ensures Stack(blocks[i..]) == Under(blocks[i], Stack(blocks[i + 1..]))
  {
    assert blocks[i..] == [blocks[i]] + blocks[i + 1..];
    StackOfParts([blocks[i]], blocks[i + 1..]);
    StackOne(blocks[i]);
  }

  lemma ReversedConcat(a: seq<Row>, b: seq<Row>)
    ensures Reversed(a + b) == Reversed(b) + Reversed(a)
  {
  }

  lemma ReversedOne()
    ensures Reversed([]) == [] && Reversed([BLANK]) == [BLANK]
  {
  }

  /** A block, read from its last row up, goes behind what stands below it. */
  lemma ReversedUnder(block: seq<Row>, part: seq<Row>)
    ensures Reversed(Under(block, part)) ==
            if block == [] then Reversed(part)
            else (if part == [] then [] else Reversed(part) + [BLANK]) + Reversed(block)
    ensures part == [] <==> Reversed(part) == []
  {
    hide Reversed;
    ReversedOne();
    if block != [] && part != [] {
      ReversedConcat(block + [BLANK], part);
      ReversedConcat(block, [BLANK]);
    }
  }

  lemma ReversedEnd(part: seq<Row>, all: seq<Row>)
    requires |part| <= |all| && all[|all| - |part|..] == part
    ensures forall k :: 0 <= k < |part| ==> Reversed(part)[k] == all[|all| - 1 - k]
  {
    forall k | 0 <= k < |part|
      ensures Reversed(part)[k] == all[|all| - 1 - k]
    {
      assert part[|part| - 1 - k] == all[|all| - |part|..][|part| - 1 - k];
    }
  }
}
