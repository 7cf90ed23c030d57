/** Reading the working tree again after edits: the changed-files rail, the growth panel and its cache of
    counts, and the Changes window. edits counts what has landed; a read begun when edits was n shows at
    least those n. */
module Reread {
  import opened Text

  /** One agent message as these panels see it: an edit of a file, the end of a turn, or neither. */
  datatype Msg = Edit(path: string) | TurnEnd | Other

  // ---- the rail ----

  /** readFrom and shownFrom: what had landed when the read under way, and the one shown, began. */
  datatype Rail = Rail(stale: bool, loading: bool, loaded: bool, edits: nat, readFrom: nat, shownFrom: nat)

  function RailMark(r: Rail, m: Msg): Rail {
    if m.Other? then r else r.(stale := true, edits := r.edits + 1)
  }

  function RailReread(r: Rail): Rail {
    if (r.stale || !r.loaded) && !r.loading then r.(stale := false, loading := true, readFrom := r.edits) else r
  }

  function RailMarkAll(r: Rail, msgs: seq<Msg>): Rail
    decreases |msgs|
  {
    if msgs == [] then r else RailMarkAll(RailMark(r, msgs[0]), msgs[1..])
  }

  datatype RailEvent = Batch(msgs: seq<Msg>) | Loaded

  function RailStep(r: Rail, e: RailEvent): Rail {
    match e
    case Batch(msgs) => RailReread(RailMarkAll(r, msgs))
    case Loaded =>
      if !r.loading then r
      else
        var t := r.(loading := false, loaded := true, shownFrom := r.readFrom);
        if t.stale then RailReread(t) else t
  }

  function RailRun(r: Rail, events: seq<RailEvent>): Rail
    decreases |events|
  {
    if events == [] then r else RailRun(RailStep(r, events[0]), events[1..])
  }

  const RAIL_START := Rail(false, false, false, 0, 0, 0)

  /** What an unmarked rail reads or shows is everything that has landed. */
  predicate RailFresh(r: Rail) {
    && (!r.stale && r.loading ==> r.readFrom == r.edits)
    && (!r.stale && !r.loading && r.loaded ==> r.shownFrom == r.edits)
  }

  predicate RailOk(r: Rail) { (r.stale ==> r.loading) && RailFresh(r) }

  lemma {:induction false} MarkAllKeeps(r: Rail, msgs: seq<Msg>)
    requires RailFresh(r)
    ensures RailFresh(RailMarkAll(r, msgs))
    decreases |msgs|
  {
    if msgs != [] {
      MarkAllKeeps(RailMark(r, msgs[0]), msgs[1..]);
    }
  }

  lemma RailStepKeeps(r: Rail, e: RailEvent)
    requires RailOk(r)
    ensures RailOk(RailStep(r, e))
    ensures e.Batch? ==> RailStep(r, e).loading || RailStep(r, e).loaded
  {
    match e
    case Batch(msgs) => MarkAllKeeps(r, msgs);
    case Loaded =>
  }

  lemma {:induction false} RailRunKeeps(r: Rail, events: seq<RailEvent>)
    requires RailOk(r)
    ensures RailOk(RailRun(r, events))
    decreases |events|
  {
    hide RailStep, RailOk;
    if events != [] {
      RailStepKeeps(r, events[0]);
      RailRunKeeps(RailStep(r, events[0]), events[1..]);
    }
  }

  /** In every run: after each handled event a marked rail is being read, and whenever none is being
      read, what is shown was read after the last edit. */
  lemma {:induction false} NoRailUpdateLost(events: seq<RailEvent>)
    ensures var r := RailRun(RAIL_START, events);
            && (r.stale ==> r.loading)
            && (r.loaded && !r.loading ==> r.shownFrom == r.edits)
  {
    RailRunKeeps(RAIL_START, events);
  }

  class RailState {
    var stale: bool
    var loading: bool
    var loaded: bool
    ghost var edits: nat
    ghost var readFrom: nat
    ghost var shownFrom: nat

    constructor ()
      ensures View() == RAIL_START
    {
      stale, loading, loaded, edits, readFrom, shownFrom := false, false, false, 0, 0, 0;
    }

    ghost function View(): Rail
      reads this
    {
      Rail(stale, loading, loaded, edits, readFrom, shownFrom)
    }

    method MarkEdited()
      modifies this
      ensures View() == RailMark(old(View()), TurnEnd)
    {
      stale := true;
      edits := edits + 1;
    }

    method Reread() returns (begun: bool)
      modifies this
      ensures View() == RailReread(old(View())) && begun == (View() != old(View()))
    {
      begun := false;
      if (stale || !loaded) && !loading {
        stale, loading, begun := false, true, true;
        readFrom := edits;
      }
    }

    method HandleMsgs(msgs: seq<Msg>)
      modifies this
      ensures View() == RailStep(old(View()), Batch(msgs))
    {
      for i := 0 to |msgs|
        invariant RailMarkAll(View(), msgs[i..]) == RailMarkAll(old(View()), msgs)
      {
        assert msgs[i..][1..] == msgs[i + 1..];
        if !msgs[i].Other? {
          MarkEdited();
        }
      }
      assert msgs[|msgs|..] == [];
      var begun := Reread();
    }

    method ReadDone()
      requires loading
      modifies this
      ensures View() == RailStep(old(View()), Loaded)
    {
      loading, loaded := false, true;
      shownFrom := readFrom;
      if stale {
        var begun := Reread();
      }
    }
  }

  // ---- the growth panel ----

  datatype Growth = Growth(shown: bool, measuring: bool, measured: bool, stale: bool, root: string, project: string,
                           edits: nat, readFrom: nat, readRoot: string, shownFrom: nat)

  datatype GrowthEvent = Msgs(msgs: seq<Msg>) | Measured | Show(on: bool) | Switch(project: string)

  /** An edit with no path is not the panel's. */
  function GrowthMark(g: Growth, m: Msg): Growth {
    if m.Other? || (m.Edit? && m.path == "") then g else g.(stale := true, edits := g.edits + 1)
  }

  function GrowthMarkAll(g: Growth, msgs: seq<Msg>): Growth
    decreases |msgs|
  {
    if msgs == [] then g else GrowthMarkAll(GrowthMark(g, msgs[0]), msgs[1..])
  }

  function GrowthReread(g: Growth): Growth {
    if !g.shown || g.measuring || (g.measured && !g.stale && g.root == g.project) then g
    else g.(stale := false, measuring := true, readFrom := g.edits, readRoot := g.project)
  }

  function GrowthStep(g: Growth, e: GrowthEvent): Growth {
    match e
    case Msgs(msgs) => GrowthReread(GrowthMarkAll(g, msgs))
    case Measured =>
      if !g.measuring then g
      else if g.readRoot != g.project then GrowthReread(g.(measuring := false, stale := true))
      else GrowthReread(g.(measuring := false, measured := true, root := g.readRoot, shownFrom := g.readFrom))
    case Show(on) => if on then GrowthReread(g.(shown := true)) else g.(shown := false)
    case Switch(project) => g.(project := project)
  }

  function GrowthRun(g: Growth, events: seq<GrowthEvent>): Growth
    decreases |events|
  {
    if events == [] then g else GrowthRun(GrowthStep(g, events[0]), events[1..])
  }

  const GROWTH_START := Growth(false, false, false, false, "", "", 0, 0, "", 0)

  predicate GrowthFresh(g: Growth) {
    && (!g.stale && g.measuring ==> g.readFrom == g.edits)
    && (!g.stale && !g.measuring && g.measured ==> g.shownFrom == g.edits)
  }

  predicate GrowthOk(g: Growth) {
    (g.shown && (g.stale || !g.measured) ==> g.measuring) && GrowthFresh(g)
  }

  lemma {:induction false} GrowthMarkKeeps(g: Growth, msgs: seq<Msg>)
    requires GrowthFresh(g)
    ensures GrowthFresh(GrowthMarkAll(g, msgs))
    ensures GrowthMarkAll(g, msgs).shown == g.shown
    decreases |msgs|
  {
    if msgs != [] {
      GrowthMarkKeeps(GrowthMark(g, msgs[0]), msgs[1..]);
    }
  }

  lemma GrowthStepKeeps(g: Growth, e: GrowthEvent)
    requires GrowthOk(g)
    ensures GrowthOk(GrowthStep(g, e))
    ensures e.Msgs? && GrowthStep(g, e).shown && !GrowthStep(g, e).measuring ==>
            GrowthStep(g, e).root == GrowthStep(g, e).project
  {
    match e
    case Msgs(msgs) => GrowthMarkKeeps(g, msgs);
    case _ =>
  }

  lemma {:induction false} GrowthRunKeeps(g: Growth, events: seq<GrowthEvent>)
    requires GrowthOk(g)
    ensures GrowthOk(GrowthRun(g, events))
    decreases |events|
  {
    hide GrowthStep, GrowthOk;
    if events != [] {
      GrowthStepKeeps(g, events[0]);
      GrowthRunKeeps(GrowthStep(g, events[0]), events[1..]);
    }
  }

  /** In every run: a shown panel that is marked is being measured, and whenever a shown panel is not
      being measured, what it shows was measured after the last edit. */
  lemma {:induction false} NoGrowthUpdateLost(events: seq<GrowthEvent>)
    ensures var g := GrowthRun(GROWTH_START, events);
            g.shown ==> (g.stale ==> g.measuring) && (!g.measuring ==> g.measured && g.shownFrom == g.edits)
  {
    GrowthRunKeeps(GROWTH_START, events);
  }

  class GrowthPanel {
    var shown: bool
    var measuring: bool
    var measured: bool
    var stale: bool
    var root: string
    var project: string
    ghost var edits: nat
    ghost var readFrom: nat
    ghost var readRoot: string
    ghost var shownFrom: nat

    constructor ()
      ensures View() == GROWTH_START
    {
      shown, measuring, measured, stale, root, project := false, false, false, false, "", "";
      edits, readFrom, readRoot, shownFrom := 0, 0, "", 0;
    }

    ghost function View(): Growth
      reads this
    {
      Growth(shown, measuring, measured, stale, root, project, edits, readFrom, readRoot, shownFrom)
    }

    method Reread() returns (begun: bool)
      modifies this
      ensures View() == GrowthReread(old(View())) && begun == (View() != old(View()))
    {
      begun := !(!shown || measuring || (measured && !stale && root == project));
      if begun {
        stale, measuring := false, true;
        readFrom, readRoot := edits, project;
      }
    }

    method HandleMsgs(msgs: seq<Msg>)
      modifies this
      ensures View() == GrowthStep(old(View()), Msgs(msgs))
    {
      for i := 0 to |msgs|
        invariant GrowthMarkAll(View(), msgs[i..]) == GrowthMarkAll(old(View()), msgs)
      {
        assert msgs[i..][1..] == msgs[i + 1..];
        if msgs[i].TurnEnd? || (msgs[i].Edit? && msgs[i].path != "") {
          stale, edits := true, edits + 1;
        }
      }
      assert msgs[|msgs|..] == [];
      var begun := Reread();
    }

    /** The measure under way comes back with the root it was taken of. */
    method MeasureDone(of: string)
      requires measuring && of == readRoot
      modifies this
      ensures View() == GrowthStep(old(View()), Measured)
    {
      measuring := false;
      if of != project {
        stale := true;
      } else {
        root, measured := of, true;
        shownFrom := readFrom;
      }
      var begun := Reread();
    }

    method Toggle()
      modifies this
      ensures View() == GrowthStep(old(View()), Show(!old(shown)))
    {
      shown := !shown;
      if shown {
        var begun := Reread();
      }
    }
  }

  // ---- the counts kept between measures ----

  /** A file as the disk has it; count stands for its non-blank lines. */
  datatype File = File(size: nat, mtime: int, isDir: bool, count: nat)

  datatype FileCount = FileCount(size: nat, mtime: int, lines: nat)

  const MAX_COUNTED_BYTES: nat := 2 * 1024 * 1024

  predicate Counted(rel: string, disk: map<string, File>, isCode: string -> bool) {
    isCode(rel) && rel in disk && !disk[rel].isDir && disk[rel].size <= MAX_COUNTED_BYTES
  }

  function CountOf(rel: string, disk: map<string, File>, cache: map<string, FileCount>): FileCount
    requires rel in disk
  {
    var f := disk[rel];
    if rel in cache && cache[rel].size == f.size && cache[rel].mtime == f.mtime then cache[rel]
    else FileCount(f.size, f.mtime, f.count)
  }

  /** What a measure of files leaves: a count of every code file it can read, and of those the ones with
      lines. */
  ghost predicate Measures(files: seq<string>, disk: map<string, File>, cache: map<string, FileCount>,
                           isCode: string -> bool,
                           lines: map<string, nat>, next: map<string, FileCount>) {
    && (forall rel :: rel in next <==> rel in files && Counted(rel, disk, isCode))
    && (forall rel :: rel in next ==> next[rel] == CountOf(rel, disk, cache))
    && (forall rel :: rel in lines <==> rel in next && next[rel].lines > 0)
    && (forall rel :: rel in lines ==> lines[rel] == next[rel].lines)
  }

  /** What a measure has to go by: the project's files, None when listing them failed, and the disk. */
  datatype Moment = Moment(listed: Option<seq<string>>, disk: map<string, File>)

  /** A failed listing finds nothing and leaves the counts as they were. */
  ghost predicate MeasuredAt(m: Moment, cache: map<string, FileCount>, isCode: string -> bool, lines: map<string, nat>,
                           next: map<string, FileCount>) {
    match m.listed
    case None => lines == map[] && next == cache
    case Some(files) => Measures(files, m.disk, cache, isCode, lines, next)
  }

  method MeasureGrowth(m: Moment, cache: map<string, FileCount>, isCode: string -> bool)
    returns (lines: map<string, nat>, next: map<string, FileCount>)
    ensures MeasuredAt(m, cache, isCode, lines, next)
  {
    hide CountOf, Measures;
    lines, next := map[], map[];
    if m.listed.None? {
      return map[], cache;
    }
    var files, disk := m.listed.value, m.disk;
    MeasuresNone(disk, cache, isCode);
    assert files[..0] == [];
    for i := 0 to |files|
      invariant Measures(files[..i], disk, cache, isCode, lines, next)
    {
      var rel := files[i];
      assert files[..i + 1] == files[..i] + [rel];
      MeasuresMore(files[..i], rel, disk, cache, isCode, lines, next);
      if isCode(rel) && rel in disk && !disk[rel].isDir && disk[rel].size <= MAX_COUNTED_BYTES {
        var c := CountOf(rel, disk, cache);
        next := next[rel := c];
        if c.lines > 0 {
          lines := lines[rel := c.lines];
        }
      }
    }
    assert files[..|files|] == files;
  }

  lemma MeasuresNone(disk: map<string, File>, cache: map<string, FileCount>, isCode: string -> bool)
    ensures Measures([], disk, cache, isCode, map[], map[])
  {
  }

  lemma MeasuresMore(files: seq<string>, rel: string, disk: map<string, File>, cache: map<string, FileCount>,
                     isCode: string -> bool,
                     lines: map<string, nat>, next: map<string, FileCount>)
    requires Measures(files, disk, cache, isCode, lines, next)
    ensures if !Counted(rel, disk, isCode) then Measures(files + [rel], disk, cache, isCode, lines, next)
            else
              var c := CountOf(rel, disk, cache);
              Measures(files + [rel], disk, cache, isCode,
                       if c.lines > 0 then lines[rel := c.lines] else lines, next[rel := c])
  {
    hide CountOf;
  }

  /** Equal stamps mean equal content: truth is the count that a file's size and time stand for. */
  predicate Stamped(disk: map<string, File>, truth: (string, nat, int) -> nat) {
    forall rel :: rel in disk ==> disk[rel].count == truth(rel, disk[rel].size, disk[rel].mtime)
  }

  predicate Accurate(cache: map<string, FileCount>, truth: (string, nat, int) -> nat) {
    forall rel :: rel in cache ==> cache[rel].lines == truth(rel, cache[rel].size, cache[rel].mtime)
  }

  /** With accurate counts, whatever the disk has come to, a measure finds what one from scratch finds, and
      leaves accurate counts. */
  lemma CacheChangesNothing(m: Moment, cache: map<string, FileCount>, isCode: string -> bool,
                            truth: (string, nat, int) -> nat,
                            lines: map<string, nat>, next: map<string, FileCount>, plainLines: map<string, nat>,
                            plainNext: map<string, FileCount>)
    requires Accurate(cache, truth) && Stamped(m.disk, truth)
    requires MeasuredAt(m, cache, isCode, lines, next) && MeasuredAt(m, map[], isCode, plainLines, plainNext)
    ensures lines == plainLines && (m.listed.Some? ==> next == plainNext)
    ensures Accurate(next, truth)
  {
    if m.listed.Some? {
      var disk := m.disk;
      forall rel | rel in next
        ensures rel in plainNext && next[rel] == plainNext[rel] ==
                FileCount(disk[rel].size, disk[rel].mtime, disk[rel].count)
      {
      }
      assert next == plainNext;
      assert lines == plainLines;
    }
  }

  // ---- the Changes window ----

  /** An open Changes window: reading is what had landed when each read still under way began, oldest first,
      and shownFrom the same of the one shown. */
  datatype Window = Window(loading: bool, edits: nat, reading: seq<nat>, shownFrom: nat)

  datatype WindowEvent = WindowMsgs(msgs: seq<Msg>) | Refresh | ReadDone(i: nat)

  function Reload(w: Window): Window { w.(loading := true, reading := w.reading + [w.edits]) }

  /** A turn's end reads again at once; an edit waits for the end of its batch. */
  function WindowMark(w: Window, m: Msg): Window {
    match m
    case Edit(_) => w.(edits := w.edits + 1)
    case TurnEnd => Reload(w.(edits := w.edits + 1))
    case Other => w
  }

  function WindowMarkAll(w: Window, msgs: seq<Msg>): Window
    decreases |msgs|
  {
    if msgs == [] then w else WindowMarkAll(WindowMark(w, msgs[0]), msgs[1..])
  }

  predicate HasEdit(msgs: seq<Msg>) { exists i :: 0 <= i < |msgs| && msgs[i].Edit? }

  /** The person can ask for a read at any time. One of the reads under way is done; the loading flag does
      not say that others are not. */
  function WindowStep(w: Window, e: WindowEvent): Window {
    match e
    case WindowMsgs(msgs) =>
      var t := WindowMarkAll(w, msgs);
      if HasEdit(msgs) && !t.loading then Reload(t) else t
    case Refresh => Reload(w)
    case ReadDone(i) =>
      if i >= |w.reading| then w
      else w.(loading := false, reading := w.reading[..i] + w.reading[i + 1..], shownFrom := w.reading[i])
  }

  function WindowRun(w: Window, events: seq<WindowEvent>): Window
    decreases |events|
  {
    if events == [] then w else WindowRun(WindowStep(w, events[0]), events[1..])
  }

  // ---- when the window shows everything ----

  /** Of each read, under way or shown: whether nothing has landed since it began. */
  datatype Reads = Reads(loading: bool, reading: seq<bool>, shown: bool)

  function SomethingLands(r: Reads): Reads { r.(reading := seq(|r.reading|, _ => false), shown := false) }

  function Begin(r: Reads): Reads { r.(loading := true, reading := r.reading + [true]) }

  function ReadsMark(r: Reads, m: Msg): Reads {
    match m
    case Edit(_) => SomethingLands(r)
    case TurnEnd => Begin(SomethingLands(r))
    case Other => r
  }

  function ReadsMarkAll(r: Reads, msgs: seq<Msg>): Reads
    decreases |msgs|
  {
    if msgs == [] then r else ReadsMarkAll(ReadsMark(r, msgs[0]), msgs[1..])
  }

  function ReadsStep(r: Reads, e: WindowEvent): Reads {
    match e
    case WindowMsgs(msgs) =>
      var t := ReadsMarkAll(r, msgs);
      if HasEdit(msgs) && !t.loading then Begin(t) else t
    case Refresh => Begin(r)
    case ReadDone(i) =>
      if i >= |r.reading| then r
      else r.(loading := false, reading := r.reading[..i] + r.reading[i + 1..], shown := r.reading[i])
  }

  /** The read done last was begun after what last landed; r tells of the reads before these events. */
  predicate DoneLastIsCurrent(r: Reads, events: seq<WindowEvent>)
    decreases |events|
  {
    if events == [] then r.shown else DoneLastIsCurrent(ReadsStep(r, events[0]), events[1..])
  }

  ghost predicate Agree(w: Window, r: Reads) {
    && w.loading == r.loading && |w.reading| == |r.reading|
    && (forall i :: 0 <= i < |w.reading| ==> w.reading[i] <= w.edits && (r.reading[i] <==> w.reading[i] == w.edits))
    && w.shownFrom <= w.edits && (r.shown <==> w.shownFrom == w.edits)
  }

  lemma {:induction false} MarksAgree(w: Window, r: Reads, msgs: seq<Msg>)
    requires Agree(w, r)
    ensures Agree(WindowMarkAll(w, msgs), ReadsMarkAll(r, msgs))
    decreases |msgs|
  {
    if msgs != [] {
      MarksAgree(WindowMark(w, msgs[0]), ReadsMark(r, msgs[0]), msgs[1..]);
    }
  }

  lemma StepsAgree(w: Window, r: Reads, e: WindowEvent)
    requires Agree(w, r)
    ensures Agree(WindowStep(w, e), ReadsStep(r, e))
  {
    hide HasEdit, WindowMarkAll, ReadsMarkAll;
    if e.WindowMsgs? {
      MarksAgree(w, r, e.msgs);
    }
  }

  lemma {:induction false} RunsShow(w: Window, r: Reads, events: seq<WindowEvent>)
    requires Agree(w, r)
    ensures var last := WindowRun(w, events); last.shownFrom == last.edits <==> DoneLastIsCurrent(r, events)
    decreases |events|
  {
    hide WindowStep, ReadsStep;
    if events != [] {
      StepsAgree(w, r, events[0]);
      RunsShow(WindowStep(w, events[0]), ReadsStep(r, events[0]), events[1..]);
    }
  }

  const WINDOW_START := Window(true, 0, [0], 0)

  /** Unlike the rail, the window can lose an edit: over every run, whatever order its reads are done in, it
      shows everything that has landed if and only if the read done last was begun after what last landed. */
  lemma {:induction false} WindowShowsAllWhenCurrent(events: seq<WindowEvent>)
    ensures var last := WindowRun(WINDOW_START, events);
            last.shownFrom == last.edits <==> DoneLastIsCurrent(Reads(true, [true], true), events)
  {
    RunsShow(WINDOW_START, Reads(true, [true], true), events);
  }

  // ---- reads done in the order they were begun ----

  /** The last edit or turn's end of a batch is a turn's end. */
  predicate EndsInTurnEnd(msgs: seq<Msg>) {
    msgs != [] && (EndsInTurnEnd(msgs[1..]) || (msgs[0].TurnEnd? && Quiet(msgs[1..])))
  }

  predicate Quiet(msgs: seq<Msg>) { forall i :: 0 <= i < |msgs| ==> msgs[i].Other? }

  predicate HasTurnEnd(msgs: seq<Msg>) { exists i :: 0 <= i < |msgs| && msgs[i].TurnEnd? }

  /** Something lands with a batch and no read is begun after it: it ends in an edit, with a read under way
      or a turn's end before that edit. */
  predicate Missed(w: Window, msgs: seq<Msg>) {
    !Quiet(msgs) && !EndsInTurnEnd(msgs) && (w.loading || HasTurnEnd(msgs))
  }

  /** What last landed in a run was missed, and the person asked for no read since; before tells of what
      landed before the run. */
  predicate LastMissed(w: Window, events: seq<WindowEvent>, before: bool)
    decreases |events|
  {
    if events == [] then before
    else
      var e := events[0];
      LastMissed(WindowStep(w, e), events[1..], MissedAfter(w, e, before))
  }

  predicate MissedAfter(w: Window, e: WindowEvent, before: bool) {
    match e
    case WindowMsgs(msgs) => if Quiet(msgs) then before else Missed(w, msgs)
    case Refresh => false
    case ReadDone(_) => before
  }

  /** The newest read, of those under way and the one shown. */
  function Newest(w: Window): nat { if w.reading == [] then w.shownFrom else w.reading[|w.reading| - 1] }

  lemma QuietFirst(msgs: seq<Msg>)
    requires msgs != []
    ensures Quiet(msgs) <==> msgs[0].Other? && Quiet(msgs[1..])
    ensures HasEdit(msgs) <==> msgs[0].Edit? || HasEdit(msgs[1..])
    ensures HasTurnEnd(msgs) <==> msgs[0].TurnEnd? || HasTurnEnd(msgs[1..])
  {
    assert forall i :: 0 <= i < |msgs[1..]| ==> msgs[1..][i] == msgs[i + 1];
    assert msgs == [msgs[0]] + msgs[1..];
    forall i | 0 < i < |msgs|
      ensures msgs[i] == msgs[1..][i - 1]
    {
    }
  }

  lemma {:induction false} MarksMissed(w: Window, msgs: seq<Msg>)
    requires Newest(w) <= w.edits
    ensures var t := WindowMarkAll(w, msgs);
            && Newest(t) <= t.edits
            && (Newest(t) == t.edits <==> if Quiet(msgs) then Newest(w) == w.edits else EndsInTurnEnd(msgs))
            && (t.loading <==> w.loading || HasTurnEnd(msgs))
            && (Quiet(msgs) ==> t == w && !HasEdit(msgs))
            && (!Quiet(msgs) && !EndsInTurnEnd(msgs) ==> HasEdit(msgs))
            && (EndsInTurnEnd(msgs) ==> HasTurnEnd(msgs) && !Quiet(msgs))
    decreases |msgs|
  {
    hide Quiet, HasEdit, HasTurnEnd;
    if msgs == [] {
      NoMsgs();
    } else {
      QuietFirst(msgs);
      MarksMissed(WindowMark(w, msgs[0]), msgs[1..]);
    }
  }

  lemma NoMsgs()
    ensures Quiet([]) && !HasEdit([]) && !HasTurnEnd([])
  {
  }

  lemma {:induction false} WindowRunShows(w: Window, events: seq<WindowEvent>, before: bool)
    requires forall i :: 0 <= i < |events| && events[i].ReadDone? ==> events[i].i == 0
    requires Newest(w) <= w.edits && (Newest(w) == w.edits <==> !before)
    ensures var last := WindowRun(w, events);
            Newest(last) == last.edits <==> !LastMissed(w, events, before)
    decreases |events|
  {
    hide Quiet, HasEdit, HasTurnEnd, EndsInTurnEnd, WindowMarkAll;
    if events != [] {
      var e := events[0];
      if e.WindowMsgs? {
        MarksMissed(w, e.msgs);
      }
      WindowRunShows(WindowStep(w, e), events[1..], MissedAfter(w, e, before));
    }
  }

  /** With its reads done in the order they were begun, the read done last was current if and only if what
      last landed was not missed, or a read was asked for since. */
  lemma {:induction false} WindowShowsAllUnlessMissed(events: seq<WindowEvent>)
    requires forall i :: 0 <= i < |events| && events[i].ReadDone? ==> events[i].i == 0
    ensures var last := WindowRun(WINDOW_START, events);
            last.reading == [] ==>
              (last.shownFrom == last.edits <==> !LastMissed(WINDOW_START, events, false))
              && (DoneLastIsCurrent(Reads(true, [true], true), events) <==> !LastMissed(WINDOW_START, events, false))
  {
    WindowShowsAllWhenCurrent(events);
    WindowRunShows(WINDOW_START, events, false);
  }

  /** An edit that lands while the window is loading is missed. */
  lemma WindowCanLoseAnEdit()
    ensures var last := WindowRun(WINDOW_START, [WindowMsgs([Edit("a")]), ReadDone(0)]);
            last.reading == [] && last.shownFrom < last.edits
  {
    var msgs := [Edit("a")];
    var w := WINDOW_START;
    var events := [WindowMsgs(msgs), ReadDone(0)];
    assert msgs[1..] == [] && WindowMarkAll(w, msgs) == WindowMarkAll(WindowMark(w, msgs[0]), []);
    var t := WindowStep(w, events[0]);
    assert t == Window(true, 1, [0], 0);
    assert events[1..] == [ReadDone(0)] && [ReadDone(0)][1..] == [];
    assert WindowStep(t, ReadDone(0)) == Window(false, 1, [], 0);
    assert WindowRun(t, [ReadDone(0)]) == WindowRun(WindowStep(t, ReadDone(0)), []);
  }

  /** And reads done out of order leave an older one shown. */
  lemma WindowCanShowAnOlderRead()
    ensures var last := WindowRun(WINDOW_START, [WindowMsgs([TurnEnd]), ReadDone(1), ReadDone(0)]);
            last.reading == [] && last.shownFrom < last.edits
  {
    var msgs := [TurnEnd];
    var w := WINDOW_START;
    var events := [WindowMsgs(msgs), ReadDone(1), ReadDone(0)];
    assert msgs[1..] == [] && WindowMarkAll(w, msgs) == WindowMarkAll(WindowMark(w, msgs[0]), []);
    var t, u, v := Window(true, 1, [0, 1], 0), Window(false, 1, [0], 1), Window(false, 1, [], 0);
    assert WindowStep(w, events[0]) == t && WindowStep(t, ReadDone(1)) == u && WindowStep(u, ReadDone(0)) == v;
    assert events[1..] == [ReadDone(1), ReadDone(0)] && events[1..][1..] == [ReadDone(0)] && [ReadDone(0)][1..] == [];
    assert WindowRun(t, events[1..]) == WindowRun(u, [ReadDone(0)]) == WindowRun(v, []);
  }

  class ChangesWindow {
    var loading: bool
    var marked: bool
    ghost var edits: nat
    ghost var reading: seq<nat>
    ghost var shownFrom: nat

    constructor ()
      ensures View() == WINDOW_START && !marked
    {
      loading, marked, edits, reading, shownFrom := true, false, 0, [0], 0;
    }

    ghost function View(): Window
      reads this
    {
      Window(loading, edits, reading, shownFrom)
    }

    /** reload, at a turn's end, after a batch, or when the person asks. */
    method BeginRead()
      modifies this`loading, this`reading
      ensures View() == Reload(old(View()))
    {
      loading, reading := true, reading + [edits];
    }

    method HandleMsgs(msgs: seq<Msg>)
      requires !marked
      modifies this
      ensures View() == WindowStep(old(View()), WindowMsgs(msgs)) && !marked
    {
      hide WindowMarkAll;
      MarkNone(View(), msgs);
      for i := 0 to |msgs|
        invariant WindowMarkAll(View(), msgs[i..]) == WindowMarkAll(old(View()), msgs)
        invariant marked == HasEdit(msgs[..i])
      {
        MarkNext(View(), msgs, i);
        match msgs[i]
        case Edit(_) =>
          edits, marked := edits + 1, true;
        case TurnEnd =>
          edits := edits + 1;
          BeginRead();
        case Other =>
      }
      assert msgs[..|msgs|] == msgs;
      MarkNone(View(), msgs[|msgs|..]);
      if marked {
        marked := false;
        if !loading {
          BeginRead();
        }
      }
    }

    /** changesLoaded: the i-th of the reads under way, oldest first, is done. */
    method Loaded(i: nat)
      requires i < |reading|
      modifies this
      ensures View() == WindowStep(old(View()), ReadDone(i)) && marked == old(marked)
    {
      loading := false;
      shownFrom, reading := reading[i], reading[..i] + reading[i + 1..];
    }
  }

  lemma {:induction false} MarkNone(w: Window, msgs: seq<Msg>)
    ensures msgs == [] ==> WindowMarkAll(w, msgs) == w
    ensures !HasEdit(msgs[..0]) && msgs[0..] == msgs
  {
  }

  lemma {:induction false} MarkNext(w: Window, msgs: seq<Msg>, i: nat)
    requires i < |msgs|
    ensures WindowMarkAll(w, msgs[i..]) == WindowMarkAll(WindowMark(w, msgs[i]), msgs[i + 1..])
    ensures HasEdit(msgs[..i + 1]) <==> HasEdit(msgs[..i]) || msgs[i].Edit?
  {
    assert msgs[i..][1..] == msgs[i + 1..];
    assert msgs[..i + 1] == msgs[..i] + [msgs[i]];
    var a, b := msgs[..i], msgs[..i + 1];
    if HasEdit(a) {
      var k :| 0 <= k < i && a[k].Edit?;
      assert b[k].Edit?;
    }
    if msgs[i].Edit? {
      assert b[i].Edit?;
    }
  }
}
