/** What counts as an edit to each panel, and that reading comes to rest: once nothing lands any more, what is
    shown is what there is after at most two reads. */
module RereadSettles {
  import opened Reread
  import opened Text

  // ---- the rail ----

  /** The edits and ends of turns among msgs. */
  function Landing(msgs: seq<Msg>): nat {
    if msgs == [] then 0 else (if msgs[0].Edit? || msgs[0].TurnEnd? then 1 else 0) + Landing(msgs[1..])
  }

  function LandedOver(events: seq<RailEvent>): nat {
    if events == [] then 0 else (if events[0].Batch? then Landing(events[0].msgs) else 0) + LandedOver(events[1..])
  }

  lemma {:induction false} MarkAllLands(r: Rail, msgs: seq<Msg>)
    ensures RailMarkAll(r, msgs) == r.(stale := r.stale || Landing(msgs) > 0, edits := r.edits + Landing(msgs))
    decreases |msgs|
  {
    if msgs != [] {
      MarkAllLands(RailMark(r, msgs[0]), msgs[1..]);
    }
  }

  /** Every edit, and every end of a turn, has landed on the rail. */
  lemma {:induction false} RailLanded(r: Rail, events: seq<RailEvent>)
    ensures RailRun(r, events).edits == r.edits + LandedOver(events)
    decreases |events|
  {
    if events != [] {
      if events[0].Batch? {
        MarkAllLands(r, events[0].msgs);
      }
      RailLanded(RailStep(r, events[0]), events[1..]);
    }
  }

  /** After any run that read or began to, two reads done leave the rail at rest, showing everything. */
  lemma {:induction false} RailSettles(events: seq<RailEvent>)
    ensures var r := RailRun(RAIL_START, events);
            var t := RailStep(RailStep(r, Loaded), Loaded);
            r.loaded || r.loading ==> t.loaded && !t.loading && !t.stale && t.shownFrom == t.edits == r.edits
  {
    RailRunKeeps(RAIL_START, events);
  }

  /** At rest, nothing but something landing begins a read; and while one is under way no other is begun. */
  lemma {:induction false} RailRests(r: Rail, msgs: seq<Msg>)
    ensures r.loaded && !r.loading && !r.stale && Landing(msgs) == 0 ==> RailStep(r, Batch(msgs)) == r
    ensures r.loading ==> RailStep(r, Batch(msgs)).loading && RailStep(r, Batch(msgs)).readFrom == r.readFrom
    ensures !r.loading && Landing(msgs) > 0 ==>
              RailStep(r, Batch(msgs)).loading && RailStep(r, Batch(msgs)).readFrom == r.edits + Landing(msgs)
  {
    MarkAllLands(r, msgs);
  }

  // ---- the growth panel ----

  /** The edits of a file among msgs, and the ends of turns. */
  function Growing(msgs: seq<Msg>): nat {
    if msgs == [] then 0
    else
      var first := match msgs[0] case Edit(path) => if path == "" then 0 else 1 case TurnEnd => 1 case Other => 0;
      first + Growing(msgs[1..])
  }

  function GrownOver(events: seq<GrowthEvent>): nat {
    if events == [] then 0 else (if events[0].Msgs? then Growing(events[0].msgs) else 0) + GrownOver(events[1..])
  }

  lemma {:induction false} GrowthMarkAllLands(g: Growth, msgs: seq<Msg>)
    ensures GrowthMarkAll(g, msgs) == g.(stale := g.stale || Growing(msgs) > 0, edits := g.edits + Growing(msgs))
    decreases |msgs|
  {
    if msgs != [] {
      GrowthMarkAllLands(GrowthMark(g, msgs[0]), msgs[1..]);
    }
  }

  /** Every edit of a named file, and every end of a turn, has landed on the panel. */
  lemma {:induction false} GrowthLanded(g: Growth, events: seq<GrowthEvent>)
    ensures GrowthRun(g, events).edits == g.edits + GrownOver(events)
    decreases |events|
  {
    if events != [] {
      if events[0].Msgs? {
        GrowthMarkAllLands(g, events[0].msgs);
      }
      GrowthLanded(GrowthStep(g, events[0]), events[1..]);
    }
  }

  /** The project last switched to. */
  function ProjectAfter(project: string, events: seq<GrowthEvent>): string
    decreases |events|
  {
    if events == [] then project
    else ProjectAfter(if events[0].Switch? then events[0].project else project, events[1..])
  }

  /** Whether the panel was last shown or hidden. */
  predicate ShownAfter(shown: bool, events: seq<GrowthEvent>)
    decreases |events|
  {
    if events == [] then shown else ShownAfter(if events[0].Show? then events[0].on else shown, events[1..])
  }

  lemma {:induction false} GrowthFollows(g: Growth, events: seq<GrowthEvent>)
    ensures GrowthRun(g, events).project == ProjectAfter(g.project, events)
    ensures GrowthRun(g, events).shown == ShownAfter(g.shown, events)
    decreases |events|
  {
    if events != [] {
      if events[0].Msgs? {
        GrowthMarkAllLands(g, events[0].msgs);
      }
      GrowthFollows(GrowthStep(g, events[0]), events[1..]);
    }
  }

  lemma {:induction false} GrowthStepSettles(g: Growth)
    requires GrowthOk(g)
    ensures var t := GrowthStep(GrowthStep(GrowthStep(g, Show(true)), Measured), Measured);
            && t.shown && t.measured && !t.measuring && !t.stale && t.root == t.project == g.project
            && t.shownFrom == t.edits == g.edits
  {
  }

  /** After any run, shown and measured twice, the panel is at rest and shows everything that has landed on the
      project last switched to. */
  lemma {:induction false} GrowthSettles(events: seq<GrowthEvent>)
    ensures var t := GrowthStep(GrowthStep(GrowthStep(GrowthRun(GROWTH_START, events), Show(true)), Measured),
                                Measured);
            && t.shown && !t.measuring && !t.stale && t.measured && t.root == ProjectAfter("", events)
            && t.shownFrom == t.edits == GrownOver(events)
  {
    hide GrowthStep, GrownOver, ProjectAfter;
    GrowthRunKeeps(GROWTH_START, events);
    GrowthStepSettles(GrowthRun(GROWTH_START, events));
    GrowthLanded(GROWTH_START, events);
    GrowthFollows(GROWTH_START, events);
  }

  /** At rest, nothing but something landing begins a measure; hidden, nothing does; and while one is under way
      no other is begun. */
  lemma {:induction false} GrowthRests(g: Growth, msgs: seq<Msg>)
    ensures g.measured && !g.measuring && !g.stale && g.root == g.project && Growing(msgs) == 0 ==>
              GrowthStep(g, Msgs(msgs)) == g
    ensures !g.shown ==> GrowthStep(g, Msgs(msgs)).measuring == g.measuring
    ensures g.measuring ==> GrowthStep(g, Msgs(msgs)).readFrom == g.readFrom
  {
    GrowthMarkAllLands(g, msgs);
  }

  /** From scratch a measure counts, of every listed code file that is no directory and no larger than two
      mebibytes, the lines it has, if any. */
  lemma {:induction false} MeasuredFromScratch(files: seq<string>, disk: map<string, File>, isCode: string -> bool,
                                               lines: map<string, nat>, next: map<string, FileCount>)
    requires MeasuredAt(Moment(Some(files), disk), map[], isCode, lines, next)
    ensures lines == map rel | rel in files && rel in disk && isCode(rel) && !disk[rel].isDir
                                 && disk[rel].size <= 2_097_152 && disk[rel].count > 0 :: disk[rel].count
  {
  }

  // ---- the Changes window ----

  function WindowLanded(events: seq<WindowEvent>): nat {
    if events == [] then 0
    else
      var first := if events[0].WindowMsgs? then Landing(events[0].msgs) else 0;
      first + WindowLanded(events[1..])
  }

  lemma {:induction false} WindowMarkAllLands(w: Window, msgs: seq<Msg>)
    ensures WindowMarkAll(w, msgs).edits == w.edits + Landing(msgs)
    decreases |msgs|
  {
    if msgs != [] {
      WindowMarkAllLands(WindowMark(w, msgs[0]), msgs[1..]);
    }
  }

  /** Every edit, and every end of a turn, has landed on the window. */
  lemma {:induction false} WindowLands(w: Window, events: seq<WindowEvent>)
    ensures WindowRun(w, events).edits == w.edits + WindowLanded(events)
    decreases |events|
  {
    if events != [] {
      if events[0].WindowMsgs? {
        WindowMarkAllLands(w, events[0].msgs);
      }
      WindowLands(WindowStep(w, events[0]), events[1..]);
    }
  }
}
