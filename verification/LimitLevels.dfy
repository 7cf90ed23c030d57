/** What it takes to be warned: how many calls in a minute, how much a failure, a refusal and what is left of
    the day's budget weigh, and for how long. */
module LimitLevels {
  import opened Limits

  lemma {:induction false} OneCounts(a: seq<int>, x: int, b: seq<int>, now: int, window: int)
    ensures |Recent(a + [x] + b, now, window)| ==
            |Recent(a + b, now, window)| + if now - x < window then 1 else 0
  {
    RecentConcat(a + [x], b, now, window);
    RecentConcat(a, [x], now, window);
    RecentConcat(a, b, now, window);
    assert [x][1..] == [];
  }

  /** A call is counted for sixty seconds, a failure for ninety, a refusal for five minutes. */
  lemma {:induction false} CountedFor(a: seq<int>, x: int, b: seq<int>, now: int)
    ensures |Recent(a + [x] + b, now, CALL_WINDOW)| - |Recent(a + b, now, CALL_WINDOW)| ==
            if now - x < 60_000_000_000 then 1 else 0
    ensures |Recent(a + [x] + b, now, ERROR_WINDOW)| - |Recent(a + b, now, ERROR_WINDOW)| ==
            if now - x < 90_000_000_000 then 1 else 0
    ensures |Recent(a + [x] + b, now, RATE_WINDOW)| - |Recent(a + b, now, RATE_WINDOW)| ==
            if now - x < 300_000_000_000 then 1 else 0
  {
    hide Recent;
    OneCounts(a, x, b, now, CALL_WINDOW);
    OneCounts(a, x, b, now, ERROR_WINDOW);
    OneCounts(a, x, b, now, RATE_WINDOW);
  }

  /** A level is at least this one. */
  predicate AtLeast(level: Level, least: Level) {
    match least
    case Calm => true
    case Busy => !level.Calm?
    case High => level.High? || level.Limited?
    case Limited => level.Limited?
  }

  /** Of a free provider seven calls in the last minute are many, twelve too many and seventeen the limit; of
      another it is 21, 36 and 51. */
  lemma CallsAlone(t: Tracker, now: int)
    requires t.limit == 0 && t.errors == [] && t.rates == []
    ensures var n, level := |t.calls|, LevelOf(RiskOf(t, now));
            && (AtLeast(level, Busy) <==> n >= if t.free then 7 else 21)
            && (AtLeast(level, High) <==> n >= if t.free then 12 else 36)
            && (AtLeast(level, Limited) <==> n >= if t.free then 17 else 51)
  {
    assert RiskOf(t, now) == Clamp01(|t.calls| as real / (if t.free then 20.0 else 60.0));
  }

  /** Two failures weigh as much as one call. */
  lemma TwoFailuresAreACall(t: Tracker, u: Tracker, now: int)
    requires u == t.(calls := u.calls, errors := u.errors) && t.limit == 0
    requires |u.calls| == |t.calls| + 1 && |t.errors| == |u.errors| + 2
    ensures RiskOf(t, now) == RiskOf(u, now)
  {
    assert t.errors != [];
    SameMinute(|t.calls|, |u.errors|, Capacity(t));
  }

  lemma SameMinute(calls: nat, errors: nat, capacity: nat)
    requires capacity > 0
    ensures MinutePressure(calls, errors + 2, capacity) == MinutePressure(calls + 1, errors, capacity)
  {
    assert calls as real + 0.5 * (errors + 2) as real == (calls + 1) as real + 0.5 * errors as real;
  }

  /** A refusal raises the risk by a half when it comes, by a quarter after half of its five minutes, and by
      nothing at their end; alone it is worth a warning for ninety seconds. */
  lemma RefusalAlone(t: Tracker, at: int, now: int)
    requires t.calls == [] && t.errors == [] && t.rates == [at] && t.limit == 0
    requires at <= now <= at + 300_000_000_000
    ensures RiskOf(t, now) == 0.5 - (now - at) as real / 600_000_000_000.0
    ensures !LevelOf(RiskOf(t, now)).Calm? <==> now - at <= 90_000_000_000
  {
    hide Refused;
    OneRefusal(at, now);
    assert Pressure(t) == 0.0;
  }

  lemma {:induction false} OneRefusal(at: int, now: int)
    ensures Refused([at], now) == 0.5 - (now - at) as real / 600_000_000_000.0
  {
    assert Refused([at], now) == 0.5 * Fade(at, now) by {
      RefusedFirst([at], now);
      assert [at][1..] == [];
    }
    HalfOf((now - at) as real);
  }

  lemma HalfOf(age: real)
    ensures 0.5 * (1.0 - age / 300_000_000_000.0) == 0.5 - age / 600_000_000_000.0
  {
  }

  /** A second refusal weighs as much again. */
  lemma {:induction false} RefusalsAdd(t: Tracker, at: int, now: int)
    ensures Refused(t.rates + [at], now) == Refused(t.rates, now) + Refused([at], now)
  {
    hide Refused;
    RefusedConcat(t.rates, [at], now);
  }

  /** With the day's budget used up, or less than a twentieth of it left, the limit is near whatever the last
      minute was. */
  lemma BudgetGone(t: Tracker, now: int)
    requires t.limit > 0 && t.rates == [] && 20 * t.remaining < t.limit
    ensures LevelOf(RiskOf(t, now)).Limited?
    ensures t.remaining <= 0 ==> RiskOf(t, now) == 1.0
  {
    hide MinutePressure;
    if t.remaining > 0 {
      LessThan(t.remaining, t.limit);
    }
  }

  lemma LessThan(remaining: int, limit: int)
    requires limit > 0
    ensures remaining as real / limit as real < 0.05 <==> 20 * remaining < limit
  {
    ShareLess(remaining as real, limit as real);
    assert 20.0 * remaining as real == (20 * remaining) as real;
  }

  lemma ShareLess(r: real, l: real)
    requires l > 0.0
    ensures r / l < 0.05 <==> 20.0 * r < l
  {
    var share := r / l;
    assert share * l == r;
    Side(share, r, l);
  }

  lemma Side(share: real, r: real, l: real)
    requires l > 0.0 && share * l == r
    ensures share < 0.05 <==> 20.0 * r < l
  {
    var x := 20.0 * share - 1.0;
    assert x * l == 20.0 * r - l by {
      assert x * l == 20.0 * (share * l) - l;
    }
    assert x < 0.0 <==> x * l < 0.0;
  }

  /** Otherwise the budget presses by how far short of an hour it falls at the pace of the last minute. */
  lemma BudgetLasts(remaining: int, limit: int, calls: nat, minutes: nat)
    requires limit > 0 && 20 * remaining >= limit && calls > 0 && remaining == minutes * calls
    ensures DayPressure(remaining, limit, calls) == if minutes >= 60 then 0.0 else 1.0 - minutes as real / 60.0
  {
    LessThan(remaining, limit);
    Lasts(remaining, calls, minutes);
  }

  lemma Lasts(remaining: int, calls: nat, minutes: nat)
    requires calls > 0 && remaining > 0 && remaining == minutes * calls
    ensures Exhausted(remaining, calls) == minutes as real
  {
    assert remaining as real == minutes as real * calls as real;
  }

  /** What a forecast goes by: the calls of the last sixty seconds, the failures of the last ninety and the
      refusals of the last five minutes. */
  lemma {:induction false} ForecastGoesBy(t: Tracker, now: int)
    ensures var u := Trimmed(t, now);
            && u.calls == Recent(t.calls, now, 60_000_000_000) && u.errors == Recent(t.errors, now, 90_000_000_000)
            && u.rates == Recent(t.rates, now, 300_000_000_000)
            && u.remaining == t.remaining && u.limit == t.limit && u.free == t.free
  {
  }

  /** Each thing heard is counted, as what it is, by the next forecast. */
  lemma {:induction false} HeardCounts(t: Tracker, now: int)
    ensures Trimmed(Heard(t, Call(now)), now) ==
            Trimmed(t, now).(calls := Recent(t.calls, now, CALL_WINDOW) + [now])
    ensures Trimmed(Heard(t, ToolError(now)), now) ==
            Trimmed(t, now).(errors := Recent(t.errors, now, ERROR_WINDOW) + [now])
    ensures Trimmed(Heard(t, RateLimited(now)), now) ==
            Trimmed(t, now).(rates := Recent(t.rates, now, RATE_WINDOW) + [now])
  {
    hide Recent;
    OneMore(t.calls, now, CALL_WINDOW);
    OneMore(t.errors, now, ERROR_WINDOW);
    OneMore(t.rates, now, RATE_WINDOW);
  }

  lemma {:induction false} OneMore(times: seq<int>, now: int, window: int)
    requires window > 0
    ensures Recent(times + [now], now, window) == Recent(times, now, window) + [now]
  {
    RecentConcat(times, [now], now, window);
    assert [now][1..] == [];
  }

  /** An allowance of something replaces the one before, and one of nothing is none. */
  lemma AllowanceReplaces(t: Tracker, left: int, of: int, isFree: bool)
    ensures Heard(t, Allowance(left, of)) == if of <= 0 then t else t.(remaining := left, limit := of)
    ensures Heard(t, Provider(isFree)) == t.(free := isFree)
  {
  }

  /** Twenty calls a minute are all of a free provider's, or of one with a daily limit; of another it is
      sixty. */
  lemma CapacityIs(t: Tracker)
    ensures Capacity(t) == if t.free || t.limit >= 1 then 20 else 60
  {
  }

  /** With no refusal and no budget, what is given as the reason is the failures when there are three or more and
      they are more than half of the calls, and else the requests. */
  lemma ReasonGiven(f: Forecast, t: Tracker, now: int)
    requires Answers(f, t, now) && t.rates == [] && t.limit == 0
    ensures f.reason == (if f.level.Calm? then NoReason
                         else if |t.errors| >= 3 && 2 * |t.errors| > |t.calls| then FailedCalls
                         else Requests)
    ensures f.exhausted == 0.0
  {
  }
}
