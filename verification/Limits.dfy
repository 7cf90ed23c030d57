/** Forecasting a rate limit (trim, predict): times are in nanoseconds, fractions are real numbers. */
module Limits {

  const SECOND := 1_000_000_000
  const CALL_WINDOW := 60 * SECOND
  const ERROR_WINDOW := 90 * SECOND
  const RATE_WINDOW := 300 * SECOND
  const FREE_MINUTE_CAP := 20
  const OTHER_MINUTE_CAP := 60

  datatype Tracker = Tracker(calls: seq<int>, errors: seq<int>, rates: seq<int>, remaining: int, limit: int, free: bool)

  datatype Level = Calm | Busy | High | Limited

  /** What the reason given is about. */
  datatype Reason = NoReason | Requests | FailedCalls | DailyBudget | Refusals

  /** exhausted is in minutes, 0 when unknown. */
  datatype Forecast = Forecast(risk: real, level: Level, reason: Reason, inMinute: nat, capacity: nat, exhausted: real)

  function Recent(times: seq<int>, now: int, window: int): (r: seq<int>)
    ensures |r| <= |times|
  {
    if times == [] then []
    else (if now - times[0] < window then [times[0]] else []) + Recent(times[1..], now, window)
  }

  function Trimmed(t: Tracker, now: int): Tracker {
    t.(calls := Recent(t.calls, now, CALL_WINDOW), errors := Recent(t.errors, now, ERROR_WINDOW),
       rates := Recent(t.rates, now, RATE_WINDOW))
  }

  function Max(x: real, y: real): real { if x < y then y else x }

  function Min(x: real, y: real): real { if x < y then x else y }

  function Clamp01(v: real): real { Min(Max(v, 0.0), 1.0) }

  function Capacity(t: Tracker): nat { if t.free || t.limit > 0 then FREE_MINUTE_CAP else OTHER_MINUTE_CAP }

  function MinutePressure(calls: nat, errors: nat, capacity: nat): (minute: real)
    requires capacity > 0
    ensures minute >= 0.0
  {
    (calls as real + 0.5 * errors as real) / capacity as real
  }

  /** How many minutes remaining requests last, 0 when there is no saying. */
  function Exhausted(remaining: int, calls: nat): real {
    if calls > 0 && remaining > 0 then remaining as real / calls as real else 0.0
  }

  function DayPressure(remaining: int, limit: int, calls: nat): (day: real)
    requires limit > 0
    ensures 0.0 <= day <= 1.0
  {
    var pace := if calls > 0 && remaining > 0 then Clamp01(1.0 - Exhausted(remaining, calls) / 60.0) else 0.0;
    var scarce := if remaining as real / limit as real < 0.05 then Max(pace, 0.85) else pace;
    if remaining <= 0 then 1.0 else scarce
  }

  /** How much a refusal still counts. */
  function Fade(at: int, now: int): real { 1.0 - (now - at) as real / RATE_WINDOW as real }

  function Refused(rates: seq<int>, now: int): real {
    if rates == [] then 0.0 else 0.5 * Fade(rates[0], now) + Refused(rates[1..], now)
  }

  function Pressure(t: Tracker): real {
    var minute := MinutePressure(|t.calls|, |t.errors|, Capacity(t));
    if t.limit > 0 then Max(minute, DayPressure(t.remaining, t.limit, |t.calls|)) else minute
  }

  /** The risk a tracker with nothing left to trim stands for. */
  function RiskOf(t: Tracker, now: int): real { Clamp01(Pressure(t) + Refused(t.rates, now)) }

  function LevelOf(risk: real): Level {
    if risk >= 0.85 then Limited else if risk >= 0.6 then High else if risk >= 0.35 then Busy else Calm
  }

  /** The risk a forecast gives, always a share. */
  function Risk(t: Tracker, now: int): (risk: real)
    ensures 0.0 <= risk <= 1.0
  {
    RiskOf(Trimmed(t, now), now)
  }

  datatype Event = Call(at: int) | ToolError(at: int) | RateLimited(at: int) | Allowance(left: int, of: int)
                 | Provider(isFree: bool) | Forecasted(at: int)

  function Heard(t: Tracker, e: Event): Tracker {
    match e
    case Call(at) => t.(calls := t.calls + [at])
    case ToolError(at) => t.(errors := t.errors + [at])
    case RateLimited(at) => t.(rates := t.rates + [at])
    case Allowance(left, of) => if of > 0 then t.(remaining := left, limit := of) else t
    case Provider(isFree) => t.(free := isFree)
    case Forecasted(at) => Trimmed(t, at)
  }

  lemma {:induction false} RefusedFirst(rates: seq<int>, now: int)
    ensures rates == [] ==> Refused(rates, now) == 0.0
    ensures rates != [] ==> Refused(rates, now) == 0.5 * Fade(rates[0], now) + Refused(rates[1..], now)
  {
  }

  method Trim(times: seq<int>, now: int, window: int) returns (keep: seq<int>)
    ensures keep == Recent(times, now, window)
  {
    keep := [];
    for i := 0 to |times|
      invariant keep + Recent(times[i..], now, window) == Recent(times, now, window)
    {
      assert times[i..][1..] == times[i + 1..];
      var rest := Recent(times[i + 1..], now, window);
      if now - times[i] < window {
        assert (keep + [times[i]]) + rest == keep + ([times[i]] + rest);
        keep := keep + [times[i]];
      } else {
        assert [] + rest == rest;
      }
    }
    assert times[|times|..] == [];
  }

  /** Every recent refusal adds to the risk, and is the reason given. */
  method AddRefusals(rates: seq<int>, now: int, pressure: real, before: Reason) returns (risk: real, reason: Reason)
    ensures risk == pressure + Refused(rates, now)
    ensures reason == if rates == [] then before else Refusals
  {
    risk, reason := pressure, before;
    for i := 0 to |rates|
      invariant pressure + Refused(rates, now) == risk + Refused(rates[i..], now)
      invariant reason == if i == 0 then before else Refusals
    {
      RefusedFirst(rates[i..], now);
      assert rates[i..][1..] == rates[i + 1..];
      risk, reason := risk + 0.5 * Fade(rates[i], now), Refusals;
    }
    assert rates[|rates|..] == [];
  }

  /** The daily budget presses harder than the last minute. */
  predicate DayIsWorse(t: Tracker) {
    t.limit > 0 && DayPressure(t.remaining, t.limit, |t.calls|) > MinutePressure(|t.calls|, |t.errors|, Capacity(t))
  }

  /** What a forecast from a trimmed tracker says. Its reason is none when it is calm; otherwise the
      refusals when there are any, else whichever of the day and the minute presses harder, the minute's
      being its failures when they are many. */
  predicate Answers(f: Forecast, t: Tracker, now: int) {
    && f.risk == RiskOf(t, now) && f.level == LevelOf(f.risk)
    && f.inMinute == |t.calls| && f.capacity == Capacity(t)
    && f.exhausted == (if t.limit > 0 then Exhausted(t.remaining, |t.calls|) else 0.0)
    && (f.reason.NoReason? <==> f.level.Calm?)
    && (f.reason.Refusals? <==> !f.level.Calm? && t.rates != [])
    && (f.reason.DailyBudget? <==> !f.level.Calm? && t.rates == [] && DayIsWorse(t))
    && (f.reason.FailedCalls? <==>
        !f.level.Calm? && t.rates == [] && !DayIsWorse(t) && |t.errors| >= 3 && |t.errors| > |t.calls| / 2)
  }

  /** The worst of the pressures, with the refusals added. */
  method Judge(t: Tracker, now: int) returns (f: Forecast)
    ensures f.risk == RiskOf(t, now)
    ensures Answers(f, t, now)
  {
    hide Recent, MinutePressure, DayPressure, Exhausted, Refused, Fade;
    var calls, errors := |t.calls|, |t.errors|;
    var capacity := if t.free || t.limit > 0 then FREE_MINUTE_CAP else OTHER_MINUTE_CAP;
    var risk := MinutePressure(calls, errors, capacity);
    var reason := if errors >= 3 && errors > calls / 2 then FailedCalls else Requests;
    var exhausted := 0.0;
    if t.limit > 0 {
      exhausted := Exhausted(t.remaining, calls);
      var day := DayPressure(t.remaining, t.limit, calls);
      if day > risk {
        risk, reason := day, DailyBudget;
      }
    }
    RefusedFirst(t.rates, now);
    risk, reason := AddRefusals(t.rates, now, risk, reason);
    risk := Clamp01(risk);
    var level := Calm;
    if risk >= 0.85 {
      level := Limited;
    } else if risk >= 0.6 {
      level := High;
    } else if risk >= 0.35 {
      level := Busy;
    }
    f := Forecast(risk, level, if level.Calm? then NoReason else reason, calls, capacity, exhausted);
  }

  class LimitTracker {
    var calls: seq<int>
    var errors: seq<int>
    var rates: seq<int>
    var remaining: int
    var limit: int
    var free: bool

    constructor ()
      ensures View() == Tracker([], [], [], 0, 0, false)
    {
      calls, errors, rates, remaining, limit, free := [], [], [], 0, 0, false;
    }

    function View(): Tracker
      reads this
    {
      Tracker(calls, errors, rates, remaining, limit, free)
    }

    method Note(e: Event)
      requires !e.Forecasted?
      modifies this
      ensures View() == Heard(old(View()), e)
    {
      match e
      case Call(at) => calls := calls + [at];
      case ToolError(at) => errors := errors + [at];
      case RateLimited(at) => rates := rates + [at];
      case Allowance(left, of) =>
        if of > 0 {
          remaining, limit := left, of;
        }
      case Provider(isFree) => free := isFree;
    }

    method Predict(now: int) returns (f: Forecast)
      modifies this
      ensures View() == Trimmed(old(View()), now)
      ensures f.risk == Risk(old(View()), now)
      ensures Answers(f, View(), now)
    {
      hide Recent, Answers, RiskOf;
      calls := Trim(calls, now, CALL_WINDOW);
      errors := Trim(errors, now, ERROR_WINDOW);
      rates := Trim(rates, now, RATE_WINDOW);
      f := Judge(View(), now);
    }
  }

  // ---- the risk grows with what was heard ----

  lemma ExhaustedFalls(remaining: int, fewer: nat, more: nat)
    requires 0 < fewer <= more && remaining > 0
    ensures Exhausted(remaining, more) <= Exhausted(remaining, fewer)
  {
    QuotientFalls(remaining as real, fewer as real, more as real);
  }

  lemma QuotientFalls(r: real, x: real, y: real)
    requires r > 0.0 && 0.0 < x <= y
    ensures r / y <= r / x
  {
    var a, b := r / x, r / y;
    assert a > 0.0 && a * x == r && b * y == r;
    assert a * y == a * x + a * (y - x) && a * (y - x) >= 0.0;
    assert (a - b) * y >= 0.0;
  }

  lemma DayGrows(remaining: int, limit: int, fewer: nat, more: nat)
    requires limit > 0 && fewer <= more
    ensures DayPressure(remaining, limit, fewer) <= DayPressure(remaining, limit, more)
  {
    hide Exhausted;
    if fewer > 0 && remaining > 0 {
      ExhaustedFalls(remaining, fewer, more);
    }
  }

  lemma MinuteGrows(calls: nat, errors: nat, capacity: nat, moreCalls: nat, moreErrors: nat)
    requires capacity == FREE_MINUTE_CAP || capacity == OTHER_MINUTE_CAP
    requires calls <= moreCalls && errors <= moreErrors
    ensures MinutePressure(calls, errors, capacity) <= MinutePressure(moreCalls, moreErrors, capacity)
  {
  }

  /** More calls, more failures, and heavier refusals never lower the risk. */
  lemma {:induction false} RiskGrows(t: Tracker, now: int, u: Tracker, later: int)
    requires u.remaining == t.remaining && u.limit == t.limit && u.free == t.free
    requires |t.calls| <= |u.calls| && |t.errors| <= |u.errors| && Refused(t.rates, now) <= Refused(u.rates, later)
    ensures RiskOf(t, now) <= RiskOf(u, later)
  {
    hide MinutePressure, DayPressure, Refused;
    MinuteGrows(|t.calls|, |t.errors|, Capacity(t), |u.calls|, |u.errors|);
    if t.limit > 0 {
      DayGrows(t.remaining, t.limit, |t.calls|, |u.calls|);
    }
  }

  lemma {:induction false} RecentConcat(a: seq<int>, b: seq<int>, now: int, window: int)
    ensures Recent(a + b, now, window) == Recent(a, now, window) + Recent(b, now, window)
  {
    if a == [] {
      assert a + b == b;
      assert Recent(a, now, window) + Recent(b, now, window) == Recent(b, now, window);
    } else {
      assert (a + b)[1..] == a[1..] + b;
      RecentConcat(a[1..], b, now, window);
    }
  }

  lemma {:induction false} RefusedConcat(a: seq<int>, b: seq<int>, now: int)
    ensures Refused(a + b, now) == Refused(a, now) + Refused(b, now)
  {
    if a == [] {
      assert a + b == b;
    } else {
      assert (a + b)[1..] == a[1..] + b;
      RefusedConcat(a[1..], b, now);
    }
  }

  lemma {:induction false} RefusalAdds(rates: seq<int>, at: int, now: int)
    ensures Refused(Recent(rates + [at], now, RATE_WINDOW), now) >= Refused(Recent(rates, now, RATE_WINDOW), now)
  {
    RecentConcat(rates, [at], now, RATE_WINDOW);
    RefusedConcat(Recent(rates, now, RATE_WINDOW), Recent([at], now, RATE_WINDOW), now);
    assert Recent([at][1..], now, RATE_WINDOW) == [];
  }

  /** A call, a failure or a refusal more never lowers the forecast, whenever each was. */
  lemma HearingRaisesRisk(t: Tracker, e: Event, now: int)
    requires e.Call? || e.ToolError? || e.RateLimited?
    ensures Risk(Heard(t, e), now) >= Risk(t, now)
  {
    hide RiskOf, Refused, Recent;
    RecentConcat(t.calls, [e.at], now, CALL_WINDOW);
    RecentConcat(t.errors, [e.at], now, ERROR_WINDOW);
    RefusalAdds(t.rates, e.at, now);
    RiskGrows(Trimmed(t, now), now, Trimmed(Heard(t, e), now), now);
  }

  // ---- the risk falls as time passes ----

  lemma {:induction false} RecentShrinks(times: seq<int>, now: int, later: int, window: int)
    requires now <= later
    ensures |Recent(times, later, window)| <= |Recent(times, now, window)|
    ensures Recent(Recent(times, now, window), later, window) == Recent(times, later, window)
  {
    if times != [] {
      RecentShrinks(times[1..], now, later, window);
      if now - times[0] < window {
        assert ([times[0]] + Recent(times[1..], now, window))[1..] == Recent(times[1..], now, window);
      } else {
        assert [] + Recent(times[1..], now, window) == Recent(times[1..], now, window);
        assert [] + Recent(times[1..], later, window) == Recent(times[1..], later, window);
      }
    }
  }

  lemma {:induction false} RefusedRecentFirst(times: seq<int>, now: int)
    requires times != []
    ensures var rest := Recent(times[1..], now, RATE_WINDOW);
            Refused(Recent(times, now, RATE_WINDOW), now) ==
            (if now - times[0] < RATE_WINDOW then 0.5 * Fade(times[0], now) else 0.0) + Refused(rest, now)
  {
    var rest := Recent(times[1..], now, RATE_WINDOW);
    assert [] + rest == rest;
    assert ([times[0]] + rest)[1..] == rest;
  }

  lemma {:induction false} RefusedFades(times: seq<int>, now: int, later: int)
    requires now <= later
    ensures Refused(Recent(times, later, RATE_WINDOW), later) <= Refused(Recent(times, now, RATE_WINDOW), now)
  {
    if times != [] {
      RefusedFades(times[1..], now, later);
      RefusedRecentFirst(times, now);
      RefusedRecentFirst(times, later);
    }
  }

  /** With nothing new, the forecast never rises. */
  lemma TimeLowersRisk(t: Tracker, now: int, later: int)
    requires now <= later
    ensures Risk(t, later) <= Risk(t, now)
  {
    hide RiskOf, Refused, Recent;
    RecentShrinks(t.calls, now, later, CALL_WINDOW);
    RecentShrinks(t.errors, now, later, ERROR_WINDOW);
    RefusedFades(t.rates, now, later);
    RiskGrows(Trimmed(t, later), later, Trimmed(t, now), now);
  }

  // ---- forgetting loses nothing ----

  function After(t: Tracker, events: seq<Event>): Tracker
    decreases |events|
  {
    if events == [] then t else After(Heard(t, events[0]), events[1..])
  }

  /** The same run without any forecast, so with nothing ever trimmed. */
  function Unforecast(events: seq<Event>): seq<Event> {
    if events == [] then [] else (if events[0].Forecasted? then [] else [events[0]]) + Unforecast(events[1..])
  }

  ghost predicate SameFrom(t: Tracker, u: Tracker, now: int) { Trimmed(t, now) == Trimmed(u, now) }

  lemma TrimmedTwice(t: Tracker, at: int, now: int)
    requires at <= now
    ensures SameFrom(Trimmed(t, at), t, now)
  {
    hide Recent;
    RecentShrinks(t.calls, at, now, CALL_WINDOW);
    RecentShrinks(t.errors, at, now, ERROR_WINDOW);
    RecentShrinks(t.rates, at, now, RATE_WINDOW);
  }

  lemma HeardSame(t: Tracker, u: Tracker, e: Event, now: int)
    requires SameFrom(t, u, now) && !e.Forecasted?
    ensures SameFrom(Heard(t, e), Heard(u, e), now)
  {
    hide Recent;
    if e.Call? || e.ToolError? || e.RateLimited? {
      RecentConcat(t.calls, [e.at], now, CALL_WINDOW);
      RecentConcat(u.calls, [e.at], now, CALL_WINDOW);
      RecentConcat(t.errors, [e.at], now, ERROR_WINDOW);
      RecentConcat(u.errors, [e.at], now, ERROR_WINDOW);
      RecentConcat(t.rates, [e.at], now, RATE_WINDOW);
      RecentConcat(u.rates, [e.at], now, RATE_WINDOW);
    }
  }

  lemma {:induction false} RunsAgree(t: Tracker, u: Tracker, events: seq<Event>, now: int)
    requires SameFrom(t, u, now)
    requires forall i :: 0 <= i < |events| && events[i].Forecasted? ==> events[i].at <= now
    ensures SameFrom(After(t, events), After(u, Unforecast(events)), now)
    decreases |events|
  {
    hide SameFrom, Heard;
    if events != [] {
      var e, rest := events[0], events[1..];
      if e.Forecasted? {
        ForecastedSame(t, e.at, now);
        SameTrans(Heard(t, e), t, u, now);
        assert [] + Unforecast(rest) == Unforecast(rest);
        RunsAgree(Heard(t, e), u, rest, now);
      } else {
        HeardSame(t, u, e, now);
        RunsAgree(Heard(t, e), Heard(u, e), rest, now);
        assert ([e] + Unforecast(rest))[1..] == Unforecast(rest);
      }
    }
  }

  lemma ForecastedSame(t: Tracker, at: int, now: int)
    requires at <= now
    ensures SameFrom(Heard(t, Forecasted(at)), t, now)
  {
    hide SameFrom;
    TrimmedTwice(t, at, now);
  }

  lemma SameTrans(t: Tracker, u: Tracker, v: Tracker, now: int)
    requires SameFrom(t, u, now) && SameFrom(u, v, now)
    ensures SameFrom(t, v, now)
  {
  }

  /** Forecasts made on the way, each trimming what it no longer counts, never change a later one: in
      every run it is the forecast of a tracker that was never trimmed before. */
  lemma {:induction false} ForecastsChangeNothing(t: Tracker, events: seq<Event>, now: int)
    requires forall i :: 0 <= i < |events| && events[i].Forecasted? ==> events[i].at <= now
    ensures Trimmed(After(t, events), now) == Trimmed(After(t, Unforecast(events)), now)
    ensures Risk(After(t, events), now) == Risk(After(t, Unforecast(events)), now)
  {
    hide RiskOf;
    RunsAgree(t, t, events, now);
  }
}
