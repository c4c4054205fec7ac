/**
 * The market-hours rule of the National Stock Exchange of India as the
 * dashboard applies it: sessions run from 09:15:00 to 15:30:00 local time
 * (Asia/Kolkata), Monday to Friday, with no holiday calendar.
 *
 * The clock is not read here: the caller passes the current local moment.
 */
module MarketClock {

  const SecondsPerDay := 86_400
  const MicrosPerSecond := 1_000_000

  /** 09:15:00 and 15:30:00 as seconds after midnight. */
  const OpenTime := 9 * 3600 + 15 * 60
  const CloseTime := 15 * 3600 + 30 * 60

  /** Weekdays are numbered Monday = 0 ... Sunday = 6, as Python's `weekday()`. */
  predicate IsTradingDay(weekday: int) {
    0 <= weekday < 5
  }

  /** A local wall-clock reading: weekday, whole seconds after midnight, microseconds. */
  datatype Moment = Moment(weekday: int, second: int, micro: int) {

    predicate Valid() {
      0 <= weekday < 7 && 0 <= second < SecondsPerDay && 0 <= micro < MicrosPerSecond
    }

    /** The same day with hour, minute and second replaced; the microseconds are kept. */
    function Replace(hour: int, minute: int, sec: int): Moment {
      Moment(weekday, hour * 3600 + minute * 60 + sec, micro)
    }

    /** Position within the day, in microseconds: the order in which two moments of one day compare. */
    function Micros(): int {
      second * MicrosPerSecond + micro
    }
  }

  /**
   * What the market check reports. Every closed state carries how many days
   * ahead the next session opens (at 09:15); the returned flag of the source
   * is `Open?` and the message text is not modelled.
   */
  datatype Status =
    | Open
    | ClosedWeekend(daysAhead: nat)
    | ClosedAfterHours(daysAhead: nat)
    | ClosedBeforeOpen
  {
    function DaysToOpening(): nat {
      match this
      case Open => 0
      case ClosedWeekend(d) => d
      case ClosedAfterHours(d) => d
      case ClosedBeforeOpen => 0
    }
  }

  /** The session `d` days after `now` opens later than `now`. */
  predicate OpensAfter(now: Moment, d: nat) {
    IsTradingDay((now.weekday + d) % 7) && (d > 0 || now.second < OpenTime)
  }

  /**
   * The market check. The four outcomes are tried in the source's order:
   * weekend, after the close, before the open, open.
   */
  function CheckMarket(now: Moment): (r: Status)
    requires now.Valid()
    ensures r.Open? <==> IsTradingDay(now.weekday) && OpenTime <= now.second <= CloseTime
    ensures r.ClosedWeekend? <==> now.weekday >= 5
    ensures r.ClosedAfterHours? <==> IsTradingDay(now.weekday) && now.second > CloseTime
    ensures r.ClosedBeforeOpen? <==> IsTradingDay(now.weekday) && now.second < OpenTime
    ensures r.ClosedWeekend? ==> r.daysAhead == 7 - now.weekday && (now.weekday + r.daysAhead) % 7 == 0
    ensures r.ClosedAfterHours? ==> r.daysAhead == if now.weekday == 4 then 3 else 1
    ensures !r.Open? ==> OpensAfter(now, r.DaysToOpening())
    ensures !r.Open? ==> forall d: nat :: d < r.DaysToOpening() ==> !OpensAfter(now, d)
  {
    var marketStart := now.Replace(9, 15, 0);
    var marketEnd := now.Replace(15, 30, 0);
    if now.weekday >= 5 then
      ClosedWeekend((7 - now.weekday) % 7)
    else if now.Micros() > marketEnd.Micros() then
      var nextDay := (now.weekday + 1) % 7;
      ClosedAfterHours(if nextDay >= 5 then 1 + (7 - nextDay) % 7 else 1)
    else if now.Micros() < marketStart.Micros() then
      ClosedBeforeOpen
    else
      Open
  }

  /** The check never looks below whole seconds: moments that differ only in microseconds get the same answer. */
  lemma MicrosecondsIrrelevant(a: Moment, b: Moment)
    requires a.Valid() && b.Valid()
    requires a.weekday == b.weekday && a.second == b.second
    ensures CheckMarket(a) == CheckMarket(b)
  {
  }
}
