/** The upcoming-updates calendar of components/dashboards/UpdateCalendar.tsx:
    the events built from fixed publication dates and from the next
    weekdays, their ordering, the colour and icon lookups, the first-eight
    selection and the relative-day label.

    Dates are calendar dates from 1970 on, counted as days since
    1970-01-01 (a Thursday). The clock `dayjs()` is the parameter `now`:
    a date and the seconds since its local midnight. Every date string of
    the source is the `YYYY-MM-DD` text of a date, and `dayjs(date)` is the
    midnight that starts it. */
module UpdateCalendar {
  import opened Common

  // ---------------------------------------------------------------------
  // The calendar

  datatype Date = Date(year: int, month: int, day: int)

  predicate IsLeap(y: int) {
    y % 4 == 0 && (y % 100 != 0 || y % 400 == 0)
  }

  function MonthLength(y: int, m: int): int {
    if m == 2 then (if IsLeap(y) then 29 else 28)
    else if m == 4 || m == 6 || m == 9 || m == 11 then 30
    else 31
  }

  function YearLength(y: int): int {
    if IsLeap(y) then 366 else 365
  }

  predicate ValidDate(d: Date) {
    1970 <= d.year && 1 <= d.month <= 12 && 1 <= d.day <= MonthLength(d.year, d.month)
  }

  type CalendarDate = d: Date | ValidDate(d) witness Date(1970, 1, 1)

  type SecondOfDay = s: int | 0 <= s < 86400

  /** The instant `dayjs()` reads: a date and the seconds elapsed since its
      midnight. */
  datatype Instant = Instant(date: CalendarDate, secs: SecondOfDay)

  /** Leap years before `y`. */
  function LeapsBefore(y: int): int {
    (y - 1) / 4 - (y - 1) / 100 + (y - 1) / 400
  }

  function DaysBeforeYear(y: int): int {
    365 * (y - 1970) + LeapsBefore(y) - 477
  }

  function DaysBeforeMonth(y: int, m: int): int {
    (if m <= 1 then 0 else if m == 2 then 31 else if m == 3 then 59 else if m == 4 then 90
     else if m == 5 then 120 else if m == 6 then 151 else if m == 7 then 181 else if m == 8 then 212
     else if m == 9 then 243 else if m == 10 then 273 else if m == 11 then 304 else 334)
    + (if m > 2 && IsLeap(y) then 1 else 0)
  }

  /** Days since 1970-01-01. */
  function DayNumber(d: Date): int {
    DaysBeforeYear(d.year) + DaysBeforeMonth(d.year, d.month) + d.day - 1
  }

  /** `day()`: 0 for Sunday up to 6 for Saturday. */
  function Weekday(d: Date): int {
    (DayNumber(d) + 4) % 7
  }

  predicate IsWeekday(d: Date) {
    1 <= Weekday(d) <= 5
  }

  /** The calendar date after `d`. */
  function NextDate(d: CalendarDate): CalendarDate {
    if d.day < MonthLength(d.year, d.month) then Date(d.year, d.month, d.day + 1)
    else if d.month < 12 then Date(d.year, d.month + 1, 1)
    else Date(d.year + 1, 1, 1)
  }

  /** `add(n, 'day')`. */
  function AddDays(d: CalendarDate, n: nat): CalendarDate {
    if n == 0 then d else NextDate(AddDays(d, n - 1))
  }

  lemma DivStep4(y: int)
    ensures y / 4 - (y - 1) / 4 == if y % 4 == 0 then 1 else 0
  {
  }

  lemma DivStep100(y: int)
    ensures y / 100 - (y - 1) / 100 == if y % 100 == 0 then 1 else 0
  {
  }

  lemma DivStep400(y: int)
    ensures y / 400 - (y - 1) / 400 == if y % 400 == 0 then 1 else 0
  {
  }

  lemma Divides400(y: int)
    requires y % 400 == 0
    ensures y % 100 == 0
  {
    var q := y / 400;
    assert y == 100 * (4 * q);
  }

  lemma Divides100(y: int)
    requires y % 100 == 0
    ensures y % 4 == 0
  {
    var q := y / 100;
    assert y == 4 * (25 * q);
  }

  /** One year holds YearLength(y) days. */
  lemma YearStep(y: int)
    ensures DaysBeforeYear(y + 1) == DaysBeforeYear(y) + YearLength(y)
  {
    DivStep4(y);
    DivStep100(y);
    DivStep400(y);
    if y % 400 == 0 {
      Divides400(y);
    }
    if y % 100 == 0 {
      Divides100(y);
    }
    assert LeapsBefore(y + 1) - LeapsBefore(y) == if IsLeap(y) then 1 else 0;
  }

  /** Consecutive dates have consecutive day numbers. */
  lemma NextDateNumber(d: CalendarDate)
    ensures DayNumber(NextDate(d)) == DayNumber(d) + 1
  {
    if d.day == MonthLength(d.year, d.month) && d.month == 12 {
      YearStep(d.year);
    }
  }

  lemma {:induction false} AddDaysNumber(d: CalendarDate, n: nat)
    ensures DayNumber(AddDays(d, n)) == DayNumber(d) + n
    ensures d.year <= AddDays(d, n).year <= d.year + n
  {
    if n > 0 {
      AddDaysNumber(d, n - 1);
      NextDateNumber(AddDays(d, n - 1));
    }
  }

  // ---------------------------------------------------------------------
  // Date text

  function Digits2(n: nat): (r: string)
    requires n < 100
    ensures |r| == 2
  {
    [Digit(n / 10), Digit(n % 10)]
  }

  /** `YYYY`: the year padded to four digits. */
  function YearText(y: nat): (r: string)
    ensures y < 10000 ==> |r| == 4
  {
    if y < 10000 then [Digit(y / 1000), Digit(y / 100 % 10), Digit(y / 10 % 10), Digit(y % 10)]
    else NatToString(y)
  }

  /** `format('YYYY-MM-DD')`. */
  function DateText(d: CalendarDate): (r: string)
    ensures d.year < 10000 ==> |r| == 10
  {
    YearText(d.year) + "-" + Digits2(d.month) + "-" + Digits2(d.day)
  }

  lemma Digits2Injective(a: nat, b: nat)
    requires a < 100 && b < 100 && Digits2(a) == Digits2(b)
    ensures a == b
  {
    DigitInjective(a / 10, b / 10);
    DigitInjective(a % 10, b % 10);
  }

  lemma FourDigits(a: nat)
    requires a < 10000
    ensures a == 1000 * (a / 1000) + 100 * (a / 100 % 10) + 10 * (a / 10 % 10) + a % 10
  {
    assert a / 10 / 10 == a / 100;
    assert a / 100 / 10 == a / 1000;
    assert a == 10 * (a / 10) + a % 10;
    assert a / 10 == 10 * (a / 100) + a / 10 % 10;
    assert a / 100 == 10 * (a / 1000) + a / 100 % 10;
  }

  lemma YearTextInjective(a: nat, b: nat)
    requires a < 10000 && b < 10000 && YearText(a) == YearText(b)
    ensures a == b
  {
    var ta := YearText(a);
    var tb := YearText(b);
    assert ta[0] == tb[0] && ta[1] == tb[1] && ta[2] == tb[2] && ta[3] == tb[3];
    DigitInjective(a / 1000, b / 1000);
    DigitInjective(a / 100 % 10, b / 100 % 10);
    DigitInjective(a / 10 % 10, b / 10 % 10);
    DigitInjective(a % 10, b % 10);
    FourDigits(a);
    FourDigits(b);
  }

  /** Dates before the year 10000 have distinct texts. */
  lemma DateTextInjective(a: CalendarDate, b: CalendarDate)
    requires a.year < 10000 && b.year < 10000 && DateText(a) == DateText(b)
    ensures a == b
  {
    var ta := DateText(a);
    var tb := DateText(b);
    assert ta[..4] == YearText(a.year) && tb[..4] == YearText(b.year);
    YearTextInjective(a.year, b.year);
    assert ta[5..7] == Digits2(a.month) && tb[5..7] == Digits2(b.month);
    Digits2Injective(a.month, b.month);
    assert ta[8..] == Digits2(a.day) && tb[8..] == Digits2(b.day);
    Digits2Injective(a.day, b.day);
  }

  // ---------------------------------------------------------------------
  // Events

  /** The event families of getUpcomingEvents, each with its id prefix,
      title, type, description and importance. */
  datatype Series = RiksbankRate | ScbGdp | ScbInflation | ScbUnemployment | FedFomc
                  | RiksbankFx | ScbDebt | Eurostat

  /** One UpdateEvent; all its fields follow from its family and date. */
  datatype Event = Event(series: Series, date: CalendarDate)

  function Prefix(s: Series): string {
    match s
    case RiksbankRate => "riksbank"
    case ScbGdp => "scb-gdp"
    case ScbInflation => "scb-inflation"
    case ScbUnemployment => "scb-unemployment"
    case FedFomc => "fed"
    case RiksbankFx => "riksbank-fx"
    case ScbDebt => "scb-debt"
    case Eurostat => "eurostat"
  }

  function Id(e: Event): string {
    Prefix(e.series) + "-" + DateText(e.date)
  }

  function Title(s: Series): string {
    match s
    case RiksbankRate => "Riksbank räntebeslut"
    case ScbGdp => "BNP Q-data (SCB)"
    case ScbInflation => "KPI-data (SCB)"
    case ScbUnemployment => "Arbetslöshetsdata (SCB)"
    case FedFomc => "Fed FOMC-möte"
    case RiksbankFx => "Valutakurser (Riksbank)"
    case ScbDebt => "Skuldsättningsdata (SCB)"
    case Eurostat => "Eurozone BNP (Eurostat)"
  }

  function Description(s: Series): string {
    match s
    case RiksbankRate => "Sveriges centralbank beslutar om reporäntan"
    case ScbGdp => "Kvartalsvis BNP-data från Statistiska centralbyrån"
    case ScbInflation => "Månadsvis konsumentprisindex från SCB"
    case ScbUnemployment => "Månadsvis arbetslöshetsstatistik från SCB"
    case FedFomc => "Federal Reserve räntebeslut (påverkar USD/SEK)"
    case RiksbankFx => "Daglig uppdatering av SEK/EUR, USD/SEK, USD/EUR"
    case ScbDebt => "Kvartalsvis hushållens skuldsättningsgrad"
    case Eurostat => "Eurozonens BNP-data (påverkar EUR/SEK)"
  }

  /** The `type` field. */
  function TypeName(s: Series): string {
    match s
    case RiksbankRate => "riksbank"
    case RiksbankFx => "riksbank"
    case FedFomc => "fed"
    case Eurostat => "eurostat"
    case _ => "scb"
  }

  /** The `importance` field. */
  function Importance(s: Series): string {
    match s
    case RiksbankRate => "high"
    case ScbGdp => "high"
    case Eurostat => "low"
    case _ => "medium"
  }

  /** The fixed publication dates of each family; the FX family has none. */
  function Dates(s: Series): seq<CalendarDate> {
    match s
    case RiksbankRate => [Date(2025, 6, 19), Date(2025, 8, 21), Date(2025, 9, 25), Date(2025, 11, 6), Date(2025, 12, 18)]
    case ScbGdp => [Date(2025, 6, 30), Date(2025, 9, 30), Date(2025, 11, 29)]
    case ScbInflation => [Date(2025, 6, 13), Date(2025, 7, 11), Date(2025, 8, 12), Date(2025, 9, 11), Date(2025, 10, 10)]
    case ScbUnemployment => [Date(2025, 6, 20), Date(2025, 7, 18), Date(2025, 8, 20), Date(2025, 9, 19), Date(2025, 10, 17)]
    case FedFomc => [Date(2025, 6, 18), Date(2025, 7, 30), Date(2025, 9, 17), Date(2025, 11, 5), Date(2025, 12, 17)]
    case RiksbankFx => []
    case ScbDebt => [Date(2025, 6, 15), Date(2025, 9, 15), Date(2025, 12, 15)]
    case Eurostat => [Date(2025, 6, 30), Date(2025, 7, 31), Date(2025, 8, 29), Date(2025, 9, 30)]
  }

  /** `dayjs(date).isAfter(now)`: the date's midnight is later than now. */
  predicate IsAfter(d: CalendarDate, now: Instant) {
    DayNumber(d) * 86400 > DayNumber(now.date) * 86400 + now.secs
  }

  /** A date's midnight is after now exactly when the date is a later day. */
  lemma IsAfterDay(d: CalendarDate, now: Instant)
    ensures IsAfter(d, now) <==> DayNumber(d) > DayNumber(now.date)
  {
  }

  /** The events one `forEach` over a list of dates pushes. */
  function Upcoming(s: Series, dates: seq<CalendarDate>, now: Instant): (r: seq<Event>)
    ensures |r| <= |dates|
  {
    if dates == [] then []
    else Upcoming(s, dates[..|dates| - 1], now)
         + (if IsAfter(dates[|dates| - 1], now) then [Event(s, dates[|dates| - 1])] else [])
  }

  /** An event is pushed exactly when it belongs to the family, its date is
      on the list and that date is after now. */
  lemma {:induction false} UpcomingMembers(s: Series, dates: seq<CalendarDate>, now: Instant, e: Event)
    ensures e in Upcoming(s, dates, now) <==> e.series == s && e.date in dates && IsAfter(e.date, now)
  {
    if dates != [] {
      var init := dates[..|dates| - 1];
      UpcomingMembers(s, init, now, e);
      assert dates == init + [dates[|dates| - 1]];
    }
  }

  lemma {:induction false} UpcomingDistinct(s: Series, dates: seq<CalendarDate>, now: Instant)
    requires Distinct(dates)
    ensures Distinct(Upcoming(s, dates, now))
  {
    if dates != [] {
      var init := dates[..|dates| - 1];
      var last := dates[|dates| - 1];
      assert Distinct(init) by {
        forall i, j | 0 <= i < j < |init| ensures init[i] != init[j] {
          assert init[i] == dates[i] && init[j] == dates[j];
        }
      }
      UpcomingDistinct(s, init, now);
      if IsAfter(last, now) {
        UpcomingMembers(s, init, now, Event(s, last));
        assert last !in init by {
          forall k | 0 <= k < |init| ensures init[k] != last {
            assert init[k] == dates[k];
          }
        }
        DistinctSnoc(Upcoming(s, init, now), Event(s, last));
      }
    }
  }

  lemma FixedDatesDistinct(s: Series)
    ensures Distinct(Dates(s))
  {
  }

  /** The weekday dates among the `n` days after `d`, in order. */
  function WeekdaysIn(d: CalendarDate, n: nat): (r: seq<CalendarDate>)
    ensures |r| <= n
  {
    if n == 0 then []
    else WeekdaysIn(d, n - 1) + (if IsWeekday(AddDays(d, n)) then [AddDays(d, n)] else [])
  }

  /** The loop collecting `nextWeekdays`: for i from 1 to 7, the day `i`
      days after now is kept when its `day()` is 1 to 5. */
  method NextWeekdays(now: Instant) returns (weekdays: seq<CalendarDate>)
    ensures weekdays == WeekdaysIn(now.date, 7)
  {
    weekdays := [];
    for i := 1 to 8
      invariant weekdays == WeekdaysIn(now.date, i - 1)
    {
      var nextDay := AddDays(now.date, i);
      if IsWeekday(nextDay) {
        weekdays := weekdays + [nextDay];
      }
    }
  }

  lemma {:induction false} WeekdaysInShape(d: CalendarDate, n: nat)
    ensures forall k :: 0 <= k < |WeekdaysIn(d, n)| ==> IsWeekday(WeekdaysIn(d, n)[k])
    ensures forall k :: 0 <= k < |WeekdaysIn(d, n)| ==>
      DayNumber(d) < DayNumber(WeekdaysIn(d, n)[k]) <= DayNumber(d) + n
    ensures forall k :: 0 <= k < |WeekdaysIn(d, n)| ==> WeekdaysIn(d, n)[k].year <= d.year + n
    ensures forall i, j :: 0 <= i < j < |WeekdaysIn(d, n)| ==>
      DayNumber(WeekdaysIn(d, n)[i]) < DayNumber(WeekdaysIn(d, n)[j])
  {
    if n > 0 {
      WeekdaysInShape(d, n - 1);
      AddDaysNumber(d, n);
    }
  }

  lemma ModShift(n: int, k: int)
    ensures (n + k) % 7 == (n % 7 + k) % 7
  {
    assert n + k == 7 * (n / 7) + (n % 7 + k);
  }

  lemma WeekdayAfter(d: CalendarDate, k: nat)
    ensures Weekday(AddDays(d, k)) == (Weekday(d) + k) % 7
  {
    AddDaysNumber(d, k);
    ModShift(DayNumber(d) + 4, k);
  }

  function WeekdayFlag(w: int): nat {
    if 1 <= w <= 5 then 1 else 0
  }

  lemma SevenFlags(w: int)
    requires 0 <= w < 7
    ensures WeekdayFlag((w + 1) % 7) + WeekdayFlag((w + 2) % 7) + WeekdayFlag((w + 3) % 7) + WeekdayFlag((w + 4) % 7)
          + WeekdayFlag((w + 5) % 7) + WeekdayFlag((w + 6) % 7) + WeekdayFlag((w + 7) % 7) == 5
  {
    if w == 0 {} else if w == 1 {} else if w == 2 {} else if w == 3 {} else if w == 4 {} else if w == 5 {} else {}
  }

  lemma WeekdaysInStep(d: CalendarDate, n: nat)
    requires n > 0
    ensures |WeekdaysIn(d, n)| == |WeekdaysIn(d, n - 1)| + WeekdayFlag((Weekday(d) + n) % 7)
  {
    WeekdayAfter(d, n);
  }

  /** Any seven consecutive days hold exactly five weekdays. */
  lemma FiveWeekdays(d: CalendarDate)
    ensures |WeekdaysIn(d, 7)| == 5
  {
    WeekdaysInStep(d, 1);
    WeekdaysInStep(d, 2);
    WeekdaysInStep(d, 3);
    WeekdaysInStep(d, 4);
    WeekdaysInStep(d, 5);
    WeekdaysInStep(d, 6);
    WeekdaysInStep(d, 7);
    SevenFlags(Weekday(d));
  }

  function FxEvents(dates: seq<CalendarDate>): (r: seq<Event>)
    ensures |r| == |dates|
    ensures forall k :: 0 <= k < |dates| ==> r[k] == Event(RiksbankFx, dates[k])
  {
    seq(|dates|, k requires 0 <= k < |dates| => Event(RiksbankFx, dates[k]))
  }

  /** The dates of the FX events: the first three weekdays after now. */
  function FxDates(now: Instant): seq<CalendarDate> {
    FirstN(WeekdaysIn(now.date, 7), 3)
  }

  /** The events one family contributes. */
  function Block(s: Series, now: Instant): seq<Event> {
    if s == RiksbankFx then FxEvents(FxDates(now)) else Upcoming(s, Dates(s), now)
  }

  /** Whether getUpcomingEvents has an event of family `s` on date `d`. */
  predicate Scheduled(s: Series, d: CalendarDate, now: Instant) {
    if s == RiksbankFx then d in FxDates(now) else d in Dates(s) && IsAfter(d, now)
  }

  lemma BlockMembers(s: Series, now: Instant, e: Event)
    ensures e in Block(s, now) <==> e.series == s && Scheduled(s, e.date, now)
  {
    if s == RiksbankFx {
      var fx := FxDates(now);
      if e.series == s && e.date in fx {
        var k :| 0 <= k < |fx| && fx[k] == e.date;
        assert FxEvents(fx)[k] == e;
      }
    } else {
      UpcomingMembers(s, Dates(s), now, e);
    }
  }

  lemma BlockDistinct(s: Series, now: Instant)
    ensures Distinct(Block(s, now))
  {
    if s == RiksbankFx {
      WeekdaysInShape(now.date, 7);
      var fx := FxDates(now);
      var es := FxEvents(fx);
      forall i, j | 0 <= i < j < |es| ensures es[i] != es[j] {
        assert DayNumber(fx[i]) < DayNumber(fx[j]);
      }
    } else {
      FixedDatesDistinct(s);
      UpcomingDistinct(s, Dates(s), now);
    }
  }

  /** The families in the order their events are pushed. */
  const ORDER: seq<Series> := [RiksbankRate, ScbGdp, ScbInflation, ScbUnemployment, FedFomc, RiksbankFx, ScbDebt, Eurostat]

  /** The events of the families of `order`, family after family. */
  function Blocks(order: seq<Series>, now: Instant): seq<Event> {
    if order == [] then [] else Blocks(order[..|order| - 1], now) + Block(order[|order| - 1], now)
  }

  lemma BlocksPrefix(order: seq<Series>, k: nat, now: Instant)
    requires k < |order|
    ensures Blocks(order[..k + 1], now) == Blocks(order[..k], now) + Block(order[k], now)
  {
    assert order[..k + 1][..k] == order[..k];
  }

  lemma SnocMembers<T>(init: seq<T>, last: T, x: T)
    ensures x in init + [last] <==> x in init || x == last
  {
  }

  lemma ConcatMembers<T>(a: seq<T>, b: seq<T>, x: T)
    ensures x in a + b <==> x in a || x in b
  {
  }

  lemma {:induction false} BlocksMembers(order: seq<Series>, now: Instant, e: Event)
    ensures e in Blocks(order, now) <==> e.series in order && Scheduled(e.series, e.date, now)
  {
    if order != [] {
      var init := order[..|order| - 1];
      var last := order[|order| - 1];
      assert order == init + [last];
      assert Blocks(order, now) == Blocks(init, now) + Block(last, now);
      SnocMembers(init, last, e.series);
      ConcatMembers(Blocks(init, now), Block(last, now), e);
      BlocksMembers(init, now, e);
      BlockMembers(last, now, e);
      if e.series == last {
        assert Scheduled(e.series, e.date, now) == Scheduled(last, e.date, now);
      }
    }
  }

  lemma {:induction false} BlocksDistinct(order: seq<Series>, now: Instant)
    requires Distinct(order)
    ensures Distinct(Blocks(order, now))
  {
    if order != [] {
      var init := order[..|order| - 1];
      var last := order[|order| - 1];
      assert Distinct(init) by {
        forall i, j | 0 <= i < j < |init| ensures init[i] != init[j] {
          assert init[i] == order[i] && init[j] == order[j];
        }
      }
      BlocksDistinct(init, now);
      BlockDistinct(last, now);
      assert last !in init by {
        forall k | 0 <= k < |init| ensures init[k] != last {
          assert init[k] == order[k];
        }
      }
      forall e | e in Blocks(init, now) ensures e !in Block(last, now) {
        BlockMembers(last, now, e);
        BlocksMembers(init, now, e);
      }
      DistinctConcat(Blocks(init, now), Block(last, now));
    }
  }

  /** The events in the order they are pushed. */
  function UnsortedEvents(now: Instant): seq<Event> {
    Blocks(ORDER, now)
  }

  function EventDay(e: Event): int {
    DayNumber(e.date)
  }

  /** What getUpcomingEvents returns: the pushed events sorted by date; the
      comparator orders by midnight timestamps, that is by day number, and
      the sort is stable. */
  function UpcomingEvents(now: Instant): seq<Event> {
    SortBy(UnsortedEvents(now), EventDay)
  }

  /** One `forEach` over a list of fixed dates: each date after now is
      pushed as an event of family `s`. */
  method PushDates(events: seq<Event>, s: Series, dates: seq<CalendarDate>, now: Instant) returns (r: seq<Event>)
    ensures r == events + Upcoming(s, dates, now)
  {
    r := events;
    for i := 0 to |dates|
      invariant r == events + Upcoming(s, dates[..i], now)
    {
      assert dates[..i + 1][..i] == dates[..i];
      if IsAfter(dates[i], now) {
        r := r + [Event(s, dates[i])];
      }
    }
    assert dates[..|dates|] == dates;
  }

  /** The `forEach` of a family with fixed dates. */
  method PushFixed(events: seq<Event>, s: Series, now: Instant) returns (r: seq<Event>)
    requires s != RiksbankFx
    ensures r == events + Block(s, now)
  {
    r := PushDates(events, s, Dates(s), now);
  }

  /** The FX events: the weekday loop, then a `forEach` over its first three
      dates. */
  method PushFx(events: seq<Event>, now: Instant) returns (r: seq<Event>)
    ensures r == events + Block(RiksbankFx, now)
  {
    var nextWeekdays := NextWeekdays(now);
    var fx := FirstN(nextWeekdays, 3);
    r := events;
    for k := 0 to |fx|
      invariant r == events + FxEvents(fx[..k])
    {
      assert FxEvents(fx[..k + 1]) == FxEvents(fx[..k]) + [Event(RiksbankFx, fx[k])];
      r := r + [Event(RiksbankFx, fx[k])];
    }
    assert fx[..|fx|] == fx;
  }

  /** The `forEach` of the family at position `k` of ORDER. */
  method PushFamily(events: seq<Event>, k: nat, now: Instant) returns (r: seq<Event>)
    requires k < |ORDER| && events == Blocks(ORDER[..k], now)
    ensures r == Blocks(ORDER[..k + 1], now)
  {
    BlocksPrefix(ORDER, k, now);
    if ORDER[k] == RiksbankFx {
      r := PushFx(events, now);
    } else {
      r := PushFixed(events, ORDER[k], now);
    }
  }

  /** getUpcomingEvents(). */
  method GetUpcomingEvents(now: Instant) returns (events: seq<Event>)
    ensures events == UpcomingEvents(now)
  {
    var pushed: seq<Event> := [];
    for k := 0 to |ORDER|
      invariant pushed == Blocks(ORDER[..k], now)
    {
      pushed := PushFamily(pushed, k, now);
    }
    assert ORDER[..|ORDER|] == ORDER;
    events := SortBy(pushed, EventDay);
  }

  /** An event is in the result exactly when getUpcomingEvents pushes it:
      a fixed date after now, or one of the first three weekdays. */
  lemma UpcomingEventsMembers(now: Instant, e: Event)
    ensures e in UpcomingEvents(now) <==> Scheduled(e.series, e.date, now)
  {
    SortByMembers(UnsortedEvents(now), EventDay, e);
    BlocksMembers(ORDER, now, e);
  }

  /** Every event of a fixed list lies on a later day than now. */
  lemma FixedEventsAfterNow(now: Instant, e: Event)
    requires e in UpcomingEvents(now) && e.series != RiksbankFx
    ensures e.date in Dates(e.series) && DayNumber(e.date) > DayNumber(now.date)
  {
    UpcomingEventsMembers(now, e);
  }

  /** There are exactly three FX events, on the first three weekdays after
      today, each one to seven days ahead, in chronological order. */
  lemma FxEventsShape(now: Instant)
    ensures |FxDates(now)| == 3
    ensures forall k :: 0 <= k < 3 ==> IsWeekday(FxDates(now)[k])
    ensures forall k :: 0 <= k < 3 ==> DayNumber(now.date) < DayNumber(FxDates(now)[k]) <= DayNumber(now.date) + 7
    ensures DayNumber(FxDates(now)[0]) < DayNumber(FxDates(now)[1]) < DayNumber(FxDates(now)[2])
  {
    FiveWeekdays(now.date);
    WeekdaysInShape(now.date, 7);
  }

  /** The result is sorted by date. */
  lemma UpcomingSorted(now: Instant)
    ensures forall i, j :: 0 <= i < j < |UpcomingEvents(now)| ==>
      DayNumber(UpcomingEvents(now)[i].date) <= DayNumber(UpcomingEvents(now)[j].date)
  {
    var r := UpcomingEvents(now);
    assert SortedBy(r, EventDay);
    forall i, j | 0 <= i < j < |r| ensures DayNumber(r[i].date) <= DayNumber(r[j].date) {
      assert EventDay(r[i]) <= EventDay(r[j]);
    }
  }

  /** No event occurs twice. */
  lemma UpcomingDistinctEvents(now: Instant)
    ensures Distinct(UpcomingEvents(now))
  {
    OrderDistinct();
    BlocksDistinct(ORDER, now);
    SortedDistinct(UnsortedEvents(now));
  }

  lemma OrderDistinct()
    ensures Distinct(ORDER)
  {
  }

  /** Sorting keeps a sequence free of repeats. */
  lemma SortedDistinct(s: seq<Event>)
    requires Distinct(s)
    ensures Distinct(SortBy(s, EventDay))
  {
    DistinctPermutation(s, SortBy(s, EventDay));
  }

  lemma PrefixInjective(a: Series, b: Series)
    requires Prefix(a) + "-" == Prefix(b) + "-"
    ensures a == b
  {
    assert Prefix(a) == (Prefix(a) + "-")[..|Prefix(a)|];
  }

  /** Two events before the year 10000 with the same id are the same event. */
  lemma IdInjective(a: Event, b: Event)
    requires a.date.year < 10000 && b.date.year < 10000 && Id(a) == Id(b)
    ensures a == b
  {
    var ia := Id(a);
    assert ia == (Prefix(a.series) + "-") + DateText(a.date);
    assert Id(b) == (Prefix(b.series) + "-") + DateText(b.date);
    assert ia[..|ia| - 10] == Prefix(a.series) + "-";
    assert ia[..|ia| - 10] == Prefix(b.series) + "-";
    PrefixInjective(a.series, b.series);
    assert ia[|ia| - 10..] == DateText(a.date) == DateText(b.date);
    DateTextInjective(a.date, b.date);
  }

  lemma YearBelow(now: Instant, e: Event)
    requires now.date.year < 9993 && e in UpcomingEvents(now)
    ensures e.date.year < 10000
  {
    UpcomingEventsMembers(now, e);
    ScheduledYear(e.series, e.date, now);
  }

  lemma ScheduledYear(s: Series, d: CalendarDate, now: Instant)
    requires now.date.year < 9993 && Scheduled(s, d, now)
    ensures d.year < 10000
  {
    if s == RiksbankFx {
      FxDateYear(d, now);
    } else {
      FixedDatesYear(s);
    }
  }

  lemma FxDateYear(d: CalendarDate, now: Instant)
    requires d in FxDates(now)
    ensures d.year <= now.date.year + 7
  {
    var fx := FxDates(now);
    var k :| 0 <= k < |fx| && fx[k] == d;
    WeekdaysInShape(now.date, 7);
  }

  lemma FixedDatesYear(s: Series)
    ensures forall d :: d in Dates(s) ==> d.year == 2025
  {
  }

  /** The event ids are pairwise distinct (for a clock before the year
      9993, so that every date within a week of it has a four-digit year). */
  lemma UpcomingIdsDistinct(now: Instant)
    requires now.date.year < 9993
    ensures forall i, j :: 0 <= i < j < |UpcomingEvents(now)| ==> Id(UpcomingEvents(now)[i]) != Id(UpcomingEvents(now)[j])
  {
    var r := UpcomingEvents(now);
    UpcomingDistinctEvents(now);
    forall i, j | 0 <= i < j < |r| ensures Id(r[i]) != Id(r[j]) {
      YearBelow(now, r[i]);
      YearBelow(now, r[j]);
      if Id(r[i]) == Id(r[j]) {
        IdInjective(r[i], r[j]);
      }
    }
  }

  // ---------------------------------------------------------------------
  // Display

  /** getTypeColor: the badge classes of the four known types, gray for
      anything else. */
  function TypeColor(typeName: string): (r: string)
    ensures r == "bg-gray-100 text-gray-800 border-gray-200" <==>
      typeName != "riksbank" && typeName != "scb" && typeName != "eurostat" && typeName != "fed"
  {
    if typeName == "riksbank" then "bg-blue-100 text-blue-800 border-blue-200"
    else if typeName == "scb" then "bg-green-100 text-green-800 border-green-200"
    else if typeName == "eurostat" then "bg-purple-100 text-purple-800 border-purple-200"
    else if typeName == "fed" then "bg-red-100 text-red-800 border-red-200"
    else "bg-gray-100 text-gray-800 border-gray-200"
  }

  /** getImportanceIcon: red, yellow and green circles for high, medium and
      low, a white circle otherwise. */
  function ImportanceIcon(importance: string): (r: string)
    ensures r == "\U{26AA}" <==> importance != "high" && importance != "medium" && importance != "low"
  {
    if importance == "high" then "\U{1F534}"
    else if importance == "medium" then "\U{1F7E1}"
    else if importance == "low" then "\U{1F7E2}"
    else "\U{26AA}"
  }

  /** The icon of each family: red for the rate decision and GDP, green for
      Eurostat, yellow for the rest; no event shows the fallback icon or
      the gray badge. */
  lemma EventBadges(s: Series)
    ensures ImportanceIcon(Importance(s)) == "\U{1F534}" <==> s == RiksbankRate || s == ScbGdp
    ensures ImportanceIcon(Importance(s)) == "\U{1F7E2}" <==> s == Eurostat
    ensures ImportanceIcon(Importance(s)) != "\U{26AA}"
    ensures TypeColor(TypeName(s)) != "bg-gray-100 text-gray-800 border-gray-200"
  {
  }

  /** `events.slice(0, 8)`. */
  function NextEvents(events: seq<Event>): (r: seq<Event>)
    ensures |r| == if |events| < 8 then |events| else 8
    ensures r == events[..|r|]
  {
    FirstN(events, 8)
  }

  /** The displayed events are the earliest ones: none of the events left
      out comes before a displayed one. */
  lemma ShownAreEarliest(now: Instant)
    ensures var r := UpcomingEvents(now);
      forall i, j :: 0 <= i < |NextEvents(r)| <= j < |r| ==> DayNumber(NextEvents(r)[i].date) <= DayNumber(r[j].date)
  {
    UpcomingSorted(now);
  }

  /** The `t` labels of the relative-day text. */
  datatype Labels = Labels(today: string, tomorrow: string, thisWeek: string, nextWeek: string, daysAway: string)

  function LabelsFor(locale: Locale): Labels {
    if locale == Sv then Labels("Idag", "Imorgon", "Denna vecka", "Nästa vecka", "dagar kvar")
    else Labels("Today", "Tomorrow", "This week", "Next week", "days away")
  }

  /** The buckets of getRelativeTime for a difference of `diffDays`. */
  function Bucket(diffDays: int, t: Labels): (r: string)
    ensures diffDays == 0 ==> r == t.today
    ensures diffDays == 1 ==> r == t.tomorrow
    ensures diffDays <= 7 && diffDays != 0 && diffDays != 1 ==> r == t.thisWeek
    ensures 7 < diffDays <= 14 ==> r == t.nextWeek
    ensures diffDays > 14 ==> r == NatToString(diffDays) + " " + t.daysAway
  {
    if diffDays == 0 then t.today
    else if diffDays == 1 then t.tomorrow
    else if diffDays <= 7 then t.thisWeek
    else if diffDays <= 14 then t.nextWeek
    else NatToString(diffDays) + " " + t.daysAway
  }

  /** Division truncating toward zero, as dayjs's `diff` rounds. */
  function TruncDiv(a: int, b: int): int
    requires b > 0
  {
    if a >= 0 then a / b else -((-a) / b)
  }

  /** `dayjs(date).diff(now, 'day')` as written: whole days between now and
      the event's midnight, truncated toward zero. */
  function DiffDaysAsWritten(d: CalendarDate, now: Instant): int {
    TruncDiv(DayNumber(d) * 86400 - (DayNumber(now.date) * 86400 + now.secs), 86400)
  }

  /** The diff as written is one day short for every future date once the
      current day has begun. */
  lemma DiffDaysAsWrittenValue(d: CalendarDate, now: Instant)
    ensures DiffDaysAsWritten(d, now) ==
      if DayNumber(d) > DayNumber(now.date) && now.secs > 0 then DayNumber(d) - DayNumber(now.date) - 1
      else DayNumber(d) - DayNumber(now.date)
  {
    var n := DayNumber(d) - DayNumber(now.date);
    var a := DayNumber(d) * 86400 - (DayNumber(now.date) * 86400 + now.secs);
    assert a == n * 86400 - now.secs;
    if n > 0 && now.secs > 0 {
      assert (n - 1) * 86400 <= a < n * 86400;
    } else if n > 0 {
      assert a == n * 86400;
    } else {
      assert -a == (-n) * 86400 + now.secs;
    }
  }

  function RelativeTimeAsWritten(d: CalendarDate, now: Instant, locale: Locale): string {
    Bucket(DiffDaysAsWritten(d, now), LabelsFor(locale))
  }

  /** The event of tomorrow is labelled "Today" as written, except at the
      exact stroke of midnight. */
  lemma TomorrowShownAsToday(d: CalendarDate, now: Instant, locale: Locale)
    requires DayNumber(d) == DayNumber(now.date) + 1 && now.secs > 0
    ensures RelativeTimeAsWritten(d, now, locale) == LabelsFor(locale).today
  {
    DiffDaysAsWrittenValue(d, now);
  }

  /** The relative-day label by calendar days, as the labels intend. */
  function RelativeTime(d: CalendarDate, now: Instant, locale: Locale): string {
    Bucket(DayNumber(d) - DayNumber(now.date), LabelsFor(locale))
  }

  /** Counting calendar days, tomorrow's events read "Tomorrow", and no
      displayed event reads "Today", since every event lies after today. */
  lemma RelativeTimeOfEvents(now: Instant, e: Event, locale: Locale)
    requires e in UpcomingEvents(now)
    ensures DayNumber(e.date) == DayNumber(now.date) + 1 ==> RelativeTime(e.date, now, locale) == LabelsFor(locale).tomorrow
    ensures RelativeTime(e.date, now, locale) != LabelsFor(locale).today
  {
    UpcomingEventsMembers(now, e);
    if e.series == RiksbankFx {
      WeekdaysInShape(now.date, 7);
      var fx := FxDates(now);
      var k :| 0 <= k < |fx| && fx[k] == e.date;
    }
    var labels := LabelsFor(locale);
    var diff := DayNumber(e.date) - DayNumber(now.date);
    if diff > 14 {
      assert |NatToString(diff) + " " + labels.daysAway| > |labels.today|;
    }
  }

  /** One row of the calendar. */
  datatype Row = Row(icon: string, title: string, badge: string, badgeClass: string, description: string, relative: string)

  /** `toUpperCase()` on the ASCII type names: each lower-case ASCII letter
      becomes its capital, every other character stays. */
  function AsciiUpper(s: string): (r: string)
    ensures |r| == |s|
    ensures forall k :: 0 <= k < |s| && 'a' <= s[k] <= 'z' ==> r[k] == (s[k] as int - 32) as char
    ensures forall k :: 0 <= k < |s| && !('a' <= s[k] <= 'z') ==> r[k] == s[k]
    ensures forall k :: 0 <= k < |r| ==> !('a' <= r[k] <= 'z')
  {
    seq(|s|, k requires 0 <= k < |s| => if 'a' <= s[k] <= 'z' then (s[k] as int - 32) as char else s[k])
  }

  function RowOf(e: Event, now: Instant, locale: Locale): Row {
    Row(ImportanceIcon(Importance(e.series)), Title(e.series), AsciiUpper(TypeName(e.series)), TypeColor(TypeName(e.series)),
        Description(e.series), RelativeTimeAsWritten(e.date, now, locale))
  }

  /** The badges read RIKSBANK, FED, EUROSTAT and SCB. */
  lemma TypeBadges(s: Series)
    ensures AsciiUpper(TypeName(s)) in {"RIKSBANK", "FED", "EUROSTAT", "SCB"}
    ensures AsciiUpper(TypeName(s)) == "RIKSBANK" <==> s == RiksbankRate || s == RiksbankFx
  {
    UpperOfLower("riksbank", "RIKSBANK");
    UpperOfLower("fed", "FED");
    UpperOfLower("eurostat", "EUROSTAT");
    UpperOfLower("scb", "SCB");
  }

  lemma UpperOfLower(s: string, u: string)
    requires |u| == |s| && forall k :: 0 <= k < |s| ==> 'a' <= s[k] <= 'z' && u[k] == (s[k] as int - 32) as char
    ensures AsciiUpper(s) == u
  {
  }

  /** As rendered, the row of an event due tomorrow reads "Today" once the
      current day has begun. */
  lemma CalendarTomorrowRow(now: Instant, locale: Locale, k: nat)
    requires k < |Calendar(now, locale).0| && now.secs > 0
    requires DayNumber(NextEvents(UpcomingEvents(now))[k].date) == DayNumber(now.date) + 1
    ensures Calendar(now, locale).0[k].relative == LabelsFor(locale).today
  {
    TomorrowShownAsToday(NextEvents(UpcomingEvents(now))[k].date, now, locale);
  }

  /** The rendered calendar: one row for each of the first eight events, in
      date order, labelled by getRelativeTime as written, and the
      empty-state message exactly when there are no events. */
  function Calendar(now: Instant, locale: Locale): (r: (seq<Row>, bool))
    ensures |r.0| == |NextEvents(UpcomingEvents(now))| && (r.1 <==> UpcomingEvents(now) == [])
    ensures forall k :: 0 <= k < |r.0| ==> r.0[k] == RowOf(NextEvents(UpcomingEvents(now))[k], now, locale)
  {
    var shown := NextEvents(UpcomingEvents(now));
    (seq(|shown|, k requires 0 <= k < |shown| => RowOf(shown[k], now, locale)), UpcomingEvents(now) == [])
  }
}
