/** Pickup dates: what the shop offers and what the service accepts at the same instant. */
module Pickup {
  import opened Wrappers
  import opened Calendar

  const NEXT_DAY_ORDER_CUTOFF_HOUR := 14
  const AMAP_ALTERNATION_DAYS := 14

  /** An absent anchor is the empty text. */
  datatype Point = Point(name: string, schedule: string, weekdays: seq<int>, anchor: string, active: bool)

  /** The text that names a point on both sides. */
  function PointText(p: Point): string {
    p.name + " - " + p.schedule
  }

  /** The rule of a point, on day numbers. */
  predicate AllowsDay(p: Point, n: int) {
    && Weekday(n) in p.weekdays
    && (p.anchor == "" ||
        (ParseDate(p.anchor).Some? && (n - DayNumber(ParseDate(p.anchor).value)) % AMAP_ALTERNATION_DAYS == 0))
  }

  predicate IsPickupDateAllowed(p: Point, d: Date)
    requires IsDate(d)
  {
    AllowsDay(p, DayNumber(d))
  }

  function AddDays(d: Date, days: nat): (r: Date)
    requires IsDate(d)
    ensures IsDate(r)
  {
    if days == 0 then d else NextDay(AddDays(d, days - 1))
  }

  /** Orders for the next day close at two in the afternoon. */
  function EarliestOrderDate(today: Date, hour: nat): (r: Date)
    requires IsDate(today)
    ensures IsDate(r)
  {
    AddDays(today, if hour < NEXT_DAY_ORDER_CUTOFF_HOUR then 1 else 2)
  }

  // ---------------------------------------------------------------- the service

  datatype SlotError = InvalidPlace | DateMissing | InvalidDate | DateIsPast | SameDay | TooLate | NotAPickupDay

  function FindPoint(points: seq<Point>, value: string, n: nat): (r: Option<nat>)
    requires n <= |points|
    ensures r.Some? ==> r.value < n && PointText(points[r.value]) == value
    ensures r.None? ==> forall i :: 0 <= i < n ==> PointText(points[i]) != value
    decreases n
  {
    if n == 0 then None
    else
      var earlier := FindPoint(points, value, n - 1);
      if earlier.Some? then earlier else if PointText(points[n - 1]) == value then Some(n - 1) else None
  }

  predicate IsOrderDateAllowed(date: string, today: Date, hour: nat)
    requires IsDate(today) && today.year >= 0
  {
    var requested := ParseDate(date);
    var earliest := ParseDate(ServiceText(EarliestAfter(today, hour)));
    requested.Some? && earliest.Some? && DayNumber(requested.value) >= DayNumber(earliest.value)
  }

  function EarliestAfter(today: Date, hour: nat): (r: Date)
    requires IsDate(today) && today.year >= 0
    ensures IsDate(r) && r.year >= today.year && r == EarliestOrderDate(today, hour)
    ensures DayNumber(today) < DayNumber(r)
  {
    NextDayIsOneLater(today);
    NextDayIsOneLater(NextDay(today));
    assert AddDays(today, 1) == NextDay(today) && AddDays(today, 2) == NextDay(NextDay(today));
    EarliestOrderDate(today, hour)
  }

  /** An absent date is the empty text. */
  function ValidatePickupSlot(place: string, date: string, points: seq<Point>, today: Date, hour: nat)
    : Result<(), SlotError>
    requires IsDate(today) && today.year >= 0
  {
    var point := FindPoint(points, place, |points|);
    if point.None? || !points[point.value].active then Err(InvalidPlace)
    else if date == "" then Err(DateMissing)
    else
      var d := ParseDate(date);
      if d.None? then Err(InvalidDate)
      else if DayNumber(d.value) < DayNumber(today) then Err(DateIsPast)
      else if DayNumber(d.value) == DayNumber(today) then Err(SameDay)
      else if !IsOrderDateAllowed(date, today, hour) then Err(TooLate)
      else if !IsPickupDateAllowed(points[point.value], d.value) then Err(NotAPickupDay)
      else Ok(())
  }

  /** Points are told apart by their texts. */
  predicate AreDistinct(points: seq<Point>) {
    forall i, j :: 0 <= i < j < |points| ==> PointText(points[i]) != PointText(points[j])
  }

  lemma PointIsFound(points: seq<Point>, p: Point)
    requires AreDistinct(points) && p in points
    ensures var r := FindPoint(points, PointText(p), |points|);
            r.Some? && points[r.value] == p
  {
    var i :| 0 <= i < |points| && points[i] == p;
    var r := FindPoint(points, PointText(p), |points|);
    assert PointText(points[i]) == PointText(p);
  }

  /** What the service accepts for a point, in one condition. */
  lemma AcceptanceCondition(p: Point, date: string, points: seq<Point>, today: Date, hour: nat)
    requires IsDate(today) && 100 <= today.year && AreDistinct(points) && p in points && p.active
    ensures var earliest := EarliestAfter(today, hour);
            ValidatePickupSlot(PointText(p), date, points, today, hour).Ok? <==>
              && ParseDate(date).Some?
              && earliest.year <= 9999
              && DayNumber(earliest) <= DayNumber(ParseDate(date).value)
              && IsPickupDateAllowed(p, ParseDate(date).value)
  {
    PointIsFound(points, p);
    var earliest := EarliestAfter(today, hour);
    TextsReadBack(earliest);
    assert ParseDate("").None?;
  }

  /** Until two in the afternoon the next day may be ordered for, then the day after it. */
  lemma EarliestIsExact(today: Date, hour: nat)
    requires IsDate(today) && today.year >= 0
    ensures DayNumber(EarliestOrderDate(today, hour)) == DayNumber(today) + if hour < 14 then 1 else 2
  {
    NextDayIsOneLater(today);
    NextDayIsOneLater(NextDay(today));
    assert AddDays(today, 1) == NextDay(today) && AddDays(today, 2) == NextDay(NextDay(today));
  }

  /** The first thing the service finds wrong with a request. */
  lemma RefusalsAreExact(p: Point, date: string, points: seq<Point>, today: Date, hour: nat)
    requires IsDate(today) && 100 <= today.year && AreDistinct(points) && p in points
    requires EarliestOrderDate(today, hour).year <= 9999
    ensures var r := ValidatePickupSlot(PointText(p), date, points, today, hour);
            var day := ParseDate(date);
            var lead := if hour < 14 then 1 else 2;
            r ==
            if !p.active then Err(InvalidPlace)
            else if date == "" then Err(DateMissing)
            else if day.None? then Err(InvalidDate)
            else if DayNumber(day.value) < DayNumber(today) then Err(DateIsPast)
            else if DayNumber(day.value) == DayNumber(today) then Err(SameDay)
            else if DayNumber(day.value) < DayNumber(today) + lead then Err(TooLate)
            else if !IsPickupDateAllowed(p, day.value) then Err(NotAPickupDay)
            else Ok(())
  {
    PointIsFound(points, p);
    EarliestIsExact(today, hour);
    TextsReadBack(EarliestAfter(today, hour));
  }

  lemma UnknownPlaceIsRefused(place: string, date: string, points: seq<Point>, today: Date, hour: nat)
    requires IsDate(today) && today.year >= 0 && forall p :: p in points ==> PointText(p) != place
    ensures ValidatePickupSlot(place, date, points, today, hour) == Err(InvalidPlace)
  {
  }

  // ---------------------------------------------------------------- when a point has dates

  /** A point has dates when it allows a weekday and, if it alternates, when its anchor is readable and falls on such a
      weekday. */
  predicate HasDates(p: Point) {
    if p.anchor == "" then exists w :: w in p.weekdays && 0 <= w < 7
    else ParseDate(p.anchor).Some? && Weekday(DayNumber(ParseDate(p.anchor).value)) in p.weekdays
  }

  lemma WeekdaysRepeat(n: int, m: int)
    requires (m - n) % 14 == 0
    ensures Weekday(n) == Weekday(m)
  {
    var k := (m - n) / 14;
    assert m + 4 == n + 4 + 7 * (2 * k);
    SameRemainder(n + 4, 2 * k);
  }

  lemma {:induction false} SameRemainder(a: int, k: int)
    ensures (a + 7 * k) % 7 == a % 7
    decreases if k < 0 then -k else k
  {
    if k > 0 {
      SameRemainder(a, k - 1);
    } else if k < 0 {
      SameRemainder(a, k + 1);
    }
  }

  /** Without an anchor some weekday comes up within a week. */
  lemma WeekdayComes(n: int, w: int) returns (m: int)
    requires 0 <= w < 7
    ensures n <= m < n + 7 && Weekday(m) == w
  {
    var k, q := (w - (n + 4)) % 7, (w - (n + 4)) / 7;
    m := n + k;
    assert m + 4 == w + 7 * -q;
    SameRemainder(w, -q);
  }

  /** With an anchor its own weekday comes up, in step, within a fortnight. */
  lemma AnchorComes(n: int, a: int) returns (m: int)
    ensures n <= m < n + 14 && (m - a) % 14 == 0 && Weekday(m) == Weekday(a)
  {
    var k, q := (a - n) % 14, (a - n) / 14;
    m := n + k;
    assert m - a == 14 * -q;
    WeekdaysRepeat(m, a);
  }

  /** The exact condition: a point without it never has a date, a point with it has one in any fourteen days. */
  lemma DatesExistExactly(p: Point, n: int)
    ensures HasDates(p) ==> exists m :: n <= m < n + 14 && AllowsDay(p, m)
    ensures !HasDates(p) ==> !AllowsDay(p, n)
  {
    if HasDates(p) {
      var m;
      if p.anchor == "" {
        var w :| w in p.weekdays && 0 <= w < 7;
        m := WeekdayComes(n, w);
      } else {
        m := AnchorComes(n, DayNumber(ParseDate(p.anchor).value));
      }
      assert AllowsDay(p, m);
    } else if p.anchor != "" && AllowsDay(p, n) {
      WeekdaysRepeat(DayNumber(ParseDate(p.anchor).value), n);
    }
  }

  // ---------------------------------------------------------------- the shop

  /** The first allowed day from `n` on. */
  ghost function NextAllowed(p: Point, n: int): (m: int)
    requires HasDates(p)
    ensures n <= m < n + 14 && AllowsDay(p, m)
    ensures forall i :: n <= i < m ==> !AllowsDay(p, i)
  {
    DatesExistExactly(p, n);
    FirstAllowed(p, n, n + 14)
  }

  ghost function FirstAllowed(p: Point, n: int, end: int): (m: int)
    requires exists i :: n <= i < end && AllowsDay(p, i)
    ensures n <= m < end && AllowsDay(p, m)
    ensures forall i :: n <= i < m ==> !AllowsDay(p, i)
    decreases end - n
  {
    if AllowsDay(p, n) then n else FirstAllowed(p, n + 1, end)
  }

  /** Days to wait for it. */
  ghost function Wait(p: Point, d: Date): nat
    requires IsDate(d)
  {
    if HasDates(p) then NextAllowed(p, DayNumber(d)) - DayNumber(d) else 0
  }

  lemma WaitShrinks(p: Point, d: Date)
    requires IsDate(d) && HasDates(p) && !IsPickupDateAllowed(p, d)
    ensures Wait(p, NextDay(d)) < Wait(p, d)
  {
    NextDayIsOneLater(d);
    var n := DayNumber(d);
    assert !AllowsDay(p, n) && AllowsDay(p, NextAllowed(p, n)) && AllowsDay(p, NextAllowed(p, n + 1));
  }

  /** The first `count` allowed dates from `d` on. */
  ghost function Offered(p: Point, d: Date, count: nat): (r: seq<Date>)
    requires IsDate(d) && (HasDates(p) || count == 0)
    ensures |r| == count
    ensures forall i :: 0 <= i < |r| ==> IsDate(r[i]) && r[i].year >= d.year
    decreases count, Wait(p, d)
  {
    if count == 0 then []
    else if IsPickupDateAllowed(p, d) then [d] + Offered(p, NextDay(d), count - 1)
    else
      WaitShrinks(p, d);
      Offered(p, NextDay(d), count)
  }

  ghost function Texts(dates: seq<Date>): seq<string>
    requires forall i :: 0 <= i < |dates| ==> IsDate(dates[i]) && dates[i].year >= 0
  {
    seq(|dates|, i requires 0 <= i < |dates| => ShopText(dates[i]))
  }

  /** A run of dates from `d` on: in order and allowed. */
  ghost predicate AreAllowed(p: Point, d: Date, dates: seq<Date>)
    requires IsDate(d) && forall i :: 0 <= i < |dates| ==> IsDate(dates[i])
  {
    && (forall i :: 0 <= i < |dates| ==> DayNumber(d) <= DayNumber(dates[i]) && IsPickupDateAllowed(p, dates[i]))
    && (forall i, j :: 0 <= i < j < |dates| ==> DayNumber(dates[i]) < DayNumber(dates[j]))
  }

  lemma {:induction false} OfferedAreAllowed(p: Point, d: Date, count: nat)
    requires IsDate(d) && (HasDates(p) || count == 0)
    ensures AreAllowed(p, d, Offered(p, d, count))
    decreases count, Wait(p, d)
  {
    if count > 0 {
      NextDayIsOneLater(d);
      if IsPickupDateAllowed(p, d) {
        OfferedAreAllowed(p, NextDay(d), count - 1);
        ConsAreAllowed(p, d, Offered(p, NextDay(d), count - 1));
      } else {
        WaitShrinks(p, d);
        OfferedAreAllowed(p, NextDay(d), count);
      }
    }
  }

  lemma ConsAreAllowed(p: Point, d: Date, rest: seq<Date>)
    requires IsDate(d) && IsPickupDateAllowed(p, d) && forall i :: 0 <= i < |rest| ==> IsDate(rest[i])
    requires AreAllowed(p, NextDay(d), rest)
    ensures AreAllowed(p, d, [d] + rest)
  {
    NextDayIsOneLater(d);
    var r := [d] + rest;
    forall i, j | 0 <= i < j < |r| ensures DayNumber(r[i]) < DayNumber(r[j]) {
      assert r[j] == rest[j - 1];
    }
  }

  /** No allowed date is left out before the last one offered. */
  lemma {:induction false} NoneIsSkipped(p: Point, d: Date, count: nat, e: Date)
    requires IsDate(d) && HasDates(p) && count > 0 && IsDate(e) && IsPickupDateAllowed(p, e)
    requires DayNumber(d) <= DayNumber(e) <= DayNumber(Offered(p, d, count)[count - 1])
    ensures e in Offered(p, d, count)
    decreases count, Wait(p, d)
  {
    EarlierHasSmallerNumber(d, e);
    if d != e {
      NextDayIsOneLater(d);
      if IsPickupDateAllowed(p, d) {
        if count > 1 {
          NoneIsSkipped(p, NextDay(d), count - 1, e);
        }
      } else {
        WaitShrinks(p, d);
        NoneIsSkipped(p, NextDay(d), count, e);
      }
    }
  }

  ghost function OfferedTexts(p: Point, d: Date, count: nat): seq<string>
    requires IsDate(d) && d.year >= 0 && (HasDates(p) || count == 0)
  {
    Texts(Offered(p, d, count))
  }

  lemma OneMoreText(p: Point, d: Date, count: nat)
    requires IsDate(d) && d.year >= 0 && HasDates(p) && count > 0
    ensures NextDay(d).year >= d.year
    ensures OfferedTexts(p, d, count)
            == if IsPickupDateAllowed(p, d) then [ShopText(d)] + OfferedTexts(p, NextDay(d), count - 1)
               else OfferedTexts(p, NextDay(d), count)
  {
    if IsPickupDateAllowed(p, d) {
      TextsOfCons(d, Offered(p, NextDay(d), count - 1));
    }
  }

  lemma TextsOfCons(d: Date, rest: seq<Date>)
    requires IsDate(d) && d.year >= 0 && forall i :: 0 <= i < |rest| ==> IsDate(rest[i]) && rest[i].year >= 0
    ensures Texts([d] + rest) == [ShopText(d)] + Texts(rest)
  {
  }

  method GetNextPickupDates(p: Point, count: nat, today: Date, hour: nat) returns (dates: seq<string>)
    requires IsDate(today) && 100 <= today.year
    requires HasDates(p) || count == 0
    ensures var d := EarliestAfter(today, hour);
            dates == if d.year <= 9999 then OfferedTexts(p, d, count) else []
  {
    dates := [];
    var d := EarliestAfter(today, hour);
    TextsReadBack(d);
    var earliest := ParseDate(ServiceText(d));
    if earliest.None? {
      return;
    }
    dates := CollectDates(p, count, earliest.value);
  }

  /** The texts collected so far, and those still to come from the cursor on. */
  ghost predicate Collected(all: seq<string>, dates: seq<string>, p: Point, cursor: Date, left: nat) {
    && IsDate(cursor) && cursor.year >= 100 && (HasDates(p) || left == 0)
    && all == dates + OfferedTexts(p, cursor, left)
  }

  lemma CollectedAll(all: seq<string>, dates: seq<string>, p: Point, cursor: Date)
    requires Collected(all, dates, p, cursor, 0)
    ensures dates == all
  {
    assert all == dates + OfferedTexts(p, cursor, 0);
  }

  lemma CollectsOne(all: seq<string>, dates: seq<string>, p: Point, cursor: Date, left: nat)
    requires Collected(all, dates, p, cursor, left) && left > 0 && IsPickupDateAllowed(p, cursor)
    ensures Collected(all, dates + [ShopText(cursor)], p, NextDay(cursor), left - 1)
  {
    assert all == dates + OfferedTexts(p, cursor, left);
    OneMoreText(p, cursor, left);
    Regroup(dates, [ShopText(cursor)], OfferedTexts(p, NextDay(cursor), left - 1));
  }

  lemma Regroup(a: seq<string>, b: seq<string>, c: seq<string>)
    ensures a + (b + c) == a + b + c
  {
  }

  lemma CollectsNone(all: seq<string>, dates: seq<string>, p: Point, cursor: Date, left: nat)
    requires Collected(all, dates, p, cursor, left) && left > 0 && !IsPickupDateAllowed(p, cursor)
    ensures Collected(all, dates, p, NextDay(cursor), left) && Wait(p, NextDay(cursor)) < Wait(p, cursor)
  {
    assert all == dates + OfferedTexts(p, cursor, left);
    OneMoreText(p, cursor, left);
    WaitShrinks(p, cursor);
  }

  method CollectDates(p: Point, count: nat, earliest: Date) returns (dates: seq<string>)
    requires IsDate(earliest) && 100 <= earliest.year && (HasDates(p) || count == 0)
    ensures dates == OfferedTexts(p, earliest, count)
  {
    dates := [];
    var cursor := earliest;
    ghost var all := OfferedTexts(p, earliest, count);
    ghost var wait := Wait(p, cursor);
    while |dates| < count
      invariant |dates| <= count
      invariant Collected(all, dates, p, cursor, count - |dates|)
      invariant wait == Wait(p, cursor)
      decreases count - |dates|, wait
    {
      if IsPickupDateAllowed(p, cursor) {
        CollectsOne(all, dates, p, cursor, count - |dates|);
        dates := dates + [ShopText(cursor)];
      } else {
        CollectsNone(all, dates, p, cursor, count - |dates|);
      }
      cursor := NextDay(cursor);
      wait := Wait(p, cursor);
    }
    CollectedAll(all, dates, p, cursor);
  }

  // ---------------------------------------------------------------- both sides together

  /** Of the dates the shop offers, the service accepts exactly those a four-digit year can write. */
  lemma OfferedAreAccepted(p: Point, points: seq<Point>, today: Date, hour: nat, count: nat, i: nat)
    requires IsDate(today) && 1000 <= today.year && AreDistinct(points) && p in points && p.active
    requires HasDates(p) && i < count && EarliestAfter(today, hour).year <= 9999
    ensures var d := Offered(p, EarliestAfter(today, hour), count)[i];
            && d.year >= 1000
            && (ValidatePickupSlot(PointText(p), ShopText(d), points, today, hour).Ok? <==> d.year <= 9999)
  {
    var earliest := EarliestAfter(today, hour);
    OfferedAreAllowed(p, earliest, count);
    var d := Offered(p, earliest, count)[i];
    TextsReadBack(d);
    AcceptanceCondition(p, ShopText(d), points, today, hour);
  }

  /** And the offered dates are the earliest ones: whatever text the service accepts carries an offered date, or one
      later than all of them. */
  lemma AcceptedAreOffered(p: Point, points: seq<Point>, today: Date, hour: nat, count: nat, date: string)
    requires IsDate(today) && 1000 <= today.year && AreDistinct(points) && p in points && p.active
    requires HasDates(p) && count > 0
    requires ValidatePickupSlot(PointText(p), date, points, today, hour).Ok?
    ensures var offered := Offered(p, EarliestAfter(today, hour), count);
            && ParseDate(date).Some?
            && (ParseDate(date).value in offered
                || DayNumber(offered[count - 1]) < DayNumber(ParseDate(date).value))
  {
    AcceptanceCondition(p, date, points, today, hour);
    var earliest := EarliestAfter(today, hour);
    if DayNumber(ParseDate(date).value) <= DayNumber(Offered(p, earliest, count)[count - 1]) {
      NoneIsSkipped(p, earliest, count, ParseDate(date).value);
    }
  }
}
