/**
 The slot checker `slotAvailable`, which Create and Reschedule call, and the slot
 generator `AvailableSlots` (internal/bookings/service.go). Times are seconds; the zone is
 a fixed offset in seconds east of UTC.
 */
module Slots {
  import opened Options
  import opened Windows
  import opened EffectiveWindows
  import opened BookingRows

  const DAY := 86400

  /** One professional's calendar and the service's padding, all in seconds. */
  datatype Calendar = Calendar(weekly: seq<WeeklyWindow>, exceptions: seq<DayException>,
                               rows: map<BookingId, Row>, pro: ProId,
                               zone: int, padding: Padding)

  datatype Slot = Slot(start: int, end: int)

  datatype SlotError = InvalidDate

  function LocalDay(t: int, zone: int): int {
    (t + zone) / DAY
  }

  function MinutesOfDay(t: int, zone: int): int {
    (t + zone) % DAY / 60
  }

  function MinutesToTime(day: int, minutes: int, zone: int): int {
    day * DAY + minutes * 60 - zone
  }

  /** Some window of the day holds the two minutes, as the checker compares them. */
  ghost predicate FitsSome(ws: multiset<Window>, slotStart: int, slotEnd: int) {
    exists w :: w in ws && w.start <= slotStart && slotEnd <= w.end
  }

  ghost function WindowsOf(cal: Calendar, day: int): multiset<Window> {
    multiset(DayWindows(cal.weekly, cal.exceptions, day))
  }

  ghost predicate SlotFree(cal: Calendar, start: int, end: int, exclude: Option<BookingId>) {
    && !HasOverlap(cal.rows, cal.pro, start, end, exclude)
    && FitsSome(WindowsOf(cal, LocalDay(start, cal.zone)),
                MinutesOfDay(start, cal.zone), MinutesOfDay(end, cal.zone))
  }

  /** `slotAvailable`. */
  method SlotAvailable(cal: Calendar, start: int, end: int, exclude: Option<BookingId>) returns (ok: bool)
    ensures ok <==> SlotFree(cal, start, end, exclude)
  {
    if HasOverlap(cal.rows, cal.pro, start, end, exclude) {
      return false;
    }
    var windows := ListEffectiveWindows(cal.weekly, cal.exceptions, LocalDay(start, cal.zone));
    var slotStart, slotEnd := MinutesOfDay(start, cal.zone), MinutesOfDay(end, cal.zone);
    for i := 0 to |windows|
      invariant forall j :: 0 <= j < i ==> !(windows[j].start <= slotStart && slotEnd <= windows[j].end)
    {
      if slotStart >= windows[i].start && slotEnd <= windows[i].end {
        assert windows[i] in multiset(windows);
        return true;
      }
    }
    forall w | w in multiset(windows) ensures !(w.start <= slotStart && slotEnd <= w.end) {
      assert w in windows;
    }
    return false;
  }

  // ----- the generator -----

  function GridMinute(w: Window, step: int, k: int): int {
    w.start + k * step
  }

  function SlotAt(day: int, m: int, duration: int, zone: int): Slot {
    Slot(MinutesToTime(day, m, zone), MinutesToTime(day, m, zone) + duration * 60)
  }

  /** No active booking meets the slot and the buffer after it. */
  predicate Unbooked(cal: Calendar, slot: Slot) {
    !HasOverlap(cal.rows, cal.pro, slot.start, slot.end + cal.padding.buffer, None)
  }

  /** The start minute m of window w is worth offering: it fits with the buffer, is not past, is free. */
  predicate Offered(cal: Calendar, day: int, duration: int, now: int, w: Window, m: int) {
    var slot := SlotAt(day, m, duration, cal.zone);
    && m + duration + cal.padding.buffer / 60 <= w.end
    && slot.start >= now
    && Unbooked(cal, slot)
  }

  lemma MulMonotone(a: int, b: int, c: int)
    requires a <= b && c >= 0
    ensures a * c <= b * c
  {}

  /** Slot s is the k-th start of window w, and worth offering. */
  ghost predicate OfferedAs(cal: Calendar, day: int, duration: int, step: int, now: int,
                            w: Window, k: int, s: Slot) {
    && 0 <= k && Offered(cal, day, duration, now, w, GridMinute(w, step, k))
    && s == SlotAt(day, GridMinute(w, step, k), duration, cal.zone)
  }

  /** The offered slots of window w from minute m on, in order. */
  function SlotsFrom(cal: Calendar, day: int, duration: int, step: int, now: int, w: Window, m: int): seq<Slot>
    requires duration > 0 && step > 0
    decreases w.end - m
  {
    if m + duration + cal.padding.buffer / 60 > w.end then []
    else if Offered(cal, day, duration, now, w, m) then
      [SlotAt(day, m, duration, cal.zone)] + SlotsFrom(cal, day, duration, step, now, w, m + step)
    else SlotsFrom(cal, day, duration, step, now, w, m + step)
  }

  /** The offered slots of the first k windows, window by window. */
  function SlotsOf(cal: Calendar, day: int, duration: int, step: int, now: int, ws: seq<Window>, k: nat): seq<Slot>
    requires duration > 0 && step > 0 && k <= |ws|
  {
    if k == 0 then []
    else SlotsOf(cal, day, duration, step, now, ws, k - 1)
         + SlotsFrom(cal, day, duration, step, now, ws[k - 1], ws[k - 1].start)
  }

  /** The slots come window by window, in some order of the day's windows by their starts. */
  ghost predicate InWindowOrder(cal: Calendar, day: int, duration: int, step: int, now: int,
                                slots: seq<Slot>, ws: seq<Window>)
    requires duration > 0 && step > 0
  {
    && SortedByStart(ws) && multiset(ws) == WindowsOf(cal, day)
    && slots == SlotsOf(cal, day, duration, step, now, ws, |ws|)
  }

  /** Exactly the starts from the n-th on that are worth offering. */
  lemma {:induction false} SlotsFromExact(cal: Calendar, day: int, duration: int, step: int, now: int, w: Window, n: nat)
    requires duration > 0 && step > 0
    ensures forall s ::
      s in SlotsFrom(cal, day, duration, step, now, w, GridMinute(w, step, n)) <==>
        exists k :: n <= k && OfferedAs(cal, day, duration, step, now, w, k, s)
    decreases w.end - GridMinute(w, step, n)
  {
    var m := GridMinute(w, step, n);
    if m + duration + cal.padding.buffer / 60 > w.end {
      forall k | n <= k ensures !Offered(cal, day, duration, now, w, GridMinute(w, step, k)) {
        MulMonotone(n, k, step);
      }
    } else {
      assert GridMinute(w, step, n + 1) == m + step;
      SlotsFromExact(cal, day, duration, step, now, w, n + 1);
      forall s
        ensures s in SlotsFrom(cal, day, duration, step, now, w, m)
          <==> OfferedAs(cal, day, duration, step, now, w, n, s)
               || s in SlotsFrom(cal, day, duration, step, now, w, m + step)
      {}
    }
  }

  method WindowSlots(cal: Calendar, day: int, duration: int, step: int, now: int, w: Window)
    returns (slots: seq<Slot>)
    requires duration > 0 && step > 0
    ensures slots == SlotsFrom(cal, day, duration, step, now, w, w.start)
    ensures forall s :: s in slots <==> exists k :: OfferedAs(cal, day, duration, step, now, w, k, s)
  {
    slots := [];
    var m, bufferMin := w.start, cal.padding.buffer / 60;
    while m + duration + bufferMin <= w.end
      invariant slots + SlotsFrom(cal, day, duration, step, now, w, m)
             == SlotsFrom(cal, day, duration, step, now, w, w.start)
      decreases w.end - m
    {
      var start := MinutesToTime(day, m, cal.zone);
      var end := start + duration * 60;
      ghost var before, rest := slots, SlotsFrom(cal, day, duration, step, now, w, m + step);
      if !(start < now) && !HasOverlap(cal.rows, cal.pro, start, end + cal.padding.buffer, None) {
        slots := slots + [Slot(start, end)];
        assert slots + rest == before + ([Slot(start, end)] + rest);
      }
      m := m + step;
    }
    assert slots == SlotsFrom(cal, day, duration, step, now, w, w.start);
    assert GridMinute(w, step, 0) == w.start;
    SlotsFromExact(cal, day, duration, step, now, w, 0);
  }

  /**
   `AvailableSlots`; a date that does not parse is None, and a duration or step that is not positive
   means an hour or half an hour. Exactly the offered starts come back, in window order.
   */
  method AvailableSlots(cal: Calendar, date: Option<int>, inDuration: int, inStep: int, now: int)
    returns (r: Result<seq<Slot>, SlotError>)
    ensures r.Failure? <==> date.None?
    ensures var duration, step := if inDuration <= 0 then 60 else inDuration, if inStep <= 0 then 30 else inStep;
      r.Success? ==>
        && (forall s :: s in r.value <==>
              exists w, k :: w in WindowsOf(cal, date.value) && OfferedAs(cal, date.value, duration, step, now, w, k, s))
        && (exists ws :: InWindowOrder(cal, date.value, duration, step, now, r.value, ws))
  {
    if date.None? {
      return Failure(InvalidDate);
    }
    var day, duration, step := date.value, inDuration, inStep;
    if duration <= 0 { duration := 60; }
    if step <= 0 { step := 30; }
    var windows := ListEffectiveWindows(cal.weekly, cal.exceptions, day);
    var slots: seq<Slot> := [];
    for i := 0 to |windows|
      invariant forall s :: s in slots <==>
                  exists j, k :: 0 <= j < i && OfferedAs(cal, day, duration, step, now, windows[j], k, s)
      invariant slots == SlotsOf(cal, day, duration, step, now, windows, i)
    {
      var more := WindowSlots(cal, day, duration, step, now, windows[i]);
      slots := slots + more;
    }
    forall s
      ensures s in slots <==> exists w, k :: w in WindowsOf(cal, day)
                                && OfferedAs(cal, day, duration, step, now, w, k, s)
    {
      if w, k :| w in WindowsOf(cal, day) && OfferedAs(cal, day, duration, step, now, w, k, s) {
        assert w in multiset(windows);
        var j :| 0 <= j < |windows| && windows[j] == w;
        assert OfferedAs(cal, day, duration, step, now, windows[j], k, s);
      }
      if j, k :| 0 <= j < |windows| && OfferedAs(cal, day, duration, step, now, windows[j], k, s) {
        assert windows[j] in multiset(windows);
      }
    }
    assert InWindowOrder(cal, day, duration, step, now, slots, windows);
    r := Success(slots);
  }

  // ----- calendar arithmetic -----

  lemma DivModUnique(a: int, q: int, r: int, d: int)
    requires d > 0 && 0 <= r < d && a == q * d + r
    ensures a / d == q && a % d == r
  {
    var q', r' := a / d, a % d;
    assert a == q' * d + r';
    if q' > q { MulMonotone(q + 1, q', d); }
    if q' < q { MulMonotone(q' + 1, q, d); }
  }

  /** The local clock is the time plus the zone's offset, in days and minutes of the day. */
  lemma ClockReads(t: int, zone: int)
    ensures LocalDay(t, zone) * 1440 + MinutesOfDay(t, zone) == (t + zone) / 60
    ensures 0 <= MinutesOfDay(t, zone) < 1440
  {
    var x := t + zone;
    assert x == x / DAY * DAY + x % DAY;
    DivModUnique(x, x / DAY * 1440 + x % DAY / 60, x % DAY % 60, 60);
  }

  /** Where the clock stands a number of minutes, and seconds of a minute, into a local day. */
  lemma ClockAt(day: int, m: int, s: int, zone: int)
    requires 0 <= m < 1440 && 0 <= s < 60
    ensures var t := MinutesToTime(day, m, zone) + s;
            LocalDay(t, zone) == day && MinutesOfDay(t, zone) == m
  {
    var t := MinutesToTime(day, m, zone) + s;
    DivModUnique(t + zone, day, m * 60 + s, DAY);
    DivModUnique(m * 60 + s, m, s, 60);
  }

  /** Minutes beyond the day count into the days around it. */
  lemma ClockAnywhere(day: int, m: int, s: int, zone: int)
    requires 0 <= s < 60
    ensures LocalDay(MinutesToTime(day, m, zone) + s, zone) == day + m / 1440
    ensures MinutesOfDay(MinutesToTime(day, m, zone) + s, zone) == m % 1440
  {
    ClockAt(day + m / 1440, m % 1440, s, zone);
    assert MinutesToTime(day, m, zone) == MinutesToTime(day + m / 1440, m % 1440, zone);
  }

  // ----- generator and checker -----

  /** The slot check Create makes for an in-shop booking of this length starting at minute m. */
  ghost predicate CreateFindsFree(cal: Calendar, slot: Slot) {
    var bounds := CheckBounds(slot.start, slot.end, false, cal.padding);
    SlotFree(cal, bounds.0, bounds.1, None)
  }

  /** Create refuses starts more than five minutes ago. */
  predicate StartPast(start: int, now: int) {
    start < now - 300
  }

  /** The checker looks at the windows of the day the start falls on and takes both minutes modulo the day. */
  ghost predicate FitsWrapped(cal: Calendar, day: int, duration: int, m: int) {
    FitsSome(WindowsOf(cal, day + m / 1440), m % 1440, (m + duration + cal.padding.buffer / 60) % 1440)
  }

  /** The checker's verdict on the in-shop booking that starts m minutes from the day's midnight. */
  lemma CheckerAt(cal: Calendar, day: int, duration: int, m: int)
    ensures CreateFindsFree(cal, SlotAt(day, m, duration, cal.zone))
       <==> Unbooked(cal, SlotAt(day, m, duration, cal.zone)) && FitsWrapped(cal, day, duration, m)
  {
    var slot := SlotAt(day, m, duration, cal.zone);
    var endMinute := m + duration + cal.padding.buffer / 60;
    ClockAnywhere(day, m, 0, cal.zone);
    ClockAnywhere(day, endMinute, cal.padding.buffer % 60, cal.zone);
    assert slot.end + cal.padding.buffer == MinutesToTime(day, endMinute, cal.zone) + cal.padding.buffer % 60;
  }

  /** Every slot offered for a start on the requested day passes Create's in-shop checks then. */
  lemma OfferedPassesCreate(cal: Calendar, day: int, duration: int, now: int, w: Window, m: int)
    requires w in WindowsOf(cal, day) && w.start <= m && 0 < duration
    requires Offered(cal, day, duration, now, w, m)
    requires 0 <= m < 1440
    ensures !StartPast(SlotAt(day, m, duration, cal.zone).start, now)
    ensures CreateFindsFree(cal, SlotAt(day, m, duration, cal.zone))
  {
    CheckerAt(cal, day, duration, m);
    assert (m + duration + cal.padding.buffer / 60) % 1440 <= m + duration + cal.padding.buffer / 60;
  }

  /** A start over before midnight passes Create exactly when some window of the day would offer it. */
  lemma AcceptedIffOffered(cal: Calendar, day: int, duration: int, now: int, m: int)
    requires 0 <= m && 0 < duration && m + duration + cal.padding.buffer / 60 < 1440
    requires SlotAt(day, m, duration, cal.zone).start >= now
    ensures CreateFindsFree(cal, SlotAt(day, m, duration, cal.zone))
       <==> exists w :: w in WindowsOf(cal, day) && w.start <= m && Offered(cal, day, duration, now, w, m)
  {
    CheckerAt(cal, day, duration, m);
    var endMinute := m + duration + cal.padding.buffer / 60;
    var ws := WindowsOf(cal, day);
    assert FitsWrapped(cal, day, duration, m) <==> FitsSome(ws, m, endMinute) by {
      assert m / 1440 == 0 && m % 1440 == m && endMinute % 1440 == endMinute;
    }
    if w :| w in ws && w.start <= m && Offered(cal, day, duration, now, w, m) {
      assert FitsSome(ws, m, endMinute);
    }
    if CreateFindsFree(cal, SlotAt(day, m, duration, cal.zone)) {
      var w :| w in ws && w.start <= m && endMinute <= w.end;
      assert Offered(cal, day, duration, now, w, m);
    }
  }

  /** Some window of the day makes the generator offer the start minute at this time. */
  ghost predicate OfferedAt(cal: Calendar, day: int, duration: int, now: int, m: int) {
    exists w :: w in WindowsOf(cal, day) && w.start <= m && Offered(cal, day, duration, now, w, m)
  }

  /**
   The generator offers no start that has passed; Create accepts starts up to five minutes past,
   exactly those that would have been offered when they began.
   */
  lemma PastStartsIff(cal: Calendar, day: int, duration: int, now: int, m: int)
    requires 0 <= m && 0 < duration && m + duration + cal.padding.buffer / 60 < 1440
    ensures var slot := SlotAt(day, m, duration, cal.zone);
      && (OfferedAt(cal, day, duration, now, m) <==> now <= slot.start && OfferedAt(cal, day, duration, slot.start, m))
      && (!StartPast(slot.start, now) && CreateFindsFree(cal, slot) <==>
            now - 300 <= slot.start && OfferedAt(cal, day, duration, slot.start, m))
  {
    var slot := SlotAt(day, m, duration, cal.zone);
    AcceptedIffOffered(cal, day, duration, slot.start, m);
    if w :| w in WindowsOf(cal, day) && w.start <= m && Offered(cal, day, duration, now, w, m) {
      assert Offered(cal, day, duration, slot.start, w, m);
    }
    if now <= slot.start && OfferedAt(cal, day, duration, slot.start, m) {
      var w :| w in WindowsOf(cal, day) && w.start <= m && Offered(cal, day, duration, slot.start, w, m);
      assert Offered(cal, day, duration, now, w, m);
    }
  }

  ghost predicate WithinDay(ws: multiset<Window>) {
    forall w :: w in ws ==> 0 <= w.start && w.end <= 1440
  }

  /** With windows inside the day, everything the generator returns passes Create. */
  lemma GeneratedPassesCreate(cal: Calendar, day: int, duration: int, step: int, now: int,
                              w: Window, k: nat, s: Slot)
    requires WithinDay(WindowsOf(cal, day)) && 0 < duration && 0 < step
    requires w in WindowsOf(cal, day) && OfferedAs(cal, day, duration, step, now, w, k, s)
    ensures !StartPast(s.start, now) && CreateFindsFree(cal, s)
  {
    MulMonotone(0, k, step);
    OfferedPassesCreate(cal, day, duration, now, w, GridMinute(w, step, k));
  }

  /** Whatever the calendar and the time, Create accepts the slot it offers for the start minute. */
  ghost predicate OfferedMeansAccepted(day: int, duration: int, m: int, zone: int, padding: Padding) {
    forall cal: Calendar, w, now ::
      cal.zone == zone && cal.padding == padding && w in WindowsOf(cal, day) && w.start <= m
      && Offered(cal, day, duration, now, w, m) ==>
        CreateFindsFree(cal, SlotAt(day, m, duration, zone))
  }

  /** A calendar whose only window is an extra one on the day. */
  function OnlyExtra(day: int, w: Window, zone: int, padding: Padding): Calendar {
    Calendar([], [DayException(day, true, Some(w.start), Some(w.end))], map[], 0, zone, padding)
  }

  lemma OnlyExtraWindows(day: int, w: Window, zone: int, padding: Padding, other: int)
    ensures WindowsOf(OnlyExtra(day, w, zone, padding), other) == if other == day then multiset{w} else multiset{}
  {
    var es := OnlyExtra(day, w, zone, padding).exceptions;
    assert InPlaceDay([], es, other, 1) == ApplyInPlace(InPlaceDay([], es, other, 0), es[0], other);
    assert DayWindows([], es, other) == if other == day then [w] else [];
  }

  /** An extra window outside the day: its slot is offered, and Create, looking at another day, refuses it. */
  lemma OutsideTheDayRefused(day: int, duration: int, m: int, zone: int, padding: Padding, w: Window)
    requires !(0 <= m < 1440) && 0 < duration && w == Window(m, m + duration + padding.buffer / 60)
    ensures var cal := OnlyExtra(day, w, zone, padding);
      && w in WindowsOf(cal, day)
      && Offered(cal, day, duration, MinutesToTime(day, m, zone), w, m)
      && !CreateFindsFree(cal, SlotAt(day, m, duration, zone))
  {
    var cal := OnlyExtra(day, w, zone, padding);
    OnlyExtraWindows(day, w, zone, padding, day);
    OnlyExtraWindows(day, w, zone, padding, day + m / 1440);
    CheckerAt(cal, day, duration, m);
  }

  /** An offered start is accepted on every calendar exactly when it lies on the requested day. */
  lemma OfferedAcceptedIffOnDay(day: int, duration: int, m: int, zone: int, padding: Padding)
    requires 0 < duration
    ensures OfferedMeansAccepted(day, duration, m, zone, padding) <==> 0 <= m < 1440
  {
    if 0 <= m < 1440 {
      forall cal: Calendar, w, now |
        cal.zone == zone && cal.padding == padding && w in WindowsOf(cal, day) && w.start <= m
        && Offered(cal, day, duration, now, w, m)
        ensures CreateFindsFree(cal, SlotAt(day, m, duration, zone))
      {
        OfferedPassesCreate(cal, day, duration, now, w, m);
      }
    } else {
      OutsideTheDayRefused(day, duration, m, zone, padding, Window(m, m + duration + padding.buffer / 60));
    }
  }

  // ----- what acceptance means -----

  /** The clock minutes from start's midnight; unlike the checker's it does not wrap. */
  function MinutesFrom(day: int, t: int, zone: int): int {
    (t + zone - day * DAY) / 60
  }

  /** One window of start's local day holds the whole interval. */
  ghost predicate Contained(ws: multiset<Window>, start: int, end: int, zone: int) {
    var day := LocalDay(start, zone);
    exists w :: w in ws && w.start <= MinutesFrom(day, start, zone) && MinutesFrom(day, end, zone) <= w.end
  }

  lemma SameDayMinutes(t: int, zone: int)
    ensures MinutesFrom(LocalDay(t, zone), t, zone) == MinutesOfDay(t, zone)
  {
    assert t + zone == (t + zone) / DAY * DAY + (t + zone) % DAY;
  }

  /** Within one local day acceptance is containment, and no active booking meets the interval. */
  lemma AcceptedWithinDay(cal: Calendar, start: int, end: int, exclude: Option<BookingId>)
    requires LocalDay(start, cal.zone) == LocalDay(end, cal.zone)
    ensures SlotFree(cal, start, end, exclude)
       <==> && Contained(WindowsOf(cal, LocalDay(start, cal.zone)), start, end, cal.zone)
            && forall id :: id in cal.rows && Blocks(cal.rows[id], cal.pro, start, end) ==> exclude == Some(id)
  {
    SameDayMinutes(start, cal.zone);
    SameDayMinutes(end, cal.zone);
  }

  lemma MinuteInside(start: int, t: int, end: int, zone: int)
    requires LocalDay(start, zone) == LocalDay(end, zone)
    requires start <= t && (t + zone) / 60 < (end + zone) / 60
    ensures LocalDay(t, zone) == LocalDay(start, zone)
    ensures MinutesOfDay(start, zone) <= MinutesOfDay(t, zone) < MinutesOfDay(end, zone)
  {
    var day := LocalDay(start, zone);
    DivModUnique(t + zone, day, t + zone - day * DAY, DAY);
    forall x {:trigger x % DAY} ensures x % DAY / 60 == x / 60 - x / DAY * 1440 {
      assert x == x / DAY * DAY + x % DAY;
    }
  }

  /** So each clock minute before the one an accepted interval ends in is open in the day's windows. */
  lemma AcceptedMinutesCovered(cal: Calendar, start: int, end: int, exclude: Option<BookingId>, t: int)
    requires LocalDay(start, cal.zone) == LocalDay(end, cal.zone)
    requires SlotFree(cal, start, end, exclude)
    requires start <= t && (t + cal.zone) / 60 < (end + cal.zone) / 60
    ensures CoveredBy(DayWindows(cal.weekly, cal.exceptions, LocalDay(t, cal.zone)), MinutesOfDay(t, cal.zone))
    ensures OpenOn(cal.weekly, cal.exceptions, LocalDay(t, cal.zone), MinutesOfDay(t, cal.zone))
  {
    MinuteInside(start, t, end, cal.zone);
    var ws := DayWindows(cal.weekly, cal.exceptions, LocalDay(t, cal.zone));
    var w: Window :| w in multiset(ws) && w.start <= MinutesOfDay(start, cal.zone) && MinutesOfDay(end, cal.zone) <= w.end;
    assert Covers(w, MinutesOfDay(t, cal.zone)) && w in ws;
    DayWindowsSound(cal.weekly, cal.exceptions, LocalDay(t, cal.zone), MinutesOfDay(t, cal.zone));
  }

  /**
   For an interval, "passing the window test means contained, whatever the day's windows" holds
   exactly when it ends on the local day it starts on: past midnight the end minute wraps.
   */
  lemma WindowTestSoundIffSameDay(start: int, end: int, zone: int)
    requires start <= end
    ensures (forall ws :: WithinDay(ws) && FitsSome(ws, MinutesOfDay(start, zone), MinutesOfDay(end, zone))
                      ==> Contained(ws, start, end, zone))
       <==> LocalDay(end, zone) == LocalDay(start, zone)
  {
    SameDayMinutes(start, zone);
    SameDayMinutes(end, zone);
    var day := LocalDay(start, zone);
    if LocalDay(end, zone) != day {
      assert LocalDay(end, zone) >= day + 1;
      assert MinutesFrom(day, end, zone) >= 1440;
      var ws := multiset{Window(0, 1439)};
      assert WithinDay(ws) && Window(0, 1439) in ws;
      assert FitsSome(ws, MinutesOfDay(start, zone), MinutesOfDay(end, zone));
      assert !Contained(ws, start, end, zone);
    }
  }
}
