/**
 The windows of one day: the weekly windows of its weekday with the exceptions of that
 date applied in order (internal/bookings/service.go, `effectiveWindows`). Days count from
 1970-01-01, a Thursday; weekday 0 is Sunday.
 */
module EffectiveWindows {
  import opened Options
  import opened Windows

  datatype WeeklyWindow = WeeklyWindow(dayOfWeek: int, startMinutes: int, endMinutes: int)

  datatype DayException = DayException(date: int, isAvailable: bool,
                                       startMinutes: Option<int>, endMinutes: Option<int>)

  function Weekday(day: int): int {
    (day + 4) % 7
  }

  /** The first day is a Thursday, and the weekdays follow one another round. */
  lemma WeekdaysFollow(day: int)
    ensures Weekday(0) == 4
    ensures 0 <= Weekday(day) < 7
    ensures Weekday(day + 1) == if Weekday(day) == 6 then 0 else Weekday(day) + 1
  {}

  /** A missing bound means the start or the end of the day. */
  function Range(e: DayException): Window {
    Window(e.startMinutes.GetOr(0), e.endMinutes.GetOr(1440))
  }

  function WeeklyUpTo(weekly: seq<WeeklyWindow>, day: int, k: nat): seq<Window>
    requires k <= |weekly|
  {
    if k == 0 then []
    else if weekly[k - 1].dayOfWeek == Weekday(day) then
      WeeklyUpTo(weekly, day, k - 1) + [Window(weekly[k - 1].startMinutes, weekly[k - 1].endMinutes)]
    else WeeklyUpTo(weekly, day, k - 1)
  }

  /** One exception applied with the shared-buffer subtraction, as the code does. */
  function ApplyInPlace(ws: seq<Window>, e: DayException, day: int): seq<Window> {
    if e.date != day then ws
    else if e.isAvailable then ws + [Range(e)]
    else RemoveInPlace(ws, Range(e).start, Range(e).end)
  }

  function ApplyFresh(ws: seq<Window>, e: DayException, day: int): seq<Window> {
    if e.date != day then ws
    else if e.isAvailable then ws + [Range(e)]
    else RemoveFresh(ws, Range(e).start, Range(e).end)
  }

  function InPlaceDay(weekly: seq<WeeklyWindow>, exceptions: seq<DayException>, day: int, k: nat): seq<Window>
    requires k <= |exceptions|
  {
    if k == 0 then WeeklyUpTo(weekly, day, |weekly|)
    else ApplyInPlace(InPlaceDay(weekly, exceptions, day, k - 1), exceptions[k - 1], day)
  }

  function FreshDay(weekly: seq<WeeklyWindow>, exceptions: seq<DayException>, day: int, k: nat): seq<Window>
    requires k <= |exceptions|
  {
    if k == 0 then WeeklyUpTo(weekly, day, |weekly|)
    else ApplyFresh(FreshDay(weekly, exceptions, day, k - 1), exceptions[k - 1], day)
  }

  /** The windows of the day, before sorting. */
  function DayWindows(weekly: seq<WeeklyWindow>, exceptions: seq<DayException>, day: int): seq<Window> {
    InPlaceDay(weekly, exceptions, day, |exceptions|)
  }

  ghost predicate SortedByStart(ws: seq<Window>) {
    forall i, j :: 0 <= i < j < |ws| ==> ws[i].start <= ws[j].start
  }

  // ----- the method -----

  function InsertByStart(sorted: seq<Window>, w: Window): (out: seq<Window>)
    ensures multiset(out) == multiset(sorted) + multiset{w}
  {
    if sorted == [] || w.start <= sorted[0].start then [w] + sorted
    else
      assert sorted == [sorted[0]] + sorted[1..];
      [sorted[0]] + InsertByStart(sorted[1..], w)
  }

  lemma {:induction false} InsertKeepsSorted(sorted: seq<Window>, w: Window, low: int)
    requires SortedByStart(sorted) && low <= w.start
    requires sorted == [] || low <= sorted[0].start
    ensures SortedByStart(InsertByStart(sorted, w)) && low <= InsertByStart(sorted, w)[0].start
  {
    if sorted != [] && sorted[0].start < w.start {
      InsertKeepsSorted(sorted[1..], w, sorted[0].start);
    }
  }

  /** The order `sort.Slice` asks for; windows with equal starts may come in any order. */
  function SortByStart(ws: seq<Window>): (out: seq<Window>)
    ensures SortedByStart(out)
    ensures multiset(out) == multiset(ws)
  {
    if ws == [] then []
    else
      var rest := SortByStart(ws[1..]);
      assert ws == [ws[0]] + ws[1..];
      var w := ws[0];
      InsertKeepsSorted(rest, w, if rest != [] && rest[0].start < w.start then rest[0].start else w.start);
      InsertByStart(rest, w)
  }

  method ListEffectiveWindows(weekly: seq<WeeklyWindow>, exceptions: seq<DayException>, day: int)
    returns (effs: seq<Window>)
    ensures SortedByStart(effs)
    ensures multiset(effs) == multiset(DayWindows(weekly, exceptions, day))
  {
    var buf, n: nat := new Window[0], 0;
    for i := 0 to |weekly|
      invariant fresh(buf) && n <= buf.Length
      invariant buf[..n] == WeeklyUpTo(weekly, day, i)
    {
      if weekly[i].dayOfWeek == Weekday(day) {
        buf, n := Append(buf, n, Window(weekly[i].startMinutes, weekly[i].endMinutes));
      }
    }
    for i := 0 to |exceptions|
      invariant fresh(buf) && n <= buf.Length
      invariant buf[..n] == InPlaceDay(weekly, exceptions, day, i)
    {
      var e := exceptions[i];
      if e.date == day {
        var start := if e.startMinutes.Some? then e.startMinutes.value else 0;
        var end := if e.endMinutes.Some? then e.endMinutes.value else 1440;
        if !e.isAvailable {
          buf, n := RemoveCovered(buf, n, start, end);
        } else {
          buf, n := Append(buf, n, Window(start, end));
        }
      }
    }
    effs := SortByStart(buf[..n]);
  }

  // ----- what the fold means -----

  ghost predicate AppliesTo(e: DayException, day: int, m: int) {
    e.date == day && Covers(Range(e), m)
  }

  ghost predicate WeeklyOpen(weekly: seq<WeeklyWindow>, day: int, m: int) {
    exists i :: 0 <= i < |weekly| && weekly[i].dayOfWeek == Weekday(day)
             && weekly[i].startMinutes <= m < weekly[i].endMinutes
  }

  /** Of the first k exceptions, the one at index i is the last that covers the minute. */
  ghost predicate LastApplying(exceptions: seq<DayException>, day: int, m: int, k: nat, i: int) {
    && 0 <= i < k <= |exceptions| && AppliesTo(exceptions[i], day, m)
    && forall j :: i < j < k ==> !AppliesTo(exceptions[j], day, m)
  }

  /** The last exception covering the minute decides; with none, the weekly windows do. */
  ghost predicate OpenAfter(weekly: seq<WeeklyWindow>, exceptions: seq<DayException>, day: int, m: int, k: nat)
    requires k <= |exceptions|
  {
    || (exists i :: LastApplying(exceptions, day, m, k, i) && exceptions[i].isAvailable)
    || ((forall i :: 0 <= i < k ==> !AppliesTo(exceptions[i], day, m)) && WeeklyOpen(weekly, day, m))
  }

  ghost predicate OpenOn(weekly: seq<WeeklyWindow>, exceptions: seq<DayException>, day: int, m: int) {
    OpenAfter(weekly, exceptions, day, m, |exceptions|)
  }

  lemma {:induction false} WeeklyUpToOpen(weekly: seq<WeeklyWindow>, day: int, m: int, k: nat)
    requires k <= |weekly|
    ensures CoveredBy(WeeklyUpTo(weekly, day, k), m)
       <==> exists i :: 0 <= i < k && weekly[i].dayOfWeek == Weekday(day)
                     && weekly[i].startMinutes <= m < weekly[i].endMinutes
  {
    if k > 0 {
      WeeklyUpToOpen(weekly, day, m, k - 1);
      var w := Window(weekly[k - 1].startMinutes, weekly[k - 1].endMinutes);
      CoveredByConcat(WeeklyUpTo(weekly, day, k - 1), [w], m);
      assert CoveredBy([w], m) <==> Covers([w][0], m);
    }
  }

  /** One more exception: it decides the minutes it covers and leaves the others as they were. */
  lemma OpenAfterStep(weekly: seq<WeeklyWindow>, exceptions: seq<DayException>, day: int, m: int, k: nat)
    requires k < |exceptions|
    ensures OpenAfter(weekly, exceptions, day, m, k + 1)
       <==> if AppliesTo(exceptions[k], day, m) then exceptions[k].isAvailable
            else OpenAfter(weekly, exceptions, day, m, k)
  {
    if AppliesTo(exceptions[k], day, m) {
      assert LastApplying(exceptions, day, m, k + 1, k);
    } else {
      forall i ensures LastApplying(exceptions, day, m, k + 1, i) <==> LastApplying(exceptions, day, m, k, i) {}
    }
  }

  lemma NoExceptionsYet(weekly: seq<WeeklyWindow>, exceptions: seq<DayException>, day: int, m: int)
    ensures CoveredBy(WeeklyUpTo(weekly, day, |weekly|), m) <==> OpenAfter(weekly, exceptions, day, m, 0)
  {
    WeeklyUpToOpen(weekly, day, m, |weekly|);
  }

  lemma ApplyFreshCover(ws: seq<Window>, e: DayException, day: int, m: int)
    ensures CoveredBy(ApplyFresh(ws, e, day), m)
       <==> if AppliesTo(e, day, m) then e.isAvailable else CoveredBy(ws, m)
  {
    if e.date == day && e.isAvailable {
      CoveredByConcat(ws, [Range(e)], m);
      assert CoveredBy([Range(e)], m) <==> Covers([Range(e)][0], m);
    } else if e.date == day {
      RemoveFreshExact(ws, Range(e).start, Range(e).end, m);
    }
  }

  lemma ApplyFreshStep(ws: seq<Window>, weekly: seq<WeeklyWindow>, exceptions: seq<DayException>,
                       day: int, m: int, k: nat)
    requires k < |exceptions|
    requires CoveredBy(ws, m) <==> OpenAfter(weekly, exceptions, day, m, k)
    ensures CoveredBy(ApplyFresh(ws, exceptions[k], day), m) <==> OpenAfter(weekly, exceptions, day, m, k + 1)
  {
    ApplyFreshCover(ws, exceptions[k], day, m);
    OpenAfterStep(weekly, exceptions, day, m, k);
  }

  /** With a fresh output at each subtraction, the last exception covering a minute wins. */
  lemma {:induction false} LastExceptionWins(weekly: seq<WeeklyWindow>, exceptions: seq<DayException>,
                                             day: int, m: int, k: nat)
    requires k <= |exceptions|
    ensures CoveredBy(FreshDay(weekly, exceptions, day, k), m) <==> OpenAfter(weekly, exceptions, day, m, k)
  {
    if k == 0 {
      NoExceptionsYet(weekly, exceptions, day, m);
    } else {
      LastExceptionWins(weekly, exceptions, day, m, k - 1);
      ApplyFreshStep(FreshDay(weekly, exceptions, day, k - 1), weekly, exceptions, day, m, k - 1);
    }
  }

  lemma ApplyInPlaceSound(ws: seq<Window>, e: DayException, day: int, m: int)
    requires CoveredBy(ApplyInPlace(ws, e, day), m)
    ensures if AppliesTo(e, day, m) then e.isAvailable else CoveredBy(ws, m)
  {
    if e.date == day && e.isAvailable {
      CoveredByConcat(ws, [Range(e)], m);
      assert CoveredBy([Range(e)], m) <==> Covers([Range(e)][0], m);
    } else if e.date == day {
      RemoveInPlaceSound(ws, Range(e).start, Range(e).end, m);
    }
  }

  lemma {:induction false} InPlaceDaySound(weekly: seq<WeeklyWindow>, exceptions: seq<DayException>,
                                           day: int, m: int, k: nat)
    requires k <= |exceptions| && CoveredBy(InPlaceDay(weekly, exceptions, day, k), m)
    ensures OpenAfter(weekly, exceptions, day, m, k)
  {
    if k == 0 {
      WeeklyUpToOpen(weekly, day, m, |weekly|);
    } else {
      var ws := InPlaceDay(weekly, exceptions, day, k - 1);
      ApplyInPlaceSound(ws, exceptions[k - 1], day, m);
      OpenAfterStep(weekly, exceptions, day, m, k - 1);
      if !AppliesTo(exceptions[k - 1], day, m) {
        InPlaceDaySound(weekly, exceptions, day, m, k - 1);
      }
    }
  }

  /** The code never opens a minute that last-exception-wins keeps closed. */
  lemma DayWindowsSound(weekly: seq<WeeklyWindow>, exceptions: seq<DayException>, day: int, m: int)
    requires CoveredBy(DayWindows(weekly, exceptions, day), m)
    ensures OpenOn(weekly, exceptions, day, m)
  {
    InPlaceDaySound(weekly, exceptions, day, m, |exceptions|);
  }

  /** At the k-th exception the subtraction's writes stay behind its reads. */
  ghost predicate HarmlessAt(weekly: seq<WeeklyWindow>, exceptions: seq<DayException>, day: int, k: nat)
    requires k < |exceptions|
  {
    var ws, r := InPlaceDay(weekly, exceptions, day, k), Range(exceptions[k]);
    exceptions[k].date == day && !exceptions[k].isAvailable ==>
      forall i: nat :: i < |ws| ==> !Overtakes(ws, r.start, r.end, i)
  }

  lemma {:induction false} HarmlessSame(weekly: seq<WeeklyWindow>, exceptions: seq<DayException>, day: int, k: nat)
    requires k <= |exceptions|
    requires forall j: nat :: j < k ==> HarmlessAt(weekly, exceptions, day, j)
    ensures InPlaceDay(weekly, exceptions, day, k) == FreshDay(weekly, exceptions, day, k)
  {
    if k > 0 {
      HarmlessSame(weekly, exceptions, day, k - 1);
      assert HarmlessAt(weekly, exceptions, day, k - 1);
      var ws, e := InPlaceDay(weekly, exceptions, day, k - 1), exceptions[k - 1];
      if e.date == day && !e.isAvailable {
        NoOvertakeExact(ws, Range(e).start, Range(e).end);
      }
    }
  }

  /** Where no block of the day overtakes, the day is exactly last-exception-wins. */
  lemma DayWindowsExact(weekly: seq<WeeklyWindow>, exceptions: seq<DayException>, day: int, m: int)
    requires forall j: nat :: j < |exceptions| ==> HarmlessAt(weekly, exceptions, day, j)
    ensures CoveredBy(DayWindows(weekly, exceptions, day), m) <==> OpenOn(weekly, exceptions, day, m)
  {
    HarmlessSame(weekly, exceptions, day, |exceptions|);
    LastExceptionWins(weekly, exceptions, day, m, |exceptions|);
  }

  /** What an exception covers: from its start or midnight, up to its end or midnight. */
  lemma AppliesToIff(e: DayException, day: int, m: int)
    ensures AppliesTo(e, day, m) <==>
      && e.date == day
      && (match e.startMinutes case Some(s) => s <= m case None => 0 <= m)
      && (match e.endMinutes case Some(t) => m < t case None => m < 1440)
  {}

  /** An exception without bounds decides the whole day: blocked, it has no open minute, else every one. */
  lemma BoundlessDecidesDay(weekly: seq<WeeklyWindow>, exceptions: seq<DayException>, day: int, k: nat, m: int)
    requires k < |exceptions| && exceptions[k].date == day && forall j :: k < j < |exceptions| ==> exceptions[j].date != day
    requires exceptions[k].startMinutes.None? && exceptions[k].endMinutes.None? && 0 <= m < 1440
    ensures OpenOn(weekly, exceptions, day, m) <==> exceptions[k].isAvailable
    ensures CoveredBy(DayWindows(weekly, exceptions, day), m) <==> exceptions[k].isAvailable
  {
    AppliesToIff(exceptions[k], day, m);
    assert LastApplying(exceptions, day, m, |exceptions|, k);
    forall i | LastApplying(exceptions, day, m, |exceptions|, i) ensures i == k {}
    OtherDaysSkipped(weekly, exceptions, day, k + 1, |exceptions|);
    var ws := InPlaceDay(weekly, exceptions, day, k);
    if exceptions[k].isAvailable {
      assert (ws + [Window(0, 1440)])[|ws|] == Window(0, 1440);
    } else if CoveredBy(DayWindows(weekly, exceptions, day), m) {
      DayWindowsSound(weekly, exceptions, day, m);
    }
  }

  /** The k-th exception blocks part of the day, and none of the later ones is for the day. */
  predicate LastBlock(exceptions: seq<DayException>, day: int, k: nat) {
    && k < |exceptions| && exceptions[k].date == day && !exceptions[k].isAvailable
    && forall j :: k < j < |exceptions| ==> exceptions[j].date != day
  }

  lemma {:induction false} OtherDaysSkipped(weekly: seq<WeeklyWindow>, exceptions: seq<DayException>,
                                            day: int, k: nat, n: nat)
    requires k <= n <= |exceptions| && forall j :: k <= j < n ==> exceptions[j].date != day
    ensures InPlaceDay(weekly, exceptions, day, n) == InPlaceDay(weekly, exceptions, day, k)
    ensures FreshDay(weekly, exceptions, day, n) == FreshDay(weekly, exceptions, day, k)
  {
    if k < n { OtherDaysSkipped(weekly, exceptions, day, k, n - 1); }
  }

  /** The code's day is exactly last-exception-wins. */
  ghost predicate ExactDay(weekly: seq<WeeklyWindow>, exceptions: seq<DayException>, day: int) {
    forall m :: CoveredBy(DayWindows(weekly, exceptions, day), m) <==> OpenOn(weekly, exceptions, day, m)
  }

  /** The last block of a day acts on these windows, and last-exception-wins is their difference with it. */
  lemma LastBlockMeaning(weekly: seq<WeeklyWindow>, exceptions: seq<DayException>, day: int, k: nat, m: int)
    requires LastBlock(exceptions, day, k)
    requires forall j: nat :: j < k ==> HarmlessAt(weekly, exceptions, day, j)
    ensures var ws, r := InPlaceDay(weekly, exceptions, day, k), Range(exceptions[k]);
      && DayWindows(weekly, exceptions, day) == RemoveInPlace(ws, r.start, r.end)
      && (OpenOn(weekly, exceptions, day, m) <==> CoveredBy(ws, m) && !(r.start <= m < r.end))
  {
    var ws, r := InPlaceDay(weekly, exceptions, day, k), Range(exceptions[k]);
    OtherDaysSkipped(weekly, exceptions, day, k + 1, |exceptions|);
    HarmlessSame(weekly, exceptions, day, k);
    LastExceptionWins(weekly, exceptions, day, m, |exceptions|);
    RemoveFreshExact(ws, r.start, r.end, m);
  }

  /**
   A day whose last exception blocks part of separate windows, after exceptions that did no harm,
   comes out right exactly when no window but the last splits. With a single block these are the
   weekly windows.
   */
  lemma LastBlockExactIff(weekly: seq<WeeklyWindow>, exceptions: seq<DayException>, day: int, k: nat)
    requires LastBlock(exceptions, day, k)
    requires forall j: nat :: j < k ==> HarmlessAt(weekly, exceptions, day, j)
    requires Separate(InPlaceDay(weekly, exceptions, day, k))
    ensures var ws, r := InPlaceDay(weekly, exceptions, day, k), Range(exceptions[k]);
      ExactDay(weekly, exceptions, day) <==> OnlyLastSplits(ws, r.start, r.end)
  {
    var ws, r := InPlaceDay(weekly, exceptions, day, k), Range(exceptions[k]);
    var out := DayWindows(weekly, exceptions, day);
    forall m
      ensures out == RemoveInPlace(ws, r.start, r.end)
      ensures OpenOn(weekly, exceptions, day, m) <==> CoveredBy(ws, m) && !(r.start <= m < r.end)
    {
      LastBlockMeaning(weekly, exceptions, day, k, m);
    }
    assert out == RemoveInPlace(ws, r.start, r.end) by { LastBlockMeaning(weekly, exceptions, day, k, 0); }
    assert ExactDay(weekly, exceptions, day) <==> ExactDifference(out, ws, r.start, r.end);
    SeparateExactIffSplitLast(ws, r.start, r.end);
  }

  /** Monday 09:00-12:00 and 13:00-17:00; a block of 10:00-10:30 closes 14:00 as well. */
  lemma MorningBlockClosesAfternoon()
    ensures var weekly := [WeeklyWindow(1, 540, 720), WeeklyWindow(1, 780, 1020)];
            var block := [DayException(4, false, Some(600), Some(630))];
            OpenOn(weekly, block, 4, 840) && !CoveredBy(DayWindows(weekly, block, 4), 840)
  {
    var weekly := [WeeklyWindow(1, 540, 720), WeeklyWindow(1, 780, 1020)];
    var block := [DayException(4, false, Some(600), Some(630))];
    assert WeeklyOpen(weekly, 4, 840) by { assert weekly[1].startMinutes <= 840; }
    assert WeeklyUpTo(weekly, 4, 1) == [Window(540, 720)];
    assert WeeklyUpTo(weekly, 4, 2) == [Window(540, 720), Window(780, 1020)];
    BlockedMorningLosesAfternoon();
    var day := InPlaceDay(weekly, block, 4, 1);
    assert day == ApplyInPlace(InPlaceDay(weekly, block, 4, 0), block[0], 4);
    assert day == [Window(540, 600), Window(630, 720), Window(630, 720)];
  }
}
