/** Weekly local-time schedules, compiled into windows on one circle of seconds. */
module Calendar {
  import opened Prelude
  import opened Text

  const DAY: nat := 86_400
  const WEEK: nat := 604_800

  datatype Schedule = Schedule(name: string, days: seq<nat>, start: string, end: string, order: seq<string>)

  datatype Window = Window(start: nat, end: nat, schedule: nat)

  datatype Selection = Selection(activeSchedule: Option<string>, order: seq<nat>)

  datatype CalendarError =
    | UnknownTimezone | BadLayers | BadName | BadOrder | BadTime | EmptySpan | NoDays | BadDays | Overlap

  // ---------------------------------------------------------------- wall times

  predicate IsDigit(c: char) { '0' <= c <= '9' }

  predicate TimeShaped(v: string) {
    && (|v| == 5 || |v| == 8)
    && v[2] == ':' && (|v| == 8 ==> v[5] == ':')
    && forall i :: 0 <= i < |v| && i != 2 && !(|v| == 8 && i == 5) ==> IsDigit(v[i])
  }

  function Pair(v: string, i: nat): nat
    requires i + 1 < |v| && IsDigit(v[i]) && IsDigit(v[i + 1])
  {
    (v[i] as int - '0' as int) * 10 + (v[i + 1] as int - '0' as int)
  }

  function WallSeconds(v: string): Result<nat, CalendarError> {
    if !TimeShaped(v) then Err(BadTime)
    else
      var hour, minute := Pair(v, 0), Pair(v, 3);
      var second := if |v| == 8 then Pair(v, 6) else 0;
      if hour >= 24 || minute >= 60 || second >= 60 then Err(BadTime)
      else Ok(hour * 3600 + minute * 60 + second)
  }

  function TwoDigits(n: nat): string
    requires n < 100
  {
    [('0' as int + n / 10) as char, ('0' as int + n % 10) as char]
  }

  function HourMinute(hour: nat, minute: nat): string
    requires hour < 24 && minute < 60
  {
    TwoDigits(hour) + ":" + TwoDigits(minute)
  }

  function HourMinuteSecond(hour: nat, minute: nat, second: nat): string
    requires hour < 24 && minute < 60 && second < 60
  {
    HourMinute(hour, minute) + ":" + TwoDigits(second)
  }

  /** Every time of day is accepted in both spellings, and read as the second it names. */
  lemma WallSecondsReads(hour: nat, minute: nat, second: nat)
    requires hour < 24 && minute < 60 && second < 60
    ensures WallSeconds(HourMinuteSecond(hour, minute, second)) == Ok(hour * 3600 + minute * 60 + second)
    ensures WallSeconds(HourMinute(hour, minute)) == Ok(hour * 3600 + minute * 60)
  {
    var long, short := HourMinuteSecond(hour, minute, second), HourMinute(hour, minute);
    assert |short| == 5 && |long| == 8;
    assert TimeShaped(short) && TimeShaped(long);
    assert Pair(long, 0) == hour && Pair(long, 3) == minute && Pair(long, 6) == second;
    assert Pair(short, 0) == hour && Pair(short, 3) == minute;
  }

  lemma PairSpells(v: string, i: nat)
    requires i + 1 < |v| && IsDigit(v[i]) && IsDigit(v[i + 1])
    ensures Pair(v, i) < 100 && TwoDigits(Pair(v, i)) == v[i..i + 2]
  {
  }

  /** Nothing else is accepted: what is read spells the text that was read. */
  lemma WallSecondsIsExact(v: string) returns (hour: nat, minute: nat, second: nat)
    requires WallSeconds(v).Ok?
    ensures hour < 24 && minute < 60 && second < 60
    ensures WallSeconds(v).value == hour * 3600 + minute * 60 + second
    ensures v == HourMinuteSecond(hour, minute, second) || (second == 0 && v == HourMinute(hour, minute))
  {
    hour, minute := Pair(v, 0), Pair(v, 3);
    second := if |v| == 8 then Pair(v, 6) else 0;
    PairSpells(v, 0);
    PairSpells(v, 3);
    hide TwoDigits, Pair;
    if |v| == 8 {
      PairSpells(v, 6);
      assert v == v[0..2] + ":" + v[3..5] + ":" + v[6..8];
      assert v == HourMinuteSecond(hour, minute, second);
    } else {
      assert v == v[0..2] + ":" + v[3..5];
      assert v == HourMinute(hour, minute);
    }
  }

  // ---------------------------------------------------------------- the naive rule

  predicate DistinctNames(names: seq<string>) {
    forall i, j :: 0 <= i < j < |names| ==> names[i] != names[j]
  }

  predicate LayersAreValid(layers: seq<string>) {
    && layers != [] && DistinctNames(layers)
    && forall i :: 0 <= i < |layers| ==> !IsBlank(layers[i])
  }

  predicate DaysAreValid(days: seq<nat>) {
    && days != []
    && (forall a :: 0 <= a < |days| ==> 1 <= days[a] <= 7)
    && forall a, b :: 0 <= a < b < |days| ==> days[a] != days[b]
  }

  predicate OrderIsValid(order: seq<string>, layers: seq<string>) {
    |order| == |layers| && (set name | name in order) == (set name | name in layers)
  }

  predicate TimesAreValid(s: Schedule) {
    WallSeconds(s.start).Ok? && WallSeconds(s.end).Ok? && WallSeconds(s.start) != WallSeconds(s.end)
  }

  function StartOf(s: Schedule): (n: nat)
    requires TimesAreValid(s)
    ensures n < DAY
  {
    WallSeconds(s.start).value
  }

  function EndOf(s: Schedule): (n: nat)
    requires TimesAreValid(s)
    ensures n < DAY && n != StartOf(s)
  {
    WallSeconds(s.end).value
  }

  predicate AllTimesValid(schedules: seq<Schedule>) {
    forall i :: 0 <= i < |schedules| ==> TimesAreValid(schedules[i])
  }

  predicate AllDaysValid(schedules: seq<Schedule>) {
    forall i :: 0 <= i < |schedules| ==> DaysAreValid(schedules[i].days)
  }

  predicate ScheduleIsValid(s: Schedule, layers: seq<string>) {
    !IsBlank(s.name) && OrderIsValid(s.order, layers) && TimesAreValid(s) && DaysAreValid(s.days)
  }

  predicate SchedulesAreValid(schedules: seq<Schedule>, layers: seq<string>) {
    && (forall i :: 0 <= i < |schedules| ==> ScheduleIsValid(schedules[i], layers))
    && forall i, j :: 0 <= i < j < |schedules| ==> schedules[i].name != schedules[j].name
  }

  /** The rule for one weekday: from the start up to the end of that day or, overnight, from
    * the start to midnight and on the following day up to the end. */
  predicate CoversDay(start: nat, end: nat, day: nat, t: nat) {
    var weekday, second := t / DAY, t % DAY;
    if start < end then weekday == day - 1 && start <= second < end
    else (weekday == day - 1 && start <= second) || (weekday == day % 7 && second < end)
  }

  predicate ActiveAt(s: Schedule, t: nat)
    requires TimesAreValid(s)
  {
    exists a :: 0 <= a < |s.days| && CoversDay(StartOf(s), EndOf(s), s.days[a], t)
  }

  function DayCount(start: nat, end: nat, days: seq<nat>, t: nat): nat {
    if days == [] then 0
    else DayCount(start, end, days[..|days| - 1], t)
         + if CoversDay(start, end, days[|days| - 1], t) then 1 else 0
  }

  /** How many schedule days claim second `t` of the week. */
  function CoverCount(schedules: seq<Schedule>, t: nat): nat
    requires AllTimesValid(schedules)
  {
    if schedules == [] then 0
    else
      var s := schedules[|schedules| - 1];
      CoverCount(schedules[..|schedules| - 1], t) + DayCount(StartOf(s), EndOf(s), s.days, t)
  }

  ghost predicate NoSecondTwice(schedules: seq<Schedule>)
    requires AllTimesValid(schedules)
  {
    forall t :: 0 <= t < WEEK ==> CoverCount(schedules, t) <= 1
  }

  // ---------------------------------------------------------------- windows

  predicate Contains(w: Window, t: nat) { w.start <= t < w.end }

  predicate Proper(w: Window) { w.start < w.end <= WEEK }

  function DayWindows(index: nat, start: nat, end: nat, day: nat): seq<Window>
    requires 1 <= day
  {
    var dayStart := (day - 1) * DAY;
    var endAt := dayStart + end + if end < start then DAY else 0;
    [Window(dayStart + start, Min(endAt, WEEK), index)]
    + if endAt > WEEK then [Window(0, endAt - WEEK, index)] else []
  }

  function DaysWindows(index: nat, start: nat, end: nat, days: seq<nat>): seq<Window>
    requires forall a :: 0 <= a < |days| ==> 1 <= days[a] <= 7
  {
    if days == [] then []
    else DaysWindows(index, start, end, days[..|days| - 1]) + DayWindows(index, start, end, days[|days| - 1])
  }

  function WindowsOf(schedules: seq<Schedule>): seq<Window>
    requires AllTimesValid(schedules) && AllDaysValid(schedules)
  {
    if schedules == [] then []
    else
      var last := |schedules| - 1;
      var s := schedules[last];
      WindowsOf(schedules[..last])
      + DaysWindows(last, StartOf(s), EndOf(s), s.days)
  }

  function Count(windows: seq<Window>, t: nat): nat {
    if windows == [] then 0
    else Count(windows[..|windows| - 1], t) + if Contains(windows[|windows| - 1], t) then 1 else 0
  }

  lemma {:induction false} CountAppends(a: seq<Window>, b: seq<Window>, t: nat)
    ensures Count(a + b, t) == Count(a, t) + Count(b, t)
  {
    if b == [] {
      assert a + b == a;
    } else {
      CountAppends(a, b[..|b| - 1], t);
      assert (a + b)[..|a + b| - 1] == a + b[..|b| - 1];
    }
  }

  lemma {:induction false} CountFinds(windows: seq<Window>, t: nat, p: nat)
    requires p < |windows| && Contains(windows[p], t)
    ensures Count(windows, t) >= 1
  {
    if p < |windows| - 1 {
      CountFinds(windows[..|windows| - 1], t, p);
    }
  }

  lemma {:induction false} CountFindsTwo(windows: seq<Window>, t: nat, p: nat, q: nat)
    requires p < q < |windows| && Contains(windows[p], t) && Contains(windows[q], t)
    ensures Count(windows, t) >= 2
  {
    if q < |windows| - 1 {
      CountFindsTwo(windows[..|windows| - 1], t, p, q);
    } else {
      CountFinds(windows[..|windows| - 1], t, p);
    }
  }

  lemma {:induction false} CountSome(windows: seq<Window>, t: nat) returns (p: nat)
    requires Count(windows, t) >= 1
    ensures p < |windows| && Contains(windows[p], t)
  {
    if Contains(windows[|windows| - 1], t) {
      p := |windows| - 1;
    } else {
      p := CountSome(windows[..|windows| - 1], t);
    }
  }

  lemma Without(s: seq<Window>, j: nat)
    requires j < |s|
    ensures multiset(s[..j] + s[j + 1..]) == multiset(s) - multiset{s[j]}
  {
    assert s == s[..j] + [s[j]] + s[j + 1..];
  }

  /** Rearranging the windows does not change how many of them contain a second. */
  lemma {:induction false} CountPermutes(a: seq<Window>, b: seq<Window>, t: nat)
    requires multiset(a) == multiset(b)
    ensures Count(a, t) == Count(b, t)
    decreases |a|
  {
    if a == [] {
      assert |b| == |multiset(b)| == 0;
    } else {
      var w := a[|a| - 1];
      assert w in multiset(b);
      var j :| 0 <= j < |b| && b[j] == w;
      Without(a, |a| - 1);
      Without(b, j);
      assert a[..|a| - 1] + a[|a|..] == a[..|a| - 1];
      CountPermutes(a[..|a| - 1], b[..j] + b[j + 1..], t);
      CountMiddle(b, j, t);
    }
  }

  lemma CountMiddle(b: seq<Window>, j: nat, t: nat)
    requires j < |b|
    ensures Count(b, t) == Count(b[..j] + b[j + 1..], t) + if Contains(b[j], t) then 1 else 0
  {
    CountsOne(b[j], t);
    hide Count, Contains;
    assert b == b[..j] + [b[j]] + b[j + 1..];
    CountAppends(b[..j], b[j + 1..], t);
    CountAppends(b[..j] + [b[j]], b[j + 1..], t);
    CountAppends(b[..j], [b[j]], t);
  }

  /** The windows of one schedule day contain a second exactly when the rule for that day
    * does, and never twice, Sunday-to-Monday nights included. */
  lemma DayWindowsAgree(index: nat, start: nat, end: nat, day: nat, t: nat)
    requires start < DAY && end < DAY && start != end && 1 <= day <= 7 && t < WEEK
    ensures Count(DayWindows(index, start, end, day), t) == if CoversDay(start, end, day, t) then 1 else 0
    ensures forall w :: w in DayWindows(index, start, end, day) ==> Proper(w) && w.schedule == index
  {
    hide Count;
    var ws := DayWindows(index, start, end, day);
    assert t == t / DAY * DAY + t % DAY;
    CountsOne(ws[0], t);
    if |ws| == 2 {
      CountsOne(ws[1], t);
      CountAppends([ws[0]], [ws[1]], t);
      assert ws == [ws[0]] + [ws[1]];
    } else {
      assert ws == [ws[0]];
    }
  }

  lemma CountsNone(t: nat)
    ensures Count([], t) == 0
  {
  }

  lemma CountsOne(w: Window, t: nat)
    ensures Count([w], t) == if Contains(w, t) then 1 else 0
  {
    assert [w][..0] == [];
  }

  lemma {:induction false} DaysWindowsAgree(index: nat, start: nat, end: nat, days: seq<nat>, t: nat)
    requires start < DAY && end < DAY && start != end && t < WEEK
    requires forall a :: 0 <= a < |days| ==> 1 <= days[a] <= 7
    ensures Count(DaysWindows(index, start, end, days), t) == DayCount(start, end, days, t)
    ensures forall w :: w in DaysWindows(index, start, end, days) ==> Proper(w) && w.schedule == index
  {
    hide Count, DayWindows, CoversDay;
    if days != [] {
      var last := |days| - 1;
      DaysWindowsAgree(index, start, end, days[..last], t);
      DayWindowsAgree(index, start, end, days[last], t);
      CountAppends(DaysWindows(index, start, end, days[..last]), DayWindows(index, start, end, days[last]), t);
    } else {
      CountsNone(t);
    }
  }

  lemma {:induction false} WindowsAgree(schedules: seq<Schedule>, t: nat)
    requires AllTimesValid(schedules) && AllDaysValid(schedules) && t < WEEK
    ensures Count(WindowsOf(schedules), t) == CoverCount(schedules, t)
    ensures forall w :: w in WindowsOf(schedules) ==> Proper(w) && w.schedule < |schedules|
  {
    hide Count, DaysWindows, DayCount, TimesAreValid, StartOf, EndOf;
    if schedules != [] {
      var last := |schedules| - 1;
      var s := schedules[last];
      assert DaysAreValid(s.days) && TimesAreValid(s);
      WindowsAgree(schedules[..last], t);
      DaysWindowsAgree(last, StartOf(s), EndOf(s), s.days, t);
      CountAppends(WindowsOf(schedules[..last]), DaysWindows(last, StartOf(s), EndOf(s), s.days), t);
    } else {
      CountsNone(t);
    }
  }

  predicate Sorted(windows: seq<Window>) {
    forall p, q :: 0 <= p < q < |windows| ==> windows[p].start <= windows[q].start
  }

  predicate NeighboursApart(windows: seq<Window>) {
    forall p :: 0 <= p < |windows| - 1 ==> windows[p].end <= windows[p + 1].start
  }

  lemma {:induction false} ApartFromAll(windows: seq<Window>, p: nat, q: nat)
    requires (forall w :: w in windows ==> Proper(w)) && NeighboursApart(windows) && p < q < |windows|
    ensures windows[p].end <= windows[q].start
  {
    if p < q - 1 {
      ApartFromAll(windows, p, q - 1);
      assert windows[q - 1] in windows;
      assert windows[q - 1].end <= windows[(q - 1) + 1].start;
    } else {
      assert windows[p].end <= windows[p + 1].start;
    }
  }

  lemma {:induction false} ApartCountsOnce(windows: seq<Window>, t: nat)
    requires (forall w :: w in windows ==> Proper(w)) && NeighboursApart(windows)
    ensures Count(windows, t) <= 1
  {
    if windows != [] {
      var last := |windows| - 1;
      ApartCountsOnce(windows[..last], t);
      if Contains(windows[last], t) && Count(windows[..last], t) >= 1 {
        var p := CountSome(windows[..last], t);
        ApartFromAll(windows, p, last);
      }
    }
  }

  lemma SortedCountsAgree(schedules: seq<Schedule>, windows: seq<Window>, t: nat)
    requires AllTimesValid(schedules) && AllDaysValid(schedules) && t < WEEK
    requires multiset(windows) == multiset(WindowsOf(schedules))
    ensures Count(windows, t) == CoverCount(schedules, t)
  {
    hide *;
    WindowsAgree(schedules, t);
    CountPermutes(windows, WindowsOf(schedules), t);
  }

  lemma ClashIsSharedSecond(windows: seq<Window>)
    requires (forall p :: 0 <= p < |windows| ==> Proper(windows[p])) && Sorted(windows) && !NeighboursApart(windows)
    ensures exists t: nat {:trigger Count(windows, t)} :: t < WEEK && Count(windows, t) >= 2
  {
    var p :| 0 <= p < |windows| - 1 && windows[p].end > windows[p + 1].start;
    assert Proper(windows[p + 1]);
    CountFindsTwo(windows, windows[p + 1].start, p, p + 1);
  }

  /** Comparing neighbours of the sorted windows is enough: it passes exactly when no second
    * of the week is claimed twice. */
  lemma NeighboursSuffice(schedules: seq<Schedule>, windows: seq<Window>)
    requires AllTimesValid(schedules) && AllDaysValid(schedules)
    requires multiset(windows) == multiset(WindowsOf(schedules)) && Sorted(windows)
    ensures NeighboursApart(windows) <==> NoSecondTwice(schedules)
  {
    AllProper(schedules, windows);
    hide Count, CoverCount, WindowsOf, AllTimesValid, AllDaysValid, Sorted, NeighboursApart, Proper;
    if NeighboursApart(windows) {
      forall t: nat | t < WEEK
        ensures CoverCount(schedules, t) <= 1
      {
        ApartCountsOnce(windows, t);
        SortedCountsAgree(schedules, windows, t);
      }
    } else {
      ClashIsSharedSecond(windows);
      var t: nat :| t < WEEK && Count(windows, t) >= 2;
      SortedCountsAgree(schedules, windows, t);
    }
  }

  lemma AllProper(schedules: seq<Schedule>, windows: seq<Window>)
    requires AllTimesValid(schedules) && AllDaysValid(schedules)
    requires multiset(windows) == multiset(WindowsOf(schedules))
    ensures forall p :: 0 <= p < |windows| ==> Proper(windows[p]) && windows[p].schedule < |schedules|
  {
    WindowsAgree(schedules, 0);
    forall p | 0 <= p < |windows|
      ensures Proper(windows[p]) && windows[p].schedule < |schedules|
    {
      assert windows[p] in multiset(WindowsOf(schedules));
    }
  }

  // ---------------------------------------------------------------- compiling

  function Insert(windows: seq<Window>, w: Window): (r: seq<Window>)
    ensures multiset(r) == multiset(windows) + multiset{w}
  {
    if windows == [] || windows[|windows| - 1].start <= w.start then windows + [w]
    else
      var last := |windows| - 1;
      assert windows == windows[..last] + [windows[last]];
      Insert(windows[..last], w) + [windows[last]]
  }

  lemma {:induction false} InsertBelow(windows: seq<Window>, w: Window, bound: nat)
    requires w.start <= bound && forall p :: 0 <= p < |windows| ==> windows[p].start <= bound
    ensures forall p :: 0 <= p < |Insert(windows, w)| ==> Insert(windows, w)[p].start <= bound
  {
    if windows != [] && windows[|windows| - 1].start > w.start {
      InsertBelow(windows[..|windows| - 1], w, bound);
    }
  }

  lemma {:induction false} InsertSorts(windows: seq<Window>, w: Window)
    requires Sorted(windows)
    ensures Sorted(Insert(windows, w))
  {
    if windows != [] && windows[|windows| - 1].start > w.start {
      var last := |windows| - 1;
      InsertSorts(windows[..last], w);
      InsertBelow(windows[..last], w, windows[last].start);
    }
  }

  /** Any order of equal starts would do: the sort is unstable. */
  method SortByStart(windows: seq<Window>) returns (sorted: seq<Window>)
    ensures Sorted(sorted) && multiset(sorted) == multiset(windows)
  {
    sorted := [];
    for i := 0 to |windows|
      invariant Sorted(sorted) && multiset(sorted) == multiset(windows[..i])
    {
      assert windows[..i + 1] == windows[..i] + [windows[i]];
      InsertSorts(sorted, windows[i]);
      sorted := Insert(sorted, windows[i]);
    }
    assert windows[..|windows|] == windows;
  }

  lemma NoWindows(index: nat, start: nat, end: nat)
    ensures DaysWindows(index, start, end, []) == []
  {
  }

  lemma DaysGrow(index: nat, start: nat, end: nat, days: seq<nat>, day: nat)
    requires (forall a :: 0 <= a < |days| ==> 1 <= days[a] <= 7) && 1 <= day <= 7
    ensures DaysWindows(index, start, end, days + [day])
            == DaysWindows(index, start, end, days) + DayWindows(index, start, end, day)
  {
    assert (days + [day])[..|days|] == days;
  }

  method CompileDays(index: nat, start: nat, end: nat, days: seq<nat>) returns (r: Result<seq<Window>, CalendarError>)
    ensures r.Ok? <==> forall a :: 0 <= a < |days| ==> 1 <= days[a] <= 7 && days[a] !in days[..a]
    ensures r.Ok? ==> r.value == DaysWindows(index, start, end, days)
    ensures r.Err? ==> r.error == BadDays
  {
    var seen: set<nat> := {};
    var windows: seq<Window> := [];
    hide DaysWindows;
    NoWindows(index, start, end);
    for a := 0 to |days|
      invariant seen == set day | day in days[..a]
      invariant forall b :: 0 <= b < a ==> 1 <= days[b] <= 7 && days[b] !in days[..b]
      invariant windows == DaysWindows(index, start, end, days[..a])
    {
      var day := days[a];
      if !(1 <= day <= 7) || day in seen {
        return Err(BadDays);
      }
      seen := seen + {day};
      var dayStart := (day - 1) * DAY;
      var startAt := dayStart + start;
      var endAt := dayStart + end + if end < start then DAY else 0;
      windows := windows + [Window(startAt, Min(endAt, WEEK), index)];
      if endAt > WEEK {
        windows := windows + [Window(0, endAt - WEEK, index)];
      }
      assert days[..a + 1] == days[..a] + [day];
      DaysGrow(index, start, end, days[..a], day);
    }
    assert days[..|days|] == days;
    return Ok(windows);
  }

  lemma {:induction false} SetSizeTellsDistinct(names: seq<string>)
    ensures |set name | name in names| <= |names|
    ensures |set name | name in names| == |names| <==> DistinctNames(names)
  {
    if names != [] {
      var last := |names| - 1;
      var front := names[..last];
      SetSizeTellsDistinct(front);
      assert names == front + [names[last]];
      assert (set name | name in names) == (set name | name in front) + {names[last]};
      if names[last] in front {
        var i :| 0 <= i < last && front[i] == names[last];
        assert names[i] == names[last];
        assert (set name | name in names) == (set name | name in front);
      }
    }
  }

  ghost predicate InputsAreValid(timezoneKnown: bool, layers: seq<string>, schedules: seq<Schedule>) {
    timezoneKnown && LayersAreValid(layers) && SchedulesAreValid(schedules, layers)
  }

  lemma DaysCheckedOneByOne(days: seq<nat>)
    requires days != []
    ensures DaysAreValid(days) <==> forall a :: 0 <= a < |days| ==> 1 <= days[a] <= 7 && days[a] !in days[..a]
  {
    if forall a :: 0 <= a < |days| ==> 1 <= days[a] <= 7 && days[a] !in days[..a] {
      forall a, b | 0 <= a < b < |days|
        ensures days[a] != days[b]
      {
        assert days[..b][a] == days[a];
      }
    }
  }

  /** What is wrong with a schedule, apart from its name. */
  function Fault(s: Schedule, layers: seq<string>): Option<CalendarError> {
    if !OrderIsValid(s.order, layers) then Some(BadOrder)
    else if WallSeconds(s.start).Err? || WallSeconds(s.end).Err? then Some(BadTime)
    else if WallSeconds(s.start) == WallSeconds(s.end) then Some(EmptySpan)
    else if s.days == [] then Some(NoDays)
    else if !DaysAreValid(s.days) then Some(BadDays)
    else None
  }

  /** What is wrong with a schedule after the ones before it. */
  ghost function FaultAt(schedules: seq<Schedule>, i: nat, layers: seq<string>): Option<CalendarError>
    requires i < |schedules|
  {
    if IsBlank(schedules[i].name) || exists j :: 0 <= j < i && schedules[j].name == schedules[i].name then Some(BadName)
    else Fault(schedules[i], layers)
  }

  /** Everything about one schedule except its name. */
  method CompileSchedule(index: nat, s: Schedule, layers: seq<string>) returns (r: Result<seq<Window>, CalendarError>)
    ensures r.Ok? <==> OrderIsValid(s.order, layers) && TimesAreValid(s) && DaysAreValid(s.days)
    ensures r.Ok? ==> r.value == DaysWindows(index, StartOf(s), EndOf(s), s.days)
    ensures Fault(s, layers) == if r.Ok? then None else Some(r.error)
    ensures r.Err? ==> r.error != Overlap
  {
    if !(|s.order| == |layers| && (set name | name in s.order) == (set name | name in layers)) {
      return Err(BadOrder);
    }
    hide TimeShaped, Pair;
    var start, end := WallSeconds(s.start), WallSeconds(s.end);
    if start.Err? { return Err(start.error); }
    if end.Err? { return Err(end.error); }
    if start.value == end.value { return Err(EmptySpan); }
    if s.days == [] { return Err(NoDays); }
    DaysCheckedOneByOne(s.days);
    r := CompileDays(index, start.value, end.value, s.days);
  }

  lemma NoWindowsYet(schedules: seq<Schedule>)
    requires schedules == []
    ensures AllTimesValid(schedules) && AllDaysValid(schedules) && WindowsOf(schedules) == []
  {
  }

  lemma OneMoreSchedule(schedules: seq<Schedule>, i: nat, layers: seq<string>)
    requires i < |schedules| && ScheduleIsValid(schedules[i], layers)
    requires AllTimesValid(schedules[..i]) && AllDaysValid(schedules[..i])
    ensures AllTimesValid(schedules[..i + 1]) && AllDaysValid(schedules[..i + 1])
    ensures WindowsOf(schedules[..i + 1])
            == WindowsOf(schedules[..i]) + DaysWindows(i, StartOf(schedules[i]), EndOf(schedules[i]), schedules[i].days)
  {
    hide TimesAreValid, DaysAreValid, DaysWindows, StartOf, EndOf;
    assert schedules[..i + 1] == schedules[..i] + [schedules[i]];
    assert schedules[..i + 1][..i] == schedules[..i];
  }

  /** The scan over neighbouring windows. */
  method HasOverlap(windows: seq<Window>) returns (overlap: bool)
    ensures overlap <==> !NeighboursApart(windows)
  {
    if windows == [] { return false; }
    for p := 1 to |windows|
      invariant forall q :: 0 <= q < p - 1 ==> windows[q].end <= windows[q + 1].start
    {
      if windows[p - 1].end > windows[p].start {
        assert !(windows[p - 1].end <= windows[(p - 1) + 1].start);
        return true;
      }
    }
    return false;
  }

  /** Compilation accepts exactly the valid inputs that claim no second of the week twice, and
    * reports an overlap exactly for the valid inputs that do. */
  method Compile(timezoneKnown: bool, layers: seq<string>, schedules: seq<Schedule>)
      returns (r: Result<seq<Window>, CalendarError>)
    ensures r.Ok? <==>
            InputsAreValid(timezoneKnown, layers, schedules) && AllTimesValid(schedules) && NoSecondTwice(schedules)
    ensures r == Err(Overlap) <==>
            InputsAreValid(timezoneKnown, layers, schedules) && AllTimesValid(schedules) && !NoSecondTwice(schedules)
    ensures r.Ok? ==> AllDaysValid(schedules) && multiset(r.value) == multiset(WindowsOf(schedules))
    ensures !timezoneKnown ==> r == Err(UnknownTimezone)
    ensures timezoneKnown && !LayersAreValid(layers) ==> r == Err(BadLayers)
    ensures timezoneKnown && LayersAreValid(layers) && r.Err? && r.error != Overlap ==>
              exists i :: 0 <= i < |schedules| && FaultAt(schedules, i, layers) == Some(r.error)
                          && forall j :: 0 <= j < i ==> FaultAt(schedules, j, layers) == None
  {
    hide NoSecondTwice, DaysWindows, IsBlank, WindowsOf, AllTimesValid, AllDaysValid, NeighboursApart, Fault,
         OrderIsValid, TimesAreValid, DaysAreValid;
    if !timezoneKnown { return Err(UnknownTimezone); }
    SetSizeTellsDistinct(layers);
    if layers == [] || |set name | name in layers| != |layers| || exists i :: 0 <= i < |layers| && IsBlank(layers[i]) {
      return Err(BadLayers);
    }
    var names: set<string> := {};
    var windows: seq<Window> := [];
    NoWindowsYet(schedules[..0]);
    for i := 0 to |schedules|
      invariant names == set j | 0 <= j < i :: schedules[j].name
      invariant forall j :: 0 <= j < i ==>
                  ScheduleIsValid(schedules[j], layers) && FaultAt(schedules, j, layers) == None
      invariant forall j, k :: 0 <= j < k < i ==> schedules[j].name != schedules[k].name
      invariant AllTimesValid(schedules[..i]) && AllDaysValid(schedules[..i]) && windows == WindowsOf(schedules[..i])
    {
      var s := schedules[i];
      if IsBlank(s.name) || s.name in names {
        assert FaultAt(schedules, i, layers) == Some(BadName);
        return Err(BadName);
      }
      var compiled := CompileSchedule(i, s, layers);
      assert FaultAt(schedules, i, layers) == Fault(s, layers);
      if compiled.Err? { return Err(compiled.error); }
      names := names + {s.name};
      windows := windows + compiled.value;
      OneMoreSchedule(schedules, i, layers);
    }
    assert schedules[..|schedules|] == schedules;
    windows := SortByStart(windows);
    NeighboursSuffice(schedules, windows);
    var overlap := HasOverlap(windows);
    if overlap { return Err(Overlap); }
    return Ok(windows);
  }

  // ---------------------------------------------------------------- selecting

  datatype WeeklyCalendar = WeeklyCalendar(windows: seq<Window>, selections: seq<Selection>, default: Selection)

  function Position(layers: seq<string>, name: string): (k: nat)
    requires name in layers
    ensures k < |layers| && layers[k] == name && name !in layers[..k]
  {
    if layers[0] == name then 0 else 1 + Position(layers[1..], name)
  }

  lemma OrderNamesLayers(order: seq<string>, layers: seq<string>)
    requires OrderIsValid(order, layers)
    ensures forall k :: 0 <= k < |order| ==> order[k] in layers
    ensures forall k :: 0 <= k < |layers| ==> layers[k] in order
  {
    var named, known := (set name | name in order), (set name | name in layers);
    assert forall k :: 0 <= k < |order| ==> order[k] in named;
    assert forall k :: 0 <= k < |layers| ==> layers[k] in known;
    assert named == known;
  }

  function SelectionOf(s: Schedule, layers: seq<string>): Selection
    requires OrderIsValid(s.order, layers)
  {
    OrderNamesLayers(s.order, layers);
    Selection(Some(s.name), seq(|s.order|, k requires 0 <= k < |s.order| => Position(layers, s.order[k])))
  }

  predicate Total(c: WeeklyCalendar) {
    forall p :: 0 <= p < |c.windows| ==> c.windows[p].schedule < |c.selections|
  }

  /** The calendar that a successful compilation leads to. */
  ghost predicate Compiled(c: WeeklyCalendar, layers: seq<string>, schedules: seq<Schedule>) {
    && LayersAreValid(layers) && SchedulesAreValid(schedules, layers)
    && AllTimesValid(schedules) && AllDaysValid(schedules)
    && NoSecondTwice(schedules)
    && multiset(c.windows) == multiset(WindowsOf(schedules))
    && |c.selections| == |schedules|
    && (forall i :: 0 <= i < |schedules| ==> c.selections[i] == SelectionOf(schedules[i], layers))
    && c.default == Selection(None, Identity(|layers|))
    && Total(c)
  }

  method New(timezoneKnown: bool, layers: seq<string>, schedules: seq<Schedule>)
    returns (r: Result<WeeklyCalendar, CalendarError>)
    ensures r.Ok? <==>
            InputsAreValid(timezoneKnown, layers, schedules) && AllTimesValid(schedules) && NoSecondTwice(schedules)
    ensures r == Err(Overlap) <==>
            InputsAreValid(timezoneKnown, layers, schedules) && AllTimesValid(schedules) && !NoSecondTwice(schedules)
    ensures r.Ok? ==> Compiled(r.value, layers, schedules)
  {
    hide NoSecondTwice, WindowsOf, SelectionOf, AllTimesValid, AllDaysValid;
    var compiled := Compile(timezoneKnown, layers, schedules);
    if compiled.Err? { return Err(compiled.error); }
    AllProper(schedules, compiled.value);
    var selections := seq(|schedules|, i requires 0 <= i < |schedules| && OrderIsValid(schedules[i].order, layers) =>
      SelectionOf(schedules[i], layers));
    return Ok(WeeklyCalendar(compiled.value, selections, Selection(None, Identity(|layers|))));
  }

  function FindWindow(windows: seq<Window>, t: nat): (found: Option<Window>)
    ensures found.Some? ==> found.value in windows && Contains(found.value, t)
    ensures found.None? ==> forall p :: 0 <= p < |windows| ==> !Contains(windows[p], t)
  {
    if windows == [] then None
    else if Contains(windows[0], t) then Some(windows[0])
    else FindWindow(windows[1..], t)
  }

  /** The selection at a local weekday (0 is Monday) and second of that day. */
  function At(c: WeeklyCalendar, weekday: nat, second: nat): Selection
    requires Total(c)
  {
    var found := FindWindow(c.windows, weekday * DAY + second);
    if found.None? then c.default else c.selections[found.value.schedule]
  }

  lemma {:induction false} DayCountFinds(start: nat, end: nat, days: seq<nat>, t: nat)
    ensures DayCount(start, end, days, t) >= 1 <==> exists a :: 0 <= a < |days| && CoversDay(start, end, days[a], t)
  {
    hide CoversDay;
    if days != [] {
      var last := |days| - 1;
      DayCountFinds(start, end, days[..last], t);
      assert forall a :: 0 <= a < last ==> days[..last][a] == days[a];
    }
  }

  lemma {:induction false} WindowBelongs(index: nat, start: nat, end: nat, days: seq<nat>, t: nat, w: Window)
    requires start < DAY && end < DAY && start != end && t < WEEK
    requires forall a :: 0 <= a < |days| ==> 1 <= days[a] <= 7
    requires w in DaysWindows(index, start, end, days) && Contains(w, t)
    ensures DayCount(start, end, days, t) >= 1
  {
    var ws := DaysWindows(index, start, end, days);
    var p :| 0 <= p < |ws| && ws[p] == w;
    CountFinds(ws, t, p);
    DaysWindowsAgree(index, start, end, days, t);
  }

  /** A window that contains a second names a schedule whose own rule holds then. */
  lemma {:induction false} WindowNamesActive(schedules: seq<Schedule>, t: nat, w: Window)
    requires AllTimesValid(schedules) && AllDaysValid(schedules) && t < WEEK
    requires w in WindowsOf(schedules) && Contains(w, t)
    ensures w.schedule < |schedules| && ActiveAt(schedules[w.schedule], t)
  {
    hide CoversDay, DaysWindows, DayCount, TimesAreValid, StartOf, EndOf;
    var last := |schedules| - 1;
    var s := schedules[last];
    assert TimesAreValid(s) && DaysAreValid(s.days);
    if w in DaysWindows(last, StartOf(s), EndOf(s), s.days) {
      DaysWindowsAgree(last, StartOf(s), EndOf(s), s.days, t);
      WindowBelongs(last, StartOf(s), EndOf(s), s.days, t, w);
      DayCountFinds(StartOf(s), EndOf(s), s.days, t);
    } else {
      WindowNamesActive(schedules[..last], t, w);
      assert schedules[..last][w.schedule] == schedules[w.schedule];
    }
  }

  lemma {:induction false} ActiveCounts(schedules: seq<Schedule>, t: nat, i: nat)
    requires AllTimesValid(schedules) && i < |schedules| && ActiveAt(schedules[i], t)
    ensures CoverCount(schedules, t) >= 1
  {
    hide CoversDay, DayCount, TimesAreValid, StartOf, EndOf;
    var last := |schedules| - 1;
    if i == last {
      DayCountFinds(StartOf(schedules[last]), EndOf(schedules[last]), schedules[last].days, t);
    } else {
      ActiveCounts(schedules[..last], t, i);
    }
  }

  lemma {:induction false} ActiveCountsTwice(schedules: seq<Schedule>, t: nat, i: nat, j: nat)
    requires AllTimesValid(schedules) && i < j < |schedules|
    requires ActiveAt(schedules[i], t) && ActiveAt(schedules[j], t)
    ensures CoverCount(schedules, t) >= 2
  {
    hide CoversDay, DayCount, TimesAreValid, StartOf, EndOf;
    var last := |schedules| - 1;
    if j == last {
      DayCountFinds(StartOf(schedules[last]), EndOf(schedules[last]), schedules[last].days, t);
      ActiveCounts(schedules[..last], t, i);
    } else {
      ActiveCountsTwice(schedules[..last], t, i, j);
    }
  }

  /** The calendar activates a schedule exactly when that schedule's own weekday, start and end
    * rule holds; it is then the only one, and without one the default is in force. */
  lemma AtRefinesRule(c: WeeklyCalendar, layers: seq<string>, schedules: seq<Schedule>, weekday: nat, second: nat)
    requires Compiled(c, layers, schedules) && weekday < 7 && second < DAY
    ensures var t := weekday * DAY + second;
            var selection := At(c, weekday, second);
            && (forall i :: 0 <= i < |schedules| && ActiveAt(schedules[i], t) ==>
                 selection == SelectionOf(schedules[i], layers))
            && ((forall i :: 0 <= i < |schedules| ==> !ActiveAt(schedules[i], t)) ==>
                 selection == Selection(None, Identity(|layers|)))
  {
    hide CoversDay, ActiveAt, SelectionOf, WindowsOf, CoverCount, Count, TimesAreValid, DaysAreValid, ScheduleIsValid;
    var t := weekday * DAY + second;
    var found := FindWindow(c.windows, t);
    assert CoverCount(schedules, t) <= 1;
    if found.Some? {
      var w := found.value;
      assert w in multiset(WindowsOf(schedules)) by { assert w in multiset(c.windows); }
      WindowNamesActive(schedules, t, w);
      forall i: nat | i < |schedules| && ActiveAt(schedules[i], t)
        ensures i == w.schedule
      {
        if i < w.schedule { ActiveCountsTwice(schedules, t, i, w.schedule); }
        if w.schedule < i { ActiveCountsTwice(schedules, t, w.schedule, i); }
      }
    } else {
      forall i: nat | i < |schedules|
        ensures !ActiveAt(schedules[i], t)
      {
        if ActiveAt(schedules[i], t) {
          ActiveCounts(schedules, t, i);
          SortedCountsAgree(schedules, c.windows, t);
          var p := CountSome(c.windows, t);
        }
      }
    }
  }

  /** Every selection orders every layer exactly once, in the schedule's own order. */
  lemma SelectionIsPermutation(s: Schedule, layers: seq<string>)
    requires LayersAreValid(layers) && OrderIsValid(s.order, layers)
    ensures var order := SelectionOf(s, layers).order;
            && |order| == |layers|
            && (forall k :: 0 <= k < |order| ==> order[k] < |layers| && layers[order[k]] == s.order[k])
            && (forall j, k :: 0 <= j < k < |order| ==> order[j] != order[k])
            && (forall i :: 0 <= i < |layers| ==> i in order)
  {
    var order := SelectionOf(s, layers).order;
    SetSizeTellsDistinct(layers);
    SetSizeTellsDistinct(s.order);
    OrderNamesLayers(s.order, layers);
    assert forall k :: 0 <= k < |order| ==> order[k] < |layers| && layers[order[k]] == s.order[k];
    forall i: nat | i < |layers|
      ensures i in order
    {
      var k :| 0 <= k < |s.order| && s.order[k] == layers[i];
      assert layers[order[k]] == layers[i];
      assert order[k] == i;
    }
  }
}
