/** Labour-law compliance checks over a list of shifts (utils/labor_law.py). */
module LaborLaw {
  import opened Wrappers
  import opened Text
  import opened Calendar
  import opened Clock
  import opened Shifts
  import opened Sorting

  /** Configured limits: hours per day, hours per week, consecutive working days. */
  datatype Limits = Limits(maxDailyHours: int, maxWeeklyHours: int, maxConsecutiveDays: int)

  /** The shipped configuration: 8 hours a day, 40 a week, 6 consecutive days. */
  const DefaultLimits := Limits(8, 40, 6)

  datatype Severity = Critical | Warning | Info

  datatype ViolationKind =
    | DailyHoursExceeded | WeeklyHoursExceeded | ConsecutiveDaysExceeded | RestTimeRequired

  /** The weekly grouping key `"{date.year}-W{isoweek}"`: the calendar year paired with
      the ISO week number (not the ISO week-based year). */
  datatype WeekKey = WeekKey(year: int, week: int)

  /** The facts a violation's detail text is made from. */
  datatype Detail =
    | DailyDetail(date: Day, minutes: int, capHours: int)
    | WeeklyDetail(week: WeekKey, minutes: int, capHours: int)
    | ConsecutiveDetail(days: int, maxDays: int)
    | RestDetail(date: Day, minutes: int, breakMinutes: int)

  /** `LaborLawViolation`. */
  datatype Violation = Violation(userId: int, userName: string, kind: ViolationKind,
                                 detail: Detail, severity: Severity)

  /** The name shown for a worker: `user.name`, or "不明" when the row has no user. */
  function NameOf(names: map<int, string>, userId: int): string {
    if userId in names then names[userId] else "不明"
  }

  // ---------------------------------------------------------------------------
  // Grouping shifts by a key, as the `daily_hours` / `weekly_hours` dictionaries do.
  // ---------------------------------------------------------------------------

  /** `[s for s in shifts if s.user_id == user_id]`. */
  function UserShifts(shifts: seq<Shift>, userId: int): (r: seq<Shift>)
    ensures |r| <= |shifts|
    ensures forall i :: 0 <= i < |r| ==> r[i].userId == userId
    ensures forall s :: s in r <==> s in shifts && s.userId == userId
  {
    if shifts == [] then []
    else (if shifts[0].userId == userId then [shifts[0]] else []) + UserShifts(shifts[1..], userId)
  }

  /** Minutes of the shifts whose key is `k`: the dictionary entry for `k`. */
  function KeyTotal<K(==)>(items: seq<Shift>, key: Shift -> K, k: K): int
    decreases |items|
  {
    if items == [] then 0
    else
      var last := items[|items| - 1];
      KeyTotal(items[..|items| - 1], key, k) + (if key(last) == k then last.DurationMinutes() else 0)
  }

  /** The dictionary's keys in insertion order: each key where it first occurs. */
  function KeysInOrder<K(==)>(items: seq<Shift>, key: Shift -> K): (ks: seq<K>)
    decreases |items|
  {
    if items == [] then []
    else
      var ks := KeysInOrder(items[..|items| - 1], key);
      var k := key(items[|items| - 1]);
      if k in ks then ks else ks + [k]
  }

  /** The dictionary's keys are exactly the keys of the items. */
  lemma {:induction false} KeysInOrderMembers<K>(items: seq<Shift>, key: Shift -> K, k: K)
    ensures k in KeysInOrder(items, key) <==> exists i :: 0 <= i < |items| && key(items[i]) == k
    decreases |items|
  {
    if items != [] {
      var init := items[..|items| - 1];
      KeysInOrderMembers(init, key, k);
      if exists i :: 0 <= i < |init| && key(init[i]) == k {
        var i :| 0 <= i < |init| && key(init[i]) == k;
        assert key(items[i]) == k;
      }
      if exists i :: 0 <= i < |items| && key(items[i]) == k {
        var i :| 0 <= i < |items| && key(items[i]) == k;
        if i < |init| {
          assert key(init[i]) == k;
        }
      }
    }
  }

  ghost predicate Distinct<T>(s: seq<T>) {
    forall i, j :: 0 <= i < j < |s| ==> s[i] != s[j]
  }

  /** Each key is listed once. */
  lemma {:induction false} KeysInOrderDistinct<K>(items: seq<Shift>, key: Shift -> K)
    ensures Distinct(KeysInOrder(items, key))
    decreases |items|
  {
    if items != [] {
      var init := items[..|items| - 1];
      KeysInOrderDistinct(init, key);
      var ks := KeysInOrder(init, key);
      var k := key(items[|items| - 1]);
      var full := KeysInOrder(items, key);
      if k !in ks {
        assert full == ks + [k];
        forall i, j | 0 <= i < j < |full|
          ensures full[i] != full[j]
        {
          assert full[i] == ks[i];
          if j < |ks| {
            assert full[j] == ks[j];
          } else {
            assert full[j] == k && ks[i] in ks;
          }
        }
      } else {
        assert full == ks;
      }
    }
  }

  /** A key that never occurs has no minutes. */
  lemma {:induction false} KeyTotalAbsent<K>(items: seq<Shift>, key: Shift -> K, k: K)
    requires k !in KeysInOrder(items, key)
    ensures KeyTotal(items, key, k) == 0
    decreases |items|
  {
    if items != [] {
      KeyTotalAbsent(items[..|items| - 1], key, k);
    }
  }

  /** The first key, in insertion order, whose total exceeds `cap`. */
  function FirstOver<K(==)>(ks: seq<K>, items: seq<Shift>, key: Shift -> K, cap: int): (r: Option<K>)
    ensures r.Some? ==> r.value in ks && KeyTotal(items, key, r.value) > cap
    ensures r.None? ==> forall i :: 0 <= i < |ks| ==> KeyTotal(items, key, ks[i]) <= cap
    decreases |ks|
  {
    if ks == [] then None
    else if KeyTotal(items, key, ks[0]) > cap then Some(ks[0])
    else FirstOver(ks[1..], items, key, cap)
  }

  /** The dictionary walk finds a key over the cap exactly when some item's key is over it. */
  lemma FirstOverKeysIff<K>(items: seq<Shift>, key: Shift -> K, cap: int)
    ensures FirstOver(KeysInOrder(items, key), items, key, cap).Some? <==>
      exists i :: 0 <= i < |items| && KeyTotal(items, key, key(items[i])) > cap
    ensures FirstOver(KeysInOrder(items, key), items, key, cap).Some? ==>
      exists i :: 0 <= i < |items| && key(items[i]) == FirstOver(KeysInOrder(items, key), items, key, cap).value
  {
    var ks := KeysInOrder(items, key);
    var r := FirstOver(ks, items, key, cap);
    if exists i :: 0 <= i < |items| && KeyTotal(items, key, key(items[i])) > cap {
      var i :| 0 <= i < |items| && KeyTotal(items, key, key(items[i])) > cap;
      KeysInOrderMembers(items, key, key(items[i]));
    }
    if r.Some? {
      KeysInOrderMembers(items, key, r.value);
    }
  }

  /** `check_daily_work_hours` / `check_weekly_work_hours`, first half: build the totals
      dictionary in one pass, then return the first key (in insertion order) whose total
      exceeds `cap`, with that total. */
  method FirstKeyOverCap<K(==)>(items: seq<Shift>, key: Shift -> K, cap: int)
    returns (r: Option<(K, int)>)
    ensures r.None? <==> FirstOver(KeysInOrder(items, key), items, key, cap).None?
    ensures r.Some? ==> r.value.0 == FirstOver(KeysInOrder(items, key), items, key, cap).value
    ensures r.Some? ==> r.value.1 == KeyTotal(items, key, r.value.0)
  {
    var totals: map<K, int> := map[];
    var order: seq<K> := [];
    var i := 0;
    while i < |items|
      invariant 0 <= i <= |items|
      invariant order == KeysInOrder(items[..i], key)
      invariant forall k :: k in totals <==> k in order
      invariant forall k :: k in totals ==> totals[k] == KeyTotal(items[..i], key, k)
    {
      var k := key(items[i]);
      assert items[..i + 1][..i] == items[..i];
      if k !in totals {
        KeyTotalAbsent(items[..i], key, k);
        totals := totals[k := 0];
        order := order + [k];
      }
      totals := totals[k := totals[k] + items[i].DurationMinutes()];
      i := i + 1;
    }
    assert items[..i] == items;
    var j := 0;
    while j < |order|
      invariant 0 <= j <= |order|
      invariant FirstOver(order, items, key, cap) == FirstOver(order[j..], items, key, cap)
    {
      assert order[j] in totals;
      if totals[order[j]] > cap {
        return Some((order[j], totals[order[j]]));
      }
      assert order[j..][1..] == order[j + 1..];
      j := j + 1;
    }
    return None;
  }

  // ---------------------------------------------------------------------------
  // Daily and weekly hours.
  // ---------------------------------------------------------------------------

  function DayOf(s: Shift): Day {
    s.date
  }

  /** The weekly key of a shift's date: calendar year and ISO week number. */
  function WeekOf(s: Shift): WeekKey {
    WeekKey(CalendarYear(s.date), IsoWeekNumber(s.date))
  }

  /** Minutes the worker is scheduled on day `d`. */
  function DayMinutes(shifts: seq<Shift>, userId: int, d: Day): int {
    KeyTotal(UserShifts(shifts, userId), DayOf, d)
  }

  /** Minutes the worker is scheduled under weekly key `w`. */
  function WeekMinutes(shifts: seq<Shift>, userId: int, w: WeekKey): int {
    KeyTotal(UserShifts(shifts, userId), WeekOf, w)
  }

  /** What `check_daily_work_hours` returns: a critical violation for the first date (in
      order of first appearance) whose total exceeds the cap. */
  function DailyViolation(shifts: seq<Shift>, userId: int, userName: string, maxHours: int)
    : (v: Option<Violation>)
    ensures v.Some? ==> v.value.userId == userId && v.value.userName == userName
                        && v.value.kind == DailyHoursExceeded && v.value.severity == Critical
  {
    var mine := UserShifts(shifts, userId);
    match FirstOver(KeysInOrder(mine, DayOf), mine, DayOf, maxHours * 60)
    case None => None
    case Some(d) =>
      Some(Violation(userId, userName, DailyHoursExceeded,
                     DailyDetail(d, KeyTotal(mine, DayOf, d), maxHours), Critical))
  }

  /** What `check_weekly_work_hours` returns: a critical violation for the first weekly
      key (in order of first appearance) whose total exceeds the cap. */
  function WeeklyViolation(shifts: seq<Shift>, userId: int, userName: string, maxHours: int)
    : (v: Option<Violation>)
    ensures v.Some? ==> v.value.userId == userId && v.value.userName == userName
                        && v.value.kind == WeeklyHoursExceeded && v.value.severity == Critical
  {
    var mine := UserShifts(shifts, userId);
    match FirstOver(KeysInOrder(mine, WeekOf), mine, WeekOf, maxHours * 60)
    case None => None
    case Some(w) =>
      Some(Violation(userId, userName, WeeklyHoursExceeded,
                     WeeklyDetail(w, KeyTotal(mine, WeekOf, w), maxHours), Critical))
  }

  /** The first-over-cap search on one worker's shifts, stated on the whole list. */
  lemma UserKeyOverCapIff<K>(shifts: seq<Shift>, userId: int, key: Shift -> K, cap: int)
    ensures var mine := UserShifts(shifts, userId);
      FirstOver(KeysInOrder(mine, key), mine, key, cap).Some? <==>
      exists s :: s in shifts && s.userId == userId && KeyTotal(mine, key, key(s)) > cap
    ensures var mine := UserShifts(shifts, userId);
      FirstOver(KeysInOrder(mine, key), mine, key, cap).Some? ==>
      exists s :: s in shifts && s.userId == userId
        && key(s) == FirstOver(KeysInOrder(mine, key), mine, key, cap).value
  {
    var mine := UserShifts(shifts, userId);
    FirstOverKeysIff(mine, key, cap);
    if exists s :: s in shifts && s.userId == userId && KeyTotal(mine, key, key(s)) > cap {
      var s :| s in shifts && s.userId == userId && KeyTotal(mine, key, key(s)) > cap;
      var i :| 0 <= i < |mine| && mine[i] == s;
    }
    var r := FirstOver(KeysInOrder(mine, key), mine, key, cap);
    if r.Some? {
      var i :| 0 <= i < |mine| && key(mine[i]) == r.value;
      assert mine[i] in mine;
    }
  }

  /** A daily violation is reported exactly when one of the worker's dates carries more
      than the cap; it names such a date and its total. */
  lemma DailyViolationIff(shifts: seq<Shift>, userId: int, userName: string, maxHours: int)
    ensures DailyViolation(shifts, userId, userName, maxHours).Some? <==>
      exists s :: s in shifts && s.userId == userId && DayMinutes(shifts, userId, s.date) > maxHours * 60
    ensures DailyViolation(shifts, userId, userName, maxHours).Some? ==>
      var v := DailyViolation(shifts, userId, userName, maxHours).value;
      v.userId == userId && v.userName == userName && v.kind == DailyHoursExceeded
      && v.severity == Critical && v.detail.DailyDetail? && v.detail.capHours == maxHours
      && v.detail.minutes == DayMinutes(shifts, userId, v.detail.date) > maxHours * 60
      && exists s :: s in shifts && s.userId == userId && s.date == v.detail.date
  {
    UserKeyOverCapIff(shifts, userId, DayOf, maxHours * 60);
  }

  /** A weekly violation is reported exactly when one of the worker's weekly keys
      carries more than the cap; it names such a key and its total. */
  lemma WeeklyViolationIff(shifts: seq<Shift>, userId: int, userName: string, maxHours: int)
    ensures WeeklyViolation(shifts, userId, userName, maxHours).Some? <==>
      exists s :: s in shifts && s.userId == userId && WeekMinutes(shifts, userId, WeekOf(s)) > maxHours * 60
    ensures WeeklyViolation(shifts, userId, userName, maxHours).Some? ==>
      var v := WeeklyViolation(shifts, userId, userName, maxHours).value;
      v.userId == userId && v.userName == userName && v.kind == WeeklyHoursExceeded
      && v.severity == Critical && v.detail.WeeklyDetail? && v.detail.capHours == maxHours
      && v.detail.minutes == WeekMinutes(shifts, userId, v.detail.week) > maxHours * 60
      && exists s :: s in shifts && s.userId == userId && WeekOf(s) == v.detail.week
  {
    UserKeyOverCapIff(shifts, userId, WeekOf, maxHours * 60);
  }

  /** `check_daily_work_hours`. */
  method CheckDailyWorkHours(shifts: seq<Shift>, userId: int, userName: string, maxHours: int)
    returns (v: Option<Violation>)
    ensures v == DailyViolation(shifts, userId, userName, maxHours)
  {
    var mine := UserShifts(shifts, userId);
    var r := FirstKeyOverCap(mine, DayOf, maxHours * 60);
    if r.None? {
      return None;
    }
    var (d, minutes) := r.value;
    return Some(Violation(userId, userName, DailyHoursExceeded,
                          DailyDetail(d, minutes, maxHours), Critical));
  }

  /** `check_weekly_work_hours`. */
  method CheckWeeklyWorkHours(shifts: seq<Shift>, userId: int, userName: string, maxHours: int)
    returns (v: Option<Violation>)
    ensures v == WeeklyViolation(shifts, userId, userName, maxHours)
  {
    var mine := UserShifts(shifts, userId);
    var r := FirstKeyOverCap(mine, WeekOf, maxHours * 60);
    if r.None? {
      return None;
    }
    var (w, minutes) := r.value;
    return Some(Violation(userId, userName, WeeklyHoursExceeded,
                          WeeklyDetail(w, minutes, maxHours), Critical));
  }

  /** Monday 2024-01-01 and Monday 2024-12-30 fall in different ISO weeks (52 weeks
      apart), yet share the weekly key (2024, 1). */
  lemma WeekKeyMergesYearEnds(a: Shift, b: Shift)
    requires a.date == 738886 && b.date == 739250
    ensures WeekOf(a) == WeekOf(b) == WeekKey(2024, 1)
    ensures MondayOnOrBefore(b.date) == MondayOnOrBefore(a.date) + 52 * 7
  {
    Year2024Starts();
    Dec30Is2024();
    Jan1IsWeekOne();
    Dec30IsWeekOne();
    assert Weekday(738886) == 0 && Weekday(739250) == 0;
  }

  /** Two items under one key, together over the cap, put that key over the cap. */
  lemma SharedKeyOverCap<K>(a: Shift, b: Shift, key: Shift -> K, cap: int)
    requires key(a) == key(b)
    requires a.DurationMinutes() + b.DurationMinutes() > cap
    ensures FirstOver(KeysInOrder([a, b], key), [a, b], key, cap).Some?
  {
    assert [a, b][..1] == [a];
    assert [a][..0] == [];
    assert KeyTotal([a], key, key(a)) == KeyTotal([], key, key(a)) + a.DurationMinutes();
    assert KeyTotal([a, b], key, key(a)) == KeyTotal([a], key, key(a)) + b.DurationMinutes();
    FirstOverKeysIff([a, b], key, cap);
  }

  /** Two shifts of one worker under one weekly key, together over the cap, are
      reported. */
  lemma SharedWeekOverCap(a: Shift, b: Shift, maxHours: int)
    requires a.userId == b.userId && WeekOf(a) == WeekOf(b)
    requires a.DurationMinutes() + b.DurationMinutes() > maxHours * 60
    ensures WeeklyViolation([a, b], a.userId, NameOf(map[], a.userId), maxHours).Some?
  {
    assert UserShifts([a, b], a.userId) == [a, b];
    SharedKeyOverCap(a, b, WeekOf, maxHours * 60);
  }

  /** Consequence: a worker with one 23-hour shift on each of those two Mondays is
      reported for exceeding the 40-hour weekly cap, although no real week holds more
      than 23 of those hours. */
  lemma YearEndShiftsMergedIntoOneWeek(a: Shift, b: Shift)
    requires a.date == 738886 && b.date == 739250 && a.userId == b.userId
    requires a.DurationMinutes() == 23 * 60 && b.DurationMinutes() == 23 * 60
    ensures WeeklyViolation([a, b], a.userId, NameOf(map[], a.userId), 40).Some?
  {
    WeekKeyMergesYearEnds(a, b);
    SharedWeekOverCap(a, b, 40);
  }

  // ---------------------------------------------------------------------------
  // Consecutive working days.
  // ---------------------------------------------------------------------------

  /** The dates of a list of shifts, in order. */
  function Dates(ss: seq<Shift>): (d: seq<Day>)
    ensures |d| == |ss| && forall i :: 0 <= i < |ss| ==> d[i] == ss[i].date
  {
    seq(|ss|, i requires 0 <= i < |ss| => ss[i].date)
  }

  /** The loop's counter at position `j` of the sorted dates: 1 after any step that is
      not exactly one day (a gap or a repeated date), one more after a step of one day. */
  function Streak(d: seq<Day>, j: nat): (n: int)
    requires j < |d|
    ensures 1 <= n <= j + 1
  {
    if j == 0 || d[j] != d[j - 1] + 1 then 1 else Streak(d, j - 1) + 1
  }

  /** The value the walk reports, scanning from position `j`: the counter at the first
      one-day step where it exceeds the maximum. */
  function StreakOverFrom(d: seq<Day>, j: nat, maxDays: int): (r: Option<int>)
    requires 1 <= j <= |d|
    decreases |d| - j
  {
    if j == |d| then None
    else if d[j] == d[j - 1] + 1 && Streak(d, j) > maxDays then Some(Streak(d, j))
    else StreakOverFrom(d, j + 1, maxDays)
  }

  /** The worker's dates in ascending order (`sorted(user_shifts, key=date)`). */
  function SortedDates(shifts: seq<Shift>, userId: int): seq<Day> {
    Dates(SortBy(UserShifts(shifts, userId), DayOf))
  }

  /** What `check_consecutive_work_days` returns. */
  function ConsecutiveViolation(shifts: seq<Shift>, userId: int, userName: string, maxDays: int)
    : (v: Option<Violation>)
    ensures v.Some? ==> v.value.userId == userId && v.value.userName == userName
                        && v.value.kind == ConsecutiveDaysExceeded && v.value.severity == Critical
  {
    var d := SortedDates(shifts, userId);
    if d == [] then None
    else
      match StreakOverFrom(d, 1, maxDays)
      case None => None
      case Some(n) =>
        Some(Violation(userId, userName, ConsecutiveDaysExceeded, ConsecutiveDetail(n, maxDays), Critical))
  }

  /** Positions `j - n + 1 .. j` of the sorted dates hold `n` consecutive calendar days. */
  ghost predicate RunEndingAt(d: seq<Day>, j: int, n: int) {
    0 <= j < |d| && 0 <= n <= j + 1 && forall k :: j - n < k <= j ==> d[k] == d[j] - (j - k)
  }

  /** The counter at `j` measures a run of consecutive calendar days ending at `j`. */
  lemma {:induction false} StreakIsRun(d: seq<Day>, j: nat)
    requires j < |d|
    ensures RunEndingAt(d, j, Streak(d, j))
  {
    if j > 0 && d[j] == d[j - 1] + 1 {
      StreakIsRun(d, j - 1);
    }
  }

  /** `k` one-day steps ending at `j` make the counter at least `k + 1`. */
  lemma {:induction false} RunGivesStreak(d: seq<Day>, j: nat, k: nat)
    requires k <= j < |d|
    requires forall i :: j - k < i <= j ==> d[i] == d[i - 1] + 1
    ensures Streak(d, j) >= k + 1
    decreases k
  {
    if k > 0 {
      assert d[j] == d[j - 1] + 1;
      RunGivesStreak(d, j - 1, k - 1);
    }
  }

  /** Scanning from `i` finds a qualifying step at `j >= i`. */
  lemma {:induction false} StreakOverFound(d: seq<Day>, i: nat, j: nat, maxDays: int)
    requires 1 <= i <= j < |d|
    requires d[j] == d[j - 1] + 1 && Streak(d, j) > maxDays
    ensures StreakOverFrom(d, i, maxDays).Some?
    decreases j - i
  {
    if i < j && !(d[i] == d[i - 1] + 1 && Streak(d, i) > maxDays) {
      StreakOverFound(d, i + 1, j, maxDays);
    }
  }

  /** Soundness: a reported count `n` exceeds the maximum and is a run of `n` consecutive
      calendar days among the sorted dates. */
  lemma {:induction false} StreakOverSound(d: seq<Day>, i: nat, maxDays: int)
    requires 1 <= i <= |d|
    requires StreakOverFrom(d, i, maxDays).Some?
    ensures var n := StreakOverFrom(d, i, maxDays).value;
      n > maxDays && n >= 2 && exists j :: RunEndingAt(d, j, n)
    decreases |d| - i
  {
    if d[i] == d[i - 1] + 1 && Streak(d, i) > maxDays {
      StreakIsRun(d, i);
    } else {
      StreakOverSound(d, i + 1, maxDays);
    }
  }

  /** Completeness for one shift per day: if the sorted dates strictly increase and
      contain every day `x .. x + maxDays`, the walk reports a violation. */
  lemma ConsecutiveRunReported(d: seq<Day>, x: Day, maxDays: int)
    requires 1 <= maxDays
    requires forall i, j :: 0 <= i < j < |d| ==> d[i] < d[j]
    requires forall y :: x <= y <= x + maxDays ==> y in d
    ensures 1 <= |d| && StreakOverFrom(d, 1, maxDays).Some?
  {
    assert x in d;
    var p :| 0 <= p < |d| && d[p] == x;
    var m := 0;
    while m < maxDays
      invariant 0 <= m <= maxDays && p + m < |d|
      invariant forall k :: p <= k <= p + m ==> d[k] == x + (k - p)
    {
      assert x + m + 1 in d;
      var q :| 0 <= q < |d| && d[q] == x + m + 1;
      assert q > p + m;
      assert d[p + m] < d[p + m + 1] <= d[q];
      m := m + 1;
    }
    var j := p + maxDays;
    RunGivesStreak(d, j, maxDays);
    StreakOverFound(d, 1, j, maxDays);
  }

  /** With the shipped maximum of 6, seven consecutive days 1..7 where day 3 holds two
      shifts are not reported: the repeated date resets the counter. */
  lemma RepeatedDateResetsStreak()
    ensures StreakOverFrom([1, 2, 3, 3, 4, 5, 6, 7], 1, 6).None?
  {
    var d := [1, 2, 3, 3, 4, 5, 6, 7];
    assert Streak(d, 3) == 1;
    assert Streak(d, 7) == 5;
  }

  /** `check_consecutive_work_days`: walks the worker's sorted dates, counting one-day
      steps and resetting on anything else, and reports the count when it first exceeds
      the maximum. */
  method CheckConsecutiveWorkDays(shifts: seq<Shift>, userId: int, userName: string, maxDays: int)
    returns (v: Option<Violation>)
    ensures v == ConsecutiveViolation(shifts, userId, userName, maxDays)
  {
    var sorted := SortBy(UserShifts(shifts, userId), DayOf);
    ghost var d := Dates(sorted);
    if |sorted| == 0 {
      return None;
    }
    var consecutive := 1;
    var prev := sorted[0].date;
    for j := 1 to |sorted|
      invariant consecutive == Streak(d, j - 1) && prev == d[j - 1]
      invariant StreakOverFrom(d, 1, maxDays) == StreakOverFrom(d, j, maxDays)
    {
      if sorted[j].date == prev + 1 {
        consecutive := consecutive + 1;
        if consecutive > maxDays {
          return Some(Violation(userId, userName, ConsecutiveDaysExceeded,
                                ConsecutiveDetail(consecutive, maxDays), Critical));
        }
      } else {
        consecutive := 1;
      }
      prev := sorted[j].date;
    }
    return None;
  }

  // ---------------------------------------------------------------------------
  // Rest time.
  // ---------------------------------------------------------------------------

  /** `check_rest_time`: a shift over 6 hours gets a warning asking for a 45-minute break,
      one over 8 hours for a 60-minute break; shorter shifts get nothing. */
  function CheckRestTime(s: Shift, names: map<int, string>): (v: Option<Violation>)
    ensures v.Some? <==> s.DurationMinutes() > 6 * 60
    ensures v.Some? ==> v.value.userId == s.userId && v.value.userName == NameOf(names, s.userId)
    ensures v.Some? ==> v.value.kind == RestTimeRequired && v.value.severity == Warning
    ensures v.Some? ==> v.value.detail.RestDetail? && v.value.detail.date == s.date
    ensures v.Some? ==> (v.value.detail.breakMinutes == 45 <==> s.DurationMinutes() <= 8 * 60)
    ensures v.Some? ==> (v.value.detail.breakMinutes == 60 <==> s.DurationMinutes() > 8 * 60)
  {
    var minutes := s.DurationMinutes();
    if 6 * 60 < minutes <= 8 * 60 then
      Some(Violation(s.userId, NameOf(names, s.userId), RestTimeRequired,
                     RestDetail(s.date, minutes, 45), Warning))
    else if minutes > 8 * 60 then
      Some(Violation(s.userId, NameOf(names, s.userId), RestTimeRequired,
                     RestDetail(s.date, minutes, 60), Warning))
    else None
  }

  // ---------------------------------------------------------------------------
  // All violations.
  // ---------------------------------------------------------------------------

  /** `set(shift.user_id for shift in shifts)`. */
  function UserIds(shifts: seq<Shift>): set<int> {
    set s | s in shifts :: s.userId
  }

  function OptionToSeq<T>(o: Option<T>): (r: seq<T>)
    ensures o.None? ==> r == []
    ensures o.Some? ==> r == [o.value]
  {
    if o.Some? then [o.value] else []
  }

  /** The violations `check_all_violations` appends for one worker, in order: daily,
      weekly, consecutive. The worker's name is looked up once for all three. */
  function UserViolations(shifts: seq<Shift>, userId: int, names: map<int, string>, limits: Limits)
    : (vs: seq<Violation>)
    ensures |vs| <= 3
  {
    var name := NameOf(names, userId);
    OptionToSeq(DailyViolation(shifts, userId, name, limits.maxDailyHours))
    + OptionToSeq(WeeklyViolation(shifts, userId, name, limits.maxWeeklyHours))
    + OptionToSeq(ConsecutiveViolation(shifts, userId, name, limits.maxConsecutiveDays))
  }

  /** Three optional results, daily then weekly then consecutive, joined in order. */
  lemma ThreeBlocks(a: Option<Violation>, b: Option<Violation>, c: Option<Violation>, userId: int)
    requires a.Some? ==> a.value.userId == userId && a.value.severity == Critical && a.value.kind == DailyHoursExceeded
    requires b.Some? ==> b.value.userId == userId && b.value.severity == Critical && b.value.kind == WeeklyHoursExceeded
    requires c.Some? ==> c.value.userId == userId && c.value.severity == Critical && c.value.kind == ConsecutiveDaysExceeded
    ensures var vs := OptionToSeq(a) + OptionToSeq(b) + OptionToSeq(c);
      |vs| <= 3
      && (forall i :: 0 <= i < |vs| ==>
            vs[i].userId == userId && vs[i].severity == Critical && vs[i].kind != RestTimeRequired)
      && (forall i, j :: 0 <= i < j < |vs| ==> vs[i].kind != vs[j].kind)
  {
    var sa, sb, sc := OptionToSeq(a), OptionToSeq(b), OptionToSeq(c);
    var vs := sa + sb + sc;
    forall i | 0 <= i < |vs|
      ensures vs[i] in sa || vs[i] in sb || vs[i] in sc
    {
      if i < |sa| {
        assert vs[i] == sa[i];
      } else if i < |sa| + |sb| {
        assert vs[i] == sb[i - |sa|];
      } else {
        assert vs[i] == sc[i - |sa| - |sb|];
      }
    }
  }

  /** A worker gets at most three violations, all critical, all about that worker, and
      at most one of each kind. */
  lemma UserViolationsShape(shifts: seq<Shift>, userId: int, names: map<int, string>, limits: Limits)
    ensures var vs := UserViolations(shifts, userId, names, limits);
      |vs| <= 3
      && (forall i :: 0 <= i < |vs| ==>
            vs[i].userId == userId && vs[i].severity == Critical && vs[i].kind != RestTimeRequired)
      && (forall i, j :: 0 <= i < j < |vs| ==> vs[i].kind != vs[j].kind)
  {
    var name := NameOf(names, userId);
    ThreeBlocks(DailyViolation(shifts, userId, name, limits.maxDailyHours),
                WeeklyViolation(shifts, userId, name, limits.maxWeeklyHours),
                ConsecutiveViolation(shifts, userId, name, limits.maxConsecutiveDays), userId);
  }

  /** The daily, weekly and consecutive checks for one worker; each result that is
      present is appended, in that order. */
  method CheckUser(shifts: seq<Shift>, userId: int, names: map<int, string>, limits: Limits)
    returns (block: seq<Violation>)
    ensures block == UserViolations(shifts, userId, names, limits)
  {
    var name := NameOf(names, userId);
    block := [];
    var v := CheckDailyWorkHours(shifts, userId, name, limits.maxDailyHours);
    block := block + OptionToSeq(v);
    v := CheckWeeklyWorkHours(shifts, userId, name, limits.maxWeeklyHours);
    block := block + OptionToSeq(v);
    v := CheckConsecutiveWorkDays(shifts, userId, name, limits.maxConsecutiveDays);
    block := block + OptionToSeq(v);
  }

  /** The rest-time warnings, one per qualifying shift, in list order. */
  function RestViolations(shifts: seq<Shift>, names: map<int, string>): (vs: seq<Violation>)
    ensures |vs| <= |shifts|
    ensures forall i :: 0 <= i < |vs| ==> vs[i].kind == RestTimeRequired && vs[i].severity == Warning
    decreases |shifts|
  {
    if shifts == [] then []
    else
      RestViolations(shifts[..|shifts| - 1], names)
      + OptionToSeq(CheckRestTime(shifts[|shifts| - 1], names))
  }

  /** `vs` is exactly the per-worker violations of the workers in `users`: each entry
      belongs to one of them, every violation of each of them is present, and no worker
      has two entries of the same kind. */
  ghost predicate ReportsExactly(shifts: seq<Shift>, names: map<int, string>, limits: Limits,
                                 users: set<int>, vs: seq<Violation>)
  {
    (forall i :: 0 <= i < |vs| ==>
       vs[i].userId in users && vs[i] in UserViolations(shifts, vs[i].userId, names, limits))
    && (forall u, v :: u in users && v in UserViolations(shifts, u, names, limits) ==> v in vs)
    && (forall i, j :: 0 <= i < j < |vs| && vs[i].userId == vs[j].userId ==> vs[i].kind != vs[j].kind)
  }

  /** Appending one more worker's block keeps the report exact. */
  lemma ExtendReport(shifts: seq<Shift>, names: map<int, string>, limits: Limits,
                     users: set<int>, vs: seq<Violation>, u: int)
    requires ReportsExactly(shifts, names, limits, users, vs) && u !in users
    ensures ReportsExactly(shifts, names, limits, users + {u}, vs + UserViolations(shifts, u, names, limits))
  {
    var block := UserViolations(shifts, u, names, limits);
    UserViolationsShape(shifts, u, names, limits);
    var all := vs + block;
    assert forall i :: 0 <= i < |vs| ==> all[i] == vs[i];
    assert forall k :: 0 <= k < |block| ==> all[|vs| + k] == block[k];
    forall i | 0 <= i < |all|
      ensures all[i].userId in users + {u} && all[i] in UserViolations(shifts, all[i].userId, names, limits)
    {
      if i >= |vs| {
        assert all[i] == block[i - |vs|];
      }
    }
    forall i, j | 0 <= i < j < |all| && all[i].userId == all[j].userId
      ensures all[i].kind != all[j].kind
    {
      if j >= |vs| {
        assert all[j] == block[j - |vs|];
        if i >= |vs| {
          assert all[i] == block[i - |vs|];
        }
      }
    }
  }

  /** `order` lists every worker of `users` exactly once: the order in which a loop over
      the set visits them. */
  ghost predicate Enumerates(order: seq<int>, users: set<int>) {
    (forall i, j :: 0 <= i < j < |order| ==> order[i] != order[j])
    && (forall u :: u in order <==> u in users)
  }

  /** The per-worker blocks of the workers in `order`, one contiguous block per worker,
      joined in that order. */
  function Blocks(shifts: seq<Shift>, names: map<int, string>, limits: Limits, order: seq<int>)
    : (vs: seq<Violation>)
    ensures |vs| <= 3 * |order|
    decreases |order|
  {
    if order == [] then []
    else
      Blocks(shifts, names, limits, order[..|order| - 1])
      + UserViolations(shifts, order[|order| - 1], names, limits)
  }

  /** Whatever order the workers are visited in, their joined blocks report every
      violation of every worker, each once, and nothing else. */
  lemma {:induction false} BlocksReportExactly(shifts: seq<Shift>, names: map<int, string>, limits: Limits,
                                               order: seq<int>, users: set<int>)
    requires Enumerates(order, users)
    ensures ReportsExactly(shifts, names, limits, users, Blocks(shifts, names, limits, order))
    decreases |order|
  {
    if order != [] {
      var init, u := order[..|order| - 1], order[|order| - 1];
      EnumeratesInit(order, users);
      BlocksReportExactly(shifts, names, limits, init, users - {u});
      ExtendReport(shifts, names, limits, users - {u}, Blocks(shifts, names, limits, init), u);
    }
  }

  /** Dropping the last worker of an enumeration enumerates the others. */
  lemma EnumeratesInit(order: seq<int>, users: set<int>)
    requires order != [] && Enumerates(order, users)
    ensures users == (users - {order[|order| - 1]}) + {order[|order| - 1]}
    ensures Enumerates(order[..|order| - 1], users - {order[|order| - 1]})
  {
    var init, u := order[..|order| - 1], order[|order| - 1];
    assert order == init + [u];
    forall x | x in init ensures x != u {
      var i :| 0 <= i < |init| && init[i] == x;
      assert order[i] == x;
    }
  }

  /** Visiting one more, not yet visited, worker extends the enumeration. */
  lemma EnumeratesSnoc(order: seq<int>, users: set<int>, u: int)
    requires Enumerates(order, users) && u !in users
    ensures Enumerates(order + [u], users + {u})
  {
    var next := order + [u];
    forall x ensures x in next <==> x in order || x == u {
      if x in next {
        var i :| 0 <= i < |next| && next[i] == x;
        if i < |order| {
          assert order[i] == x;
        }
      }
    }
  }

  /** The loop over the set of workers in `check_all_violations`. Set iteration order is
      unspecified, so the order actually taken is returned as a ghost result: the report
      is one block per worker, in that order. */
  method CollectUserViolations(shifts: seq<Shift>, names: map<int, string>, limits: Limits)
    returns (vs: seq<Violation>, ghost order: seq<int>)
    ensures Enumerates(order, UserIds(shifts))
    ensures vs == Blocks(shifts, names, limits, order)
    ensures |vs| <= 3 * |UserIds(shifts)|
  {
    vs := [];
    order := [];
    ghost var parts: seq<seq<Violation>> := [];
    var remaining := UserIds(shifts);
    ghost var users := remaining;
    // The source skips a worker with no shifts; every id here comes from a shift, so
    // that branch never runs and is not modelled.
    while remaining != {}
      invariant remaining <= users
      invariant Enumerates(order, users - remaining)
      invariant vs == Concat(parts) && BlocksOf(shifts, names, limits, order, parts)
      decreases |remaining|
    {
      var u :| u in remaining;
      VisitOne(shifts, names, limits, users, remaining, order, u);
      vs, parts := AppendBlock(shifts, names, limits, vs, order, parts, u);
      order := order + [u];
      remaining := remaining - {u};
    }
    assert users - remaining == users;
    EnumerationSize(order, users);
    ConcatBlocks(shifts, names, limits, order, parts);
  }

  /** The blocks joined so far, one per visited worker. */
  function Concat(parts: seq<seq<Violation>>): seq<Violation>
    decreases |parts|
  {
    if parts == [] then [] else Concat(parts[..|parts| - 1]) + parts[|parts| - 1]
  }

  /** `parts[i]` is the block of worker `order[i]`. */
  ghost predicate BlocksOf(shifts: seq<Shift>, names: map<int, string>, limits: Limits,
                           order: seq<int>, parts: seq<seq<Violation>>) {
    |parts| == |order|
    && forall i {:trigger UserViolations(shifts, order[i], names, limits)} :: 0 <= i < |order| ==>
         parts[i] == UserViolations(shifts, order[i], names, limits)
  }

  /** Joining the blocks of the visited workers gives their report. */
  lemma {:induction false} ConcatBlocks(shifts: seq<Shift>, names: map<int, string>, limits: Limits,
                                        order: seq<int>, parts: seq<seq<Violation>>)
    requires BlocksOf(shifts, names, limits, order, parts)
    ensures Concat(parts) == Blocks(shifts, names, limits, order)
    decreases |order|
  {
    if order != [] {
      var n := |order| - 1;
      BlocksOfPrefix(shifts, names, limits, order, parts);
      ConcatBlocks(shifts, names, limits, order[..n], parts[..n]);
      assert Concat(parts) == Concat(parts[..n]) + parts[n];
      assert Blocks(shifts, names, limits, order)
             == Blocks(shifts, names, limits, order[..n]) + UserViolations(shifts, order[n], names, limits);
    }
  }

  /** Dropping the last visited worker keeps the blocks matched. */
  lemma BlocksOfPrefix(shifts: seq<Shift>, names: map<int, string>, limits: Limits,
                       order: seq<int>, parts: seq<seq<Violation>>)
    requires order != [] && BlocksOf(shifts, names, limits, order, parts)
    ensures parts[|order| - 1] == UserViolations(shifts, order[|order| - 1], names, limits)
    ensures BlocksOf(shifts, names, limits, order[..|order| - 1], parts[..|order| - 1])
  {
    var n := |order| - 1;
    assert parts[n] == UserViolations(shifts, order[n], names, limits);
    forall i | 0 <= i < n
      ensures parts[..n][i] == UserViolations(shifts, order[..n][i], names, limits)
    {
      assert parts[i] == UserViolations(shifts, order[i], names, limits);
    }
  }

  /** One turn of the loop body: the worker's three checks, appended to the report. */
  method AppendBlock(shifts: seq<Shift>, names: map<int, string>, limits: Limits,
                     vs: seq<Violation>, ghost order: seq<int>, ghost parts: seq<seq<Violation>>, u: int)
    returns (next: seq<Violation>, ghost nextParts: seq<seq<Violation>>)
    requires vs == Concat(parts) && BlocksOf(shifts, names, limits, order, parts)
    ensures next == Concat(nextParts) && BlocksOf(shifts, names, limits, order + [u], nextParts)
  {
    var block := CheckUser(shifts, u, names, limits);
    next := vs + block;
    nextParts := parts + [block];
    assert nextParts[..|parts|] == parts;
    forall i | 0 <= i < |order| + 1
      ensures nextParts[i] == UserViolations(shifts, (order + [u])[i], names, limits)
    {
      if i < |order| {
        assert parts[i] == UserViolations(shifts, order[i], names, limits);
      }
    }
  }

  /** One turn of the loop over the workers: the visited worker joins the enumeration. */
  lemma VisitOne(shifts: seq<Shift>, names: map<int, string>, limits: Limits,
                 users: set<int>, remaining: set<int>, order: seq<int>, u: int)
    requires remaining <= users && u in remaining
    requires Enumerates(order, users - remaining)
    ensures Enumerates(order + [u], users - (remaining - {u}))
  {
    EnumeratesSnoc(order, users - remaining, u);
    assert users - (remaining - {u}) == (users - remaining) + {u};
  }

  /** An enumeration has one entry per worker. */
  lemma {:induction false} EnumerationSize(order: seq<int>, users: set<int>)
    requires Enumerates(order, users)
    ensures |order| == |users|
    decreases |order|
  {
    if order != [] {
      EnumeratesInit(order, users);
      EnumerationSize(order[..|order| - 1], users - {order[|order| - 1]});
    } else {
      forall x ensures x !in users {
        assert x in order <==> x in users;
      }
      assert users == {};
    }
  }

  /** What `check_all_violations` returns: one block per worker with a shift, in some
      order of the workers, followed by exactly the rest-time warnings in shift order. */
  ghost predicate ViolationReport(shifts: seq<Shift>, names: map<int, string>, limits: Limits, vs: seq<Violation>) {
    var rest := RestViolations(shifts, names);
    |rest| <= |vs| && vs[|vs| - |rest|..] == rest
    && exists order :: Enumerates(order, UserIds(shifts))
                       && vs[..|vs| - |rest|] == Blocks(shifts, names, limits, order)
  }

  /** The per-worker part of a report holds every violation of every worker, each once,
      and nothing else. */
  lemma ReportIsExact(shifts: seq<Shift>, names: map<int, string>, limits: Limits, vs: seq<Violation>)
    requires ViolationReport(shifts, names, limits, vs)
    ensures ReportsExactly(shifts, names, limits, UserIds(shifts),
                           vs[..|vs| - |RestViolations(shifts, names)|])
  {
    var order :| Enumerates(order, UserIds(shifts))
                 && vs[..|vs| - |RestViolations(shifts, names)|] == Blocks(shifts, names, limits, order);
    BlocksReportExactly(shifts, names, limits, order, UserIds(shifts));
  }

  /** `check_all_violations`: one block of daily, weekly and consecutive violations per
      worker, then exactly the rest-time warnings in shift order; so at most 3 per
      worker plus 1 per shift. */
  method CheckAllViolations(shifts: seq<Shift>, names: map<int, string>, limits: Limits)
    returns (vs: seq<Violation>)
    ensures |vs| <= 3 * |UserIds(shifts)| + |shifts|
    ensures ViolationReport(shifts, names, limits, vs)
  {
    var perUser;
    ghost var order;
    perUser, order := CollectUserViolations(shifts, names, limits);
    var rest := CollectRestWarnings(shifts, names);
    vs := perUser + rest;
    PerUserThenRest(shifts, names, limits, perUser, order);
  }

  /** The loop over the shifts in `check_all_violations`: one rest-time check per shift,
      in shift order. */
  method CollectRestWarnings(shifts: seq<Shift>, names: map<int, string>)
    returns (ws: seq<Violation>)
    ensures ws == RestViolations(shifts, names)
  {
    ws := [];
    for i := 0 to |shifts|
      invariant ws == RestViolations(shifts[..i], names)
    {
      assert shifts[..i + 1][..i] == shifts[..i];
      ws := ws + OptionToSeq(CheckRestTime(shifts[i], names));
    }
    assert shifts[..|shifts|] == shifts;
  }

  /** The per-worker block followed by the rest-time warnings is a violation report. */
  lemma PerUserThenRest(shifts: seq<Shift>, names: map<int, string>, limits: Limits,
                        perUser: seq<Violation>, order: seq<int>)
    requires Enumerates(order, UserIds(shifts)) && perUser == Blocks(shifts, names, limits, order)
    ensures ViolationReport(shifts, names, limits, perUser + RestViolations(shifts, names))
  {
    var rest := RestViolations(shifts, names);
    var vs := perUser + rest;
    assert vs[..|vs| - |rest|] == perUser;
    assert vs[|vs| - |rest|..] == rest;
  }

  // ---------------------------------------------------------------------------
  // Display text.
  // ---------------------------------------------------------------------------

  const NoViolationsMessage: string := "✅ 労働法違反はありません"
  const CriticalHeader: string := "🚨 **重大な違反**\n"
  const WarningHeader: string := "⚠\U{fe0f} **要確認事項**\n"

  /** `[v for v in violations if v.severity == sev]`. */
  function OfSeverity(vs: seq<Violation>, sev: Severity): (r: seq<Violation>)
    ensures |r| <= |vs|
    ensures forall i :: 0 <= i < |r| ==> r[i].severity == sev
    decreases |vs|
  {
    if vs == [] then []
    else
      var last := vs[|vs| - 1];
      OfSeverity(vs[..|vs| - 1], sev) + (if last.severity == sev then [last] else [])
  }

  /** Filtering distributes over concatenation. */
  lemma {:induction false} OfSeverityConcat(a: seq<Violation>, b: seq<Violation>, sev: Severity)
    ensures OfSeverity(a + b, sev) == OfSeverity(a, sev) + OfSeverity(b, sev)
    decreases |b|
  {
    if b == [] {
      assert a + b == a;
    } else {
      var init := b[..|b| - 1];
      assert (a + b)[..|a + b| - 1] == a + init;
      OfSeverityConcat(a, init, sev);
    }
  }

  /** A list with no item of severity `sev` filters to nothing. */
  lemma {:induction false} OfSeverityNone(vs: seq<Violation>, sev: Severity)
    requires forall i :: 0 <= i < |vs| ==> vs[i].severity != sev
    ensures OfSeverity(vs, sev) == []
    decreases |vs|
  {
    if vs != [] {
      OfSeverityNone(vs[..|vs| - 1], sev);
    }
  }

  /** A list with an item of severity `sev` filters to something. */
  lemma {:induction false} OfSeveritySome(vs: seq<Violation>, sev: Severity, k: nat)
    requires k < |vs| && vs[k].severity == sev
    ensures OfSeverity(vs, sev) != []
    decreases |vs|
  {
    if k < |vs| - 1 {
      OfSeveritySome(vs[..|vs| - 1], sev, k);
    }
  }

  /** The bullet that opens every item line, up to its last visible character. */
  const BulletMark: string := "  •"
  const Bullet: string := BulletMark + " "

  /** One bullet line: the worker's name and the detail text `render` gives. */
  function Item(v: Violation, render: Detail -> string): (line: string)
    ensures |Bullet| < |line| && line[..|Bullet|] == Bullet && line[|line| - 1] == '\n'
  {
    Bullet + v.userName + ": " + render(v.detail) + "\n"
  }

  /** The bullet lines of `vs`, in order. */
  function Items(vs: seq<Violation>, render: Detail -> string): (text: string)
    ensures vs != [] ==> |Bullet| <= |text| && text[..|Bullet|] == Bullet
    decreases |vs|
  {
    if vs == [] then "" else Items(vs[..|vs| - 1], render) + Item(vs[|vs| - 1], render)
  }

  /** A headed block of bullet lines, or nothing when there are no items. */
  function Section(header: string, items: seq<Violation>, render: Detail -> string): string {
    if items == [] then "" else header + Items(items, render)
  }

  /** The message `format_violations_for_display` builds from the critical and the
      warning items, before stripping it. */
  function Report(critical: seq<Violation>, warning: seq<Violation>, render: Detail -> string): string {
    (if critical == [] then "" else Section(CriticalHeader, critical, render) + "\n")
    + Section(WarningHeader, warning, render)
  }

  /** What `format_violations_for_display` returns: the sentinel for no violations,
      otherwise the critical block then the warning block, stripped. */
  function DisplayText(vs: seq<Violation>, render: Detail -> string): string {
    if vs == [] then NoViolationsMessage
    else Strip(Report(OfSeverity(vs, Critical), OfSeverity(vs, Warning), render))
  }

  /** Appends the bullet lines of `items` to `message`. */
  method AppendItems(message: string, items: seq<Violation>, render: Detail -> string)
    returns (r: string)
    ensures r == message + Items(items, render)
  {
    r := message;
    for i := 0 to |items|
      invariant r == message + Items(items[..i], render)
    {
      assert items[..i + 1][..i] == items[..i];
      r := r + Item(items[i], render);
    }
    assert items[..|items|] == items;
  }

  /** `format_violations_for_display`. */
  method FormatViolationsForDisplay(vs: seq<Violation>, render: Detail -> string)
    returns (text: string)
    ensures text == DisplayText(vs, render)
  {
    if |vs| == 0 {
      return NoViolationsMessage;
    }
    var critical := OfSeverity(vs, Critical);
    var warning := OfSeverity(vs, Warning);
    var message := BuildReport(critical, warning, render);
    return Strip(message);
  }

  /** The message before stripping: the critical block, a blank line, the warning
      block, each block only when it has items. */
  method BuildReport(critical: seq<Violation>, warning: seq<Violation>, render: Detail -> string)
    returns (message: string)
    ensures message == Report(critical, warning, render)
  {
    var head := "";
    if critical != [] {
      var block := AppendItems(CriticalHeader, critical, render);
      assert block == Section(CriticalHeader, critical, render);
      head := block + "\n";
    }
    if warning != [] {
      var block := AppendItems(WarningHeader, warning, render);
      assert block == Section(WarningHeader, warning, render);
      message := head + block;
    } else {
      assert head + "" == head;
      message := head;
    }
  }

  /** Stripping keeps any prefix that ends in a non-space character, when the text does
      not start with a space. */
  lemma StripKeepsPrefix(s: string, k: nat)
    requires 0 < k <= |s| && !IsSpace(s[0]) && !IsSpace(s[k - 1])
    ensures k <= |Strip(s)| && Strip(s)[..k] == s[..k]
  {
    assert TrimLeft(s) == s;
    var r := TrimRight(s);
    TrimRightDropsSpaces(s);
    assert k <= |r|;
    assert r[..k] == s[..|r|][..k];
  }

  /** Critical items are listed first: when there is one, the text opens with the
      critical header and a bullet; otherwise, when there is a warning, with the warning
      header and a bullet. */
  lemma DisplayOpensWithMostSevere(vs: seq<Violation>, render: Detail -> string)
    ensures (exists i :: 0 <= i < |vs| && vs[i].severity == Critical) ==>
      var t := DisplayText(vs, render);
      |CriticalHeader + BulletMark| <= |t| && t[..|CriticalHeader + BulletMark|] == CriticalHeader + BulletMark
    ensures (forall i :: 0 <= i < |vs| ==> vs[i].severity != Critical)
            && (exists i :: 0 <= i < |vs| && vs[i].severity == Warning) ==>
      var t := DisplayText(vs, render);
      |WarningHeader + BulletMark| <= |t| && t[..|WarningHeader + BulletMark|] == WarningHeader + BulletMark
  {
    var critical := OfSeverity(vs, Critical);
    var warning := OfSeverity(vs, Warning);
    var raw := Report(critical, warning, render);
    if exists i :: 0 <= i < |vs| && vs[i].severity == Critical {
      var i :| 0 <= i < |vs| && vs[i].severity == Critical;
      OfSeveritySome(vs, Critical, i);
      var items := Items(critical, render);
      assert raw == CriticalHeader + items + "\n" + Section(WarningHeader, warning, render);
      OpensWith(raw, CriticalHeader, items);
    } else if exists i :: 0 <= i < |vs| && vs[i].severity == Warning {
      var i :| 0 <= i < |vs| && vs[i].severity == Warning;
      OfSeverityNone(vs, Critical);
      OfSeveritySome(vs, Warning, i);
      var items := Items(warning, render);
      assert raw == WarningHeader + items + "";
      OpensWith(raw, WarningHeader, items);
    }
  }

  /** A text that is a header followed by bullet lines opens, after stripping, with the
      header and a bullet. */
  lemma OpensWith(raw: string, header: string, items: string)
    requires header != [] && !IsSpace(header[0])
    requires |Bullet| <= |items| && items[..|Bullet|] == Bullet
    requires |header + items| <= |raw| && raw[..|header + items|] == header + items
    ensures |header + BulletMark| <= |Strip(raw)| && Strip(raw)[..|header + BulletMark|] == header + BulletMark
  {
    var k := |header + BulletMark|;
    assert (header + items)[..k] == header + items[..|BulletMark|];
    assert items[..|BulletMark|] == Bullet[..|BulletMark|] == BulletMark;
    assert raw[..k] == header + BulletMark;
    assert raw[0] == header[0];
    assert raw[k - 1] == '•';
    StripKeepsPrefix(raw, k);
  }

  /** Info items are never shown: adding one to a non-empty list changes nothing. */
  lemma DisplayIgnoresInfo(vs: seq<Violation>, x: Violation, render: Detail -> string)
    requires vs != [] && x.severity == Info
    ensures DisplayText(vs + [x], render) == DisplayText(vs, render)
  {
    OfSeverityConcat(vs, [x], Critical);
    OfSeverityConcat(vs, [x], Warning);
    assert OfSeverity(vs + [x], Critical) == OfSeverity(vs, Critical);
    assert OfSeverity(vs + [x], Warning) == OfSeverity(vs, Warning);
  }

  /** A non-empty list of Info items only is shown as the empty text, not the
      "no violations" sentinel. */
  lemma InfoOnlyDisplaysNothing(vs: seq<Violation>, render: Detail -> string)
    requires vs != [] && forall i :: 0 <= i < |vs| ==> vs[i].severity == Info
    ensures DisplayText(vs, render) == ""
  {
    OfSeverityNone(vs, Critical);
    OfSeverityNone(vs, Warning);
  }

  /** Only the order within each severity matters: swapping neighbouring items of
      different shown severities leaves the text unchanged. */
  lemma DisplaySwapAcrossSeverities(p: seq<Violation>, x: Violation, y: Violation, q: seq<Violation>,
                                    render: Detail -> string)
    requires x.severity != y.severity
    ensures DisplayText(p + [x, y] + q, render) == DisplayText(p + [y, x] + q, render)
  {
    SwapKeepsSeverity(p, x, y, q, Critical);
    SwapKeepsSeverity(p, x, y, q, Warning);
  }

  /** Filtering by one severity cannot tell two neighbours of different severities
      apart in order. */
  lemma SwapKeepsSeverity(p: seq<Violation>, x: Violation, y: Violation, q: seq<Violation>, sev: Severity)
    requires x.severity != y.severity
    ensures OfSeverity(p + [x, y] + q, sev) == OfSeverity(p + [y, x] + q, sev)
  {
    assert [x, y][..1] == [x] && [y, x][..1] == [y];
    assert OfSeverity([x, y], sev) == OfSeverity([y, x], sev);
    OfSeverityConcat(p, [x, y], sev);
    OfSeverityConcat(p + [x, y], q, sev);
    OfSeverityConcat(p, [y, x], sev);
    OfSeverityConcat(p + [y, x], q, sev);
  }
}
