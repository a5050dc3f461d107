/** Building the scheduling problem handed to the solver and reading its answer back
    (services/shift_optimizer.py). The solver itself is a parameter. */
module Optimizer {
  import opened Wrappers
  import opened Calendar
  import opened Clock
  import opened Shifts
  import opened ShiftRequests
  import opened Users
  import opened LaborLaw

  /** The thresholds the optimizer reads from the configuration. */
  datatype Config = Config(minStaff: int, maxStaff: int, maxWeeklyHours: int)

  /** The shipped configuration: 2 to 10 workers a day, 40 hours a week. */
  const DefaultConfig := Config(2, 10, 40)

  /** The weekly day cap: `MAX_WORK_HOURS_PER_WEEK // 8`, eight-hour days assumed. */
  function MaxDaysPerWeek(cfg: Config): (n: int)
    ensures cfg.maxWeeklyHours >= 0 ==> 8 * n <= cfg.maxWeeklyHours < 8 * (n + 1)
  {
    cfg.maxWeeklyHours / 8
  }

  lemma DefaultWeeklyCapIsFiveDays()
    ensures MaxDaysPerWeek(DefaultConfig) == 5
  {
  }

  // ---------------------------------------------------------------------------
  // Dates.
  // ---------------------------------------------------------------------------

  /** The days from `start` to `end` inclusive. */
  function DateRange(start: Day, end: Day): (dates: seq<Day>)
    ensures |dates| == if start <= end then end - start + 1 else 0
    ensures forall i :: 0 <= i < |dates| ==> dates[i] == start + i
  {
    if start <= end then seq(end - start + 1, i => start + i) else []
  }

  /** `_generate_date_range`. */
  method GenerateDateRange(start: Day, end: Day) returns (dates: seq<Day>)
    ensures dates == DateRange(start, end)
  {
    dates := [];
    var current := start;
    while current <= end
      invariant current == start + |dates|
      invariant start <= end ==> current <= end + 1
      invariant start > end ==> dates == []
      invariant forall i :: 0 <= i < |dates| ==> dates[i] == start + i
      decreases end - current
    {
      dates := dates + [current];
      current := current + 1;
    }
  }

  /** The Mondays `_get_week_starts` lists: from the Monday on or before the first day,
      every seventh day up to the last day. */
  function WeekStarts(dates: seq<Day>): (ws: seq<Day>)
    ensures dates == [] ==> ws == []
    ensures forall i :: 0 <= i < |ws| ==>
      ws[i] == MondayOnOrBefore(dates[0]) + 7 * i && ws[i] <= dates[|dates| - 1]
    ensures dates != [] ==> dates[|dates| - 1] < MondayOnOrBefore(dates[0]) + 7 * |ws|
  {
    if dates == [] then []
    else
      var m := MondayOnOrBefore(dates[0]);
      var last := dates[|dates| - 1];
      if last < m then [] else seq((last - m) / 7 + 1, i => m + 7 * i)
  }

  /** Every week start is a Monday. */
  lemma WeekStartsAreMondays(dates: seq<Day>, i: nat)
    requires i < |WeekStarts(dates)|
    ensures Weekday(WeekStarts(dates)[i]) == 0
  {
    WeekdayShift(MondayOnOrBefore(dates[0]), i);
  }

  /** The weeks listed cover every day between the first and the last. */
  lemma WeekStartsCover(dates: seq<Day>, d: Day)
    requires dates != [] && dates[0] <= d <= dates[|dates| - 1]
    ensures exists i :: 0 <= i < |WeekStarts(dates)| && WeekStarts(dates)[i] <= d < WeekStarts(dates)[i] + 7
  {
    var ws := WeekStarts(dates);
    var m := MondayOnOrBefore(dates[0]);
    var i := (d - m) / 7;
    assert 0 <= i < |ws|;
    assert ws[i] == m + 7 * i;
  }

  /** One step back along the week: the weekday drops by one. */
  lemma WeekdayBack(d: Day)
    requires Weekday(d) != 0
    ensures Weekday(d - 1) == Weekday(d) - 1
  {
    DivModSeven((d + 6) / 7, Weekday(d) - 1);
  }

  /** `_get_week_starts`. */
  method GetWeekStarts(dates: seq<Day>) returns (ws: seq<Day>)
    ensures ws == WeekStarts(dates)
  {
    if |dates| == 0 {
      return [];
    }
    ws := [];
    var current := dates[0];
    while Weekday(current) != 0
      invariant current <= dates[0] && current - Weekday(current) == dates[0] - Weekday(dates[0])
      decreases Weekday(current)
    {
      WeekdayBack(current);
      current := current - 1;
    }
    var m := current;
    assert m == MondayOnOrBefore(dates[0]);
    var last := dates[|dates| - 1];
    while current <= last
      invariant current == m + 7 * |ws|
      invariant forall i :: 0 <= i < |ws| ==> ws[i] == m + 7 * i && ws[i] <= last
      decreases last - current
    {
      ws := ws + [current];
      current := current + 7;
    }
    WeekStartsEqual(dates, ws);
  }

  /** The list the loop builds is the list of week starts. */
  lemma WeekStartsEqual(dates: seq<Day>, ws: seq<Day>)
    requires dates != []
    requires forall i :: 0 <= i < |ws| ==>
      ws[i] == MondayOnOrBefore(dates[0]) + 7 * i && ws[i] <= dates[|dates| - 1]
    requires dates[|dates| - 1] < MondayOnOrBefore(dates[0]) + 7 * |ws|
    ensures ws == WeekStarts(dates)
  {
    var expected := WeekStarts(dates);
    var m := MondayOnOrBefore(dates[0]);
    var last := dates[|dates| - 1];
    if |ws| > 0 {
      var n := |ws| - 1;
      assert ws[n] == m + 7 * n;
      assert m + 7 * n <= last < m + 7 * n + 7;
      DivModSeven(n, last - m - 7 * n);
    }
    assert forall i :: 0 <= i < |ws| ==> ws[i] == expected[i];
  }

  // ---------------------------------------------------------------------------
  // Decision variables.
  // ---------------------------------------------------------------------------

  /** One binary decision variable `shift_u{user}_d{date}_r{request}`, with its
      objective coefficient. The nested `shift_vars[user][date][request]` dictionary is
      kept as the list of its variables in insertion order. */
  datatype Candidate = Candidate(userId: int, date: Day, requestId: int, weight: int)

  /** The variable a request of user `u` on day `d` gives: weight `4 - priority`, so a
      first-priority request weighs 3. */
  function CandidateFor(u: User, d: Day, r: ShiftRequest): Candidate {
    Candidate(u.id, d, r.id, 4 - r.priority)
  }

  /** `[r for r in shift_requests if r.user_id == user.id]`. */
  function RequestsOf(requests: seq<ShiftRequest>, userId: int): (mine: seq<ShiftRequest>)
    ensures forall r :: r in mine <==> r in requests && r.userId == userId
    decreases |requests|
  {
    if requests == [] then []
    else
      var r := requests[|requests| - 1];
      RequestsOf(requests[..|requests| - 1], userId) + (if r.userId == userId then [r] else [])
  }

  /** The variables of user `u` on day `d`: one per request of `u` dated `d`, in list
      order. */
  function DayCandidates(u: User, requests: seq<ShiftRequest>, d: Day): seq<Candidate>
    decreases |requests|
  {
    if requests == [] then []
    else
      var r := requests[|requests| - 1];
      DayCandidates(u, requests[..|requests| - 1], d)
      + (if r.userId == u.id && r.date == d then [CandidateFor(u, d, r)] else [])
  }

  /** The variables of user `u`, day by day. */
  function UserCandidates(u: User, requests: seq<ShiftRequest>, dates: seq<Day>): seq<Candidate>
    decreases |dates|
  {
    if dates == [] then []
    else UserCandidates(u, requests, dates[..|dates| - 1]) + DayCandidates(u, requests, dates[|dates| - 1])
  }

  /** All variables: those of each active user, in user order. */
  function Candidates(users: seq<User>, requests: seq<ShiftRequest>, dates: seq<Day>): seq<Candidate>
    decreases |users|
  {
    if users == [] then []
    else
      var u := users[|users| - 1];
      Candidates(users[..|users| - 1], requests, dates)
      + (if u.isActive then UserCandidates(u, requests, dates) else [])
  }

  /** Filtering the requests by user first changes nothing. */
  lemma {:induction false} DayCandidatesOfOwnRequests(u: User, requests: seq<ShiftRequest>, d: Day)
    ensures DayCandidates(u, RequestsOf(requests, u.id), d) == DayCandidates(u, requests, d)
    decreases |requests|
  {
    if requests != [] {
      var init := requests[..|requests| - 1];
      var r := requests[|requests| - 1];
      DayCandidatesOfOwnRequests(u, init, d);
      var before := RequestsOf(init, u.id);
      if r.userId == u.id {
        var mine := before + [r];
        assert RequestsOf(requests, u.id) == mine;
        assert mine[..|mine| - 1] == before;
        assert DayCandidates(u, mine, d)
            == DayCandidates(u, before, d) + (if r.date == d then [CandidateFor(u, d, r)] else []);
      } else {
        assert RequestsOf(requests, u.id) == before + [];
        assert before + [] == before;
      }
    }
  }

  /** A variable of user `u` on day `d` stands for exactly one request of `u` dated
      `d`. */
  lemma {:induction false} DayCandidatesMembers(u: User, requests: seq<ShiftRequest>, d: Day, c: Candidate)
    ensures c in DayCandidates(u, requests, d) <==>
      exists j :: 0 <= j < |requests| && requests[j].userId == u.id && requests[j].date == d
                  && c == CandidateFor(u, d, requests[j])
    decreases |requests|
  {
    if requests != [] {
      var init := requests[..|requests| - 1];
      DayCandidatesMembers(u, init, d, c);
      if exists j :: 0 <= j < |init| && init[j].userId == u.id && init[j].date == d
                     && c == CandidateFor(u, d, init[j]) {
        var j :| 0 <= j < |init| && init[j].userId == u.id && init[j].date == d
                 && c == CandidateFor(u, d, init[j]);
        assert requests[j] == init[j];
      }
      if exists j :: 0 <= j < |requests| && requests[j].userId == u.id && requests[j].date == d
                     && c == CandidateFor(u, d, requests[j]) {
        var j :| 0 <= j < |requests| && requests[j].userId == u.id && requests[j].date == d
                 && c == CandidateFor(u, d, requests[j]);
        if j < |init| {
          assert init[j] == requests[j];
        }
      }
    }
  }

  /** A variable of user `u` stands for a request of `u` dated inside the range. */
  lemma {:induction false} UserCandidatesMembers(u: User, requests: seq<ShiftRequest>, dates: seq<Day>, c: Candidate)
    ensures c in UserCandidates(u, requests, dates) <==>
      exists j :: 0 <= j < |requests| && requests[j].userId == u.id && requests[j].date in dates
                  && c == CandidateFor(u, requests[j].date, requests[j])
    decreases |dates|
  {
    if dates != [] {
      var init := dates[..|dates| - 1];
      var d := dates[|dates| - 1];
      UserCandidatesMembers(u, requests, init, c);
      DayCandidatesMembers(u, requests, d, c);
      if exists j :: 0 <= j < |requests| && requests[j].userId == u.id && requests[j].date in dates
                     && c == CandidateFor(u, requests[j].date, requests[j]) {
        var j :| 0 <= j < |requests| && requests[j].userId == u.id && requests[j].date in dates
                 && c == CandidateFor(u, requests[j].date, requests[j]);
        if requests[j].date != d {
          assert requests[j].date in init;
        }
      }
    }
  }

  /** Variables exist exactly for the active users' requests dated inside the range,
      each weighted `4 - priority`. */
  lemma {:induction false} CandidatesMembers(users: seq<User>, requests: seq<ShiftRequest>, dates: seq<Day>, c: Candidate)
    ensures c in Candidates(users, requests, dates) <==>
      exists i, j :: 0 <= i < |users| && 0 <= j < |requests| && users[i].isActive
                     && requests[j].userId == users[i].id && requests[j].date in dates
                     && c == CandidateFor(users[i], requests[j].date, requests[j])
    decreases |users|
  {
    if users != [] {
      var init := users[..|users| - 1];
      var u := users[|users| - 1];
      CandidatesMembers(init, requests, dates, c);
      UserCandidatesMembers(u, requests, dates, c);
      if exists i, j :: 0 <= i < |init| && 0 <= j < |requests| && init[i].isActive
                        && requests[j].userId == init[i].id && requests[j].date in dates
                        && c == CandidateFor(init[i], requests[j].date, requests[j]) {
        var i, j :| 0 <= i < |init| && 0 <= j < |requests| && init[i].isActive
                    && requests[j].userId == init[i].id && requests[j].date in dates
                    && c == CandidateFor(init[i], requests[j].date, requests[j]);
        assert users[i] == init[i];
      }
      if exists i, j :: 0 <= i < |users| && 0 <= j < |requests| && users[i].isActive
                        && requests[j].userId == users[i].id && requests[j].date in dates
                        && c == CandidateFor(users[i], requests[j].date, requests[j]) {
        var i, j :| 0 <= i < |users| && 0 <= j < |requests| && users[i].isActive
                    && requests[j].userId == users[i].id && requests[j].date in dates
                    && c == CandidateFor(users[i], requests[j].date, requests[j]);
        if i < |init| {
          assert init[i] == users[i];
        }
      }
    }
  }

  /** `[r for r in shift_requests if r.user_id == user.id]`, as the loop builds it. */
  method FilterUserRequests(requests: seq<ShiftRequest>, userId: int) returns (mine: seq<ShiftRequest>)
    ensures mine == RequestsOf(requests, userId)
  {
    mine := [];
    for k := 0 to |requests|
      invariant mine == RequestsOf(requests[..k], userId)
    {
      assert requests[..k + 1][..k] == requests[..k];
      if requests[k].userId == userId {
        mine := mine + [requests[k]];
      }
    }
    assert requests[..|requests|] == requests;
  }

  /** The innermost loop: one variable per request of the user dated `d`. */
  method AddDayVariables(u: User, mine: seq<ShiftRequest>, d: Day) returns (vars: seq<Candidate>)
    requires forall r :: r in mine ==> r.userId == u.id
    ensures vars == DayCandidates(u, mine, d)
  {
    vars := [];
    for k := 0 to |mine|
      invariant vars == DayCandidates(u, mine[..k], d)
    {
      assert mine[..k + 1][..k] == mine[..k];
      if mine[k].date == d {
        vars := vars + [CandidateFor(u, d, mine[k])];
      }
    }
    assert mine[..|mine|] == mine;
  }

  /** The loop over the dates for one active user. */
  method AddUserVariables(u: User, requests: seq<ShiftRequest>, dates: seq<Day>) returns (vars: seq<Candidate>)
    ensures vars == UserCandidates(u, requests, dates)
  {
    var mine := FilterUserRequests(requests, u.id);
    vars := [];
    for k := 0 to |dates|
      invariant vars == UserCandidates(u, requests, dates[..k])
    {
      assert dates[..k + 1][..k] == dates[..k];
      var day := AddDayVariables(u, mine, dates[k]);
      DayCandidatesOfOwnRequests(u, requests, dates[k]);
      vars := vars + day;
    }
    assert dates[..|dates|] == dates;
  }

  /** The loop over the users that creates the decision variables; inactive users get
      none. */
  method BuildCandidates(users: seq<User>, requests: seq<ShiftRequest>, dates: seq<Day>)
    returns (cands: seq<Candidate>)
    ensures cands == Candidates(users, requests, dates)
  {
    cands := [];
    for i := 0 to |users|
      invariant cands == Candidates(users[..i], requests, dates)
    {
      assert users[..i + 1][..i] == users[..i];
      if users[i].isActive {
        var vars := AddUserVariables(users[i], requests, dates);
        cands := cands + vars;
      }
    }
    assert users[..|users|] == users;
  }

  /** The keys of `shift_vars`: the ids of the active users, in user order. */
  function ActiveIds(users: seq<User>): (ids: seq<int>)
    ensures forall id :: id in ids <==> exists i :: 0 <= i < |users| && users[i].isActive && users[i].id == id
    decreases |users|
  {
    if users == [] then []
    else
      var u := users[|users| - 1];
      var init := users[..|users| - 1];
      assert forall i :: 0 <= i < |init| ==> init[i] == users[i];
      ActiveIds(init) + (if u.isActive then [u.id] else [])
  }

  /** Every variable belongs to an active user and to a day of the range. */
  lemma CandidateOrigin(users: seq<User>, requests: seq<ShiftRequest>, dates: seq<Day>, k: nat)
    requires k < |Candidates(users, requests, dates)|
    ensures var c := Candidates(users, requests, dates)[k];
      c.userId in ActiveIds(users) && c.date in dates
  {
    var c := Candidates(users, requests, dates)[k];
    CandidatesMembers(users, requests, dates, c);
  }

  // ---------------------------------------------------------------------------
  // Constraints.
  // ---------------------------------------------------------------------------

  /** What a constraint is named after in the source. */
  datatype ConstraintKind =
    | MinStaff(date: Day)
    | MaxStaff(date: Day)
    | OneShiftPerDay(userId: int, date: Day)
    | WeeklyHours(userId: int, weekStart: Day)

  datatype Bound = AtLeast(n: int) | AtMost(n: int)

  /** A linear constraint over binary variables: the number of chosen variables among
      `vars` (positions in the variable list) is bounded by `bound`. */
  datatype Constraint = Constraint(kind: ConstraintKind, vars: seq<nat>, bound: Bound)

  /** Candidate `c` is for worker `who` (any worker when `None`) on a day from `lo` to
      `hi`. */
  predicate InWindow(c: Candidate, who: Option<int>, lo: Day, hi: Day) {
    lo <= c.date <= hi && (who.None? || c.userId == who.value)
  }

  /** The positions of the variables in a window, in ascending order: the variables
      the source gathers from `shift_vars` for one day, one worker-day or one
      worker-week. */
  function Select(cands: seq<Candidate>, who: Option<int>, lo: Day, hi: Day): (vars: seq<nat>)
    ensures forall k :: 0 <= k < |vars| ==> vars[k] < |cands| && InWindow(cands[vars[k]], who, lo, hi)
    ensures forall i :: 0 <= i < |cands| && InWindow(cands[i], who, lo, hi) ==> i in vars
    ensures forall k, l :: 0 <= k < l < |vars| ==> vars[k] < vars[l]
    decreases |cands|
  {
    if cands == [] then []
    else
      var n := |cands| - 1;
      Select(cands[..n], who, lo, hi) + (if InWindow(cands[n], who, lo, hi) then [n] else [])
  }

  /** Gathers the variables of a window by one pass over the variable list. */
  method SelectVariables(cands: seq<Candidate>, who: Option<int>, lo: Day, hi: Day) returns (vars: seq<nat>)
    ensures vars == Select(cands, who, lo, hi)
  {
    vars := [];
    for i := 0 to |cands|
      invariant vars == Select(cands[..i], who, lo, hi)
    {
      assert cands[..i + 1][..i] == cands[..i];
      if InWindow(cands[i], who, lo, hi) {
        vars := vars + [i];
      }
    }
    assert cands[..|cands|] == cands;
  }

  /** Constraint 1: on each day with at least one variable, between `minStaff` and
      `maxStaff` of that day's variables are chosen. */
  function StaffConstraints(cands: seq<Candidate>, dates: seq<Day>, cfg: Config): seq<Constraint>
    decreases |dates|
  {
    if dates == [] then []
    else
      var d := dates[|dates| - 1];
      var v := Select(cands, None, d, d);
      StaffConstraints(cands, dates[..|dates| - 1], cfg)
      + (if v == [] then []
         else [Constraint(MinStaff(d), v, AtLeast(cfg.minStaff)), Constraint(MaxStaff(d), v, AtMost(cfg.maxStaff))])
  }

  /** Constraint 2 for one worker: at most one chosen variable per day. */
  function DayCaps(cands: seq<Candidate>, userId: int, dates: seq<Day>): seq<Constraint>
    decreases |dates|
  {
    if dates == [] then []
    else
      var d := dates[|dates| - 1];
      DayCaps(cands, userId, dates[..|dates| - 1])
      + [Constraint(OneShiftPerDay(userId, d), Select(cands, Some(userId), d, d), AtMost(1))]
  }

  function OneShiftConstraints(cands: seq<Candidate>, ids: seq<int>, dates: seq<Day>): seq<Constraint>
    decreases |ids|
  {
    if ids == [] then []
    else OneShiftConstraints(cands, ids[..|ids| - 1], dates) + DayCaps(cands, ids[|ids| - 1], dates)
  }

  /** Constraint 3 for one worker: in each listed week that has variables of the
      worker, at most `maxDays` of them are chosen. */
  function WeekCaps(cands: seq<Candidate>, userId: int, weekStarts: seq<Day>, maxDays: int): seq<Constraint>
    decreases |weekStarts|
  {
    if weekStarts == [] then []
    else
      var w := weekStarts[|weekStarts| - 1];
      var v := Select(cands, Some(userId), w, w + 6);
      WeekCaps(cands, userId, weekStarts[..|weekStarts| - 1], maxDays)
      + (if v == [] then [] else [Constraint(WeeklyHours(userId, w), v, AtMost(maxDays))])
  }

  function WeeklyConstraints(cands: seq<Candidate>, ids: seq<int>, weekStarts: seq<Day>, maxDays: int)
    : seq<Constraint>
    decreases |ids|
  {
    if ids == [] then []
    else WeeklyConstraints(cands, ids[..|ids| - 1], weekStarts, maxDays) + WeekCaps(cands, ids[|ids| - 1], weekStarts, maxDays)
  }

  /** The problem handed to the solver: the variables (with their objective weights)
      and the constraints. */
  datatype Problem = Problem(candidates: seq<Candidate>, constraints: seq<Constraint>)

  /** The problem `create_shifts` builds. */
  function BuildProblem(users: seq<User>, requests: seq<ShiftRequest>, start: Day, end: Day, cfg: Config)
    : Problem
  {
    var dates := DateRange(start, end);
    var cands := Candidates(users, requests, dates);
    var ids := ActiveIds(users);
    Problem(cands,
            StaffConstraints(cands, dates, cfg)
            + OneShiftConstraints(cands, ids, dates)
            + WeeklyConstraints(cands, ids, WeekStarts(dates), MaxDaysPerWeek(cfg)))
  }

  /** Constraint 1, as the loop over the dates emits it. */
  method BuildStaffConstraints(cands: seq<Candidate>, dates: seq<Day>, cfg: Config) returns (cs: seq<Constraint>)
    ensures cs == StaffConstraints(cands, dates, cfg)
  {
    cs := [];
    for k := 0 to |dates|
      invariant cs == StaffConstraints(cands, dates[..k], cfg)
    {
      assert dates[..k + 1][..k] == dates[..k];
      var d := dates[k];
      var workers := SelectVariables(cands, None, d, d);
      if workers != [] {
        cs := cs + [Constraint(MinStaff(d), workers, AtLeast(cfg.minStaff)),
                    Constraint(MaxStaff(d), workers, AtMost(cfg.maxStaff))];
      }
    }
    assert dates[..|dates|] == dates;
  }

  /** Constraint 2, as the nested loop over workers and their days emits it. */
  method BuildOneShiftConstraints(cands: seq<Candidate>, ids: seq<int>, dates: seq<Day>) returns (cs: seq<Constraint>)
    ensures cs == OneShiftConstraints(cands, ids, dates)
  {
    cs := [];
    for i := 0 to |ids|
      invariant cs == OneShiftConstraints(cands, ids[..i], dates)
    {
      assert ids[..i + 1][..i] == ids[..i];
      ghost var before := cs;
      for k := 0 to |dates|
        invariant cs == before + DayCaps(cands, ids[i], dates[..k])
      {
        assert dates[..k + 1][..k] == dates[..k];
        var d := dates[k];
        var vars := SelectVariables(cands, Some(ids[i]), d, d);
        cs := cs + [Constraint(OneShiftPerDay(ids[i], d), vars, AtMost(1))];
      }
      assert dates[..|dates|] == dates;
    }
    assert ids[..|ids|] == ids;
  }

  /** Constraint 3, as the nested loop over workers and week starts emits it. */
  method BuildWeeklyConstraints(cands: seq<Candidate>, ids: seq<int>, weekStarts: seq<Day>, maxDays: int)
    returns (cs: seq<Constraint>)
    ensures cs == WeeklyConstraints(cands, ids, weekStarts, maxDays)
  {
    cs := [];
    for i := 0 to |ids|
      invariant cs == WeeklyConstraints(cands, ids[..i], weekStarts, maxDays)
    {
      assert ids[..i + 1][..i] == ids[..i];
      ghost var before := cs;
      for k := 0 to |weekStarts|
        invariant cs == before + WeekCaps(cands, ids[i], weekStarts[..k], maxDays)
      {
        assert weekStarts[..k + 1][..k] == weekStarts[..k];
        var w := weekStarts[k];
        var weekShifts := SelectVariables(cands, Some(ids[i]), w, w + 6);
        if weekShifts != [] {
          cs := cs + [Constraint(WeeklyHours(ids[i], w), weekShifts, AtMost(maxDays))];
        }
      }
      assert weekStarts[..|weekStarts|] == weekStarts;
    }
    assert ids[..|ids|] == ids;
  }

  // ---------------------------------------------------------------------------
  // Feasibility.
  // ---------------------------------------------------------------------------

  /** How many of `vars` are chosen (set to 1). */
  function Count(vars: seq<nat>, chosen: set<nat>): (n: nat)
    ensures n <= |vars|
    decreases |vars|
  {
    if vars == [] then 0
    else Count(vars[..|vars| - 1], chosen) + (if vars[|vars| - 1] in chosen then 1 else 0)
  }

  predicate Holds(c: Constraint, chosen: set<nat>) {
    match c.bound
    case AtLeast(n) => Count(c.vars, chosen) >= n
    case AtMost(n) => Count(c.vars, chosen) <= n
  }

  /** A selection (the variables set to 1) that meets every constraint. */
  predicate Feasible(p: Problem, chosen: set<nat>) {
    forall k :: 0 <= k < |p.constraints| ==> Holds(p.constraints[k], chosen)
  }

  /** A feasible selection meets each constraint of the problem. */
  lemma FeasibleHolds(p: Problem, chosen: set<nat>, c: Constraint)
    requires Feasible(p, chosen) && c in p.constraints
    ensures Holds(c, chosen)
  {
    var k :| 0 <= k < |p.constraints| && p.constraints[k] == c;
  }

  /** Every day with variables gets both staffing bounds. */
  lemma {:induction false} StaffConstraintsPresent(cands: seq<Candidate>, dates: seq<Day>, cfg: Config, d: Day)
    requires d in dates && Select(cands, None, d, d) != []
    ensures Constraint(MinStaff(d), Select(cands, None, d, d), AtLeast(cfg.minStaff)) in StaffConstraints(cands, dates, cfg)
    ensures Constraint(MaxStaff(d), Select(cands, None, d, d), AtMost(cfg.maxStaff)) in StaffConstraints(cands, dates, cfg)
    decreases |dates|
  {
    var init := dates[..|dates| - 1];
    if d != dates[|dates| - 1] {
      assert d in init;
      StaffConstraintsPresent(cands, init, cfg, d);
    }
  }

  /** Staffing bounds are imposed only on days of the range that have variables, and
      they bound exactly that day's variables. */
  lemma {:induction false} StaffConstraintsOnlyWithCandidates(cands: seq<Candidate>, dates: seq<Day>, cfg: Config, c: Constraint)
    requires c in StaffConstraints(cands, dates, cfg)
    ensures (c.kind.MinStaff? || c.kind.MaxStaff?) && c.kind.date in dates
    ensures c.vars == Select(cands, None, c.kind.date, c.kind.date) != []
    ensures c.bound == if c.kind.MinStaff? then AtLeast(cfg.minStaff) else AtMost(cfg.maxStaff)
    decreases |dates|
  {
    var init := dates[..|dates| - 1];
    if c in StaffConstraints(cands, init, cfg) {
      StaffConstraintsOnlyWithCandidates(cands, init, cfg, c);
    }
  }

  lemma {:induction false} DayCapPresent(cands: seq<Candidate>, userId: int, dates: seq<Day>, d: Day)
    requires d in dates
    ensures Constraint(OneShiftPerDay(userId, d), Select(cands, Some(userId), d, d), AtMost(1)) in DayCaps(cands, userId, dates)
    decreases |dates|
  {
    var init := dates[..|dates| - 1];
    if d != dates[|dates| - 1] {
      assert d in init;
      DayCapPresent(cands, userId, init, d);
    }
  }

  /** Every active worker gets a one-shift cap on every day of the range. */
  lemma {:induction false} OneShiftConstraintPresent(cands: seq<Candidate>, ids: seq<int>, dates: seq<Day>, userId: int, d: Day)
    requires userId in ids && d in dates
    ensures Constraint(OneShiftPerDay(userId, d), Select(cands, Some(userId), d, d), AtMost(1))
            in OneShiftConstraints(cands, ids, dates)
    decreases |ids|
  {
    var init := ids[..|ids| - 1];
    if userId == ids[|ids| - 1] {
      DayCapPresent(cands, userId, dates, d);
    } else {
      assert userId in init;
      OneShiftConstraintPresent(cands, init, dates, userId, d);
    }
  }

  lemma {:induction false} WeekCapPresent(cands: seq<Candidate>, userId: int, weekStarts: seq<Day>, maxDays: int, w: Day)
    requires w in weekStarts && Select(cands, Some(userId), w, w + 6) != []
    ensures Constraint(WeeklyHours(userId, w), Select(cands, Some(userId), w, w + 6), AtMost(maxDays))
            in WeekCaps(cands, userId, weekStarts, maxDays)
    decreases |weekStarts|
  {
    var init := weekStarts[..|weekStarts| - 1];
    if w != weekStarts[|weekStarts| - 1] {
      assert w in init;
      WeekCapPresent(cands, userId, init, maxDays, w);
    }
  }

  /** Every active worker gets a weekly cap on every listed week that holds some of
      the worker's variables. */
  lemma {:induction false} WeeklyConstraintPresent(cands: seq<Candidate>, ids: seq<int>, weekStarts: seq<Day>,
                                                   maxDays: int, userId: int, w: Day)
    requires userId in ids && w in weekStarts && Select(cands, Some(userId), w, w + 6) != []
    ensures Constraint(WeeklyHours(userId, w), Select(cands, Some(userId), w, w + 6), AtMost(maxDays))
            in WeeklyConstraints(cands, ids, weekStarts, maxDays)
    decreases |ids|
  {
    var init := ids[..|ids| - 1];
    if userId == ids[|ids| - 1] {
      WeekCapPresent(cands, userId, weekStarts, maxDays, w);
    } else {
      assert userId in init;
      WeeklyConstraintPresent(cands, init, weekStarts, maxDays, userId, w);
    }
  }

  /** A window that no variable falls in selects nothing. */
  lemma SelectNothing(cands: seq<Candidate>, who: Option<int>, lo: Day, hi: Day)
    requires forall i :: 0 <= i < |cands| ==> !InWindow(cands[i], who, lo, hi)
    ensures Select(cands, who, lo, hi) == []
  {
  }

  /** In any feasible selection, no worker is chosen twice on one day. */
  lemma FeasibleOneShiftPerDay(users: seq<User>, requests: seq<ShiftRequest>, start: Day, end: Day,
                               cfg: Config, chosen: set<nat>, userId: int, d: Day)
    requires Feasible(BuildProblem(users, requests, start, end, cfg), chosen)
    ensures Count(Select(BuildProblem(users, requests, start, end, cfg).candidates, Some(userId), d, d), chosen) <= 1
  {
    var p := BuildProblem(users, requests, start, end, cfg);
    var dates := DateRange(start, end);
    var cands := p.candidates;
    var ids := ActiveIds(users);
    if userId in ids && d in dates {
      OneShiftConstraintPresent(cands, ids, dates, userId, d);
      FeasibleHolds(p, chosen, Constraint(OneShiftPerDay(userId, d), Select(cands, Some(userId), d, d), AtMost(1)));
    } else {
      forall i | 0 <= i < |cands|
        ensures !InWindow(cands[i], Some(userId), d, d)
      {
        CandidateOrigin(users, requests, dates, i);
      }
      SelectNothing(cands, Some(userId), d, d);
    }
  }

  /** A Monday is the Monday of every day of its week. */
  lemma MondayOfItsWeek(w: Day, d: Day)
    requires Weekday(w) == 0 && w <= d < w + 7
    ensures MondayOnOrBefore(d) == w
  {
    var q := (w + 6) / 7;
    DivModSeven(q, 0);
    DivModSeven(q, d - w);
  }

  /** In any feasible selection, no worker is chosen on more than
      `MAX_WORK_HOURS_PER_WEEK // 8` days of any Monday-to-Sunday week. */
  lemma FeasibleWeeklyCap(users: seq<User>, requests: seq<ShiftRequest>, start: Day, end: Day,
                          cfg: Config, chosen: set<nat>, userId: int, w: Day)
    requires Feasible(BuildProblem(users, requests, start, end, cfg), chosen)
    requires Weekday(w) == 0
    ensures var week := Select(BuildProblem(users, requests, start, end, cfg).candidates, Some(userId), w, w + 6);
      week == [] || Count(week, chosen) <= MaxDaysPerWeek(cfg)
  {
    var p := BuildProblem(users, requests, start, end, cfg);
    var dates := DateRange(start, end);
    var cands := p.candidates;
    var ids := ActiveIds(users);
    var week := Select(cands, Some(userId), w, w + 6);
    if week != [] {
      var i := week[0];
      var day := cands[i].date;
      CandidateOrigin(users, requests, dates, i);
      var ws := WeekStarts(dates);
      WeekStartsCover(dates, day);
      var j :| 0 <= j < |ws| && ws[j] <= day < ws[j] + 7;
      WeekStartsAreMondays(dates, j);
      MondayOfItsWeek(w, day);
      MondayOfItsWeek(ws[j], day);
      WeeklyConstraintPresent(cands, ids, ws, MaxDaysPerWeek(cfg), userId, w);
      FeasibleHolds(p, chosen, Constraint(WeeklyHours(userId, w), week, AtMost(MaxDaysPerWeek(cfg))));
    }
  }

  /** In any feasible selection, every day that has variables is staffed with between
      `MIN_STAFF_PER_SHIFT` and `MAX_STAFF_PER_SHIFT` workers. */
  lemma FeasibleStaffing(users: seq<User>, requests: seq<ShiftRequest>, start: Day, end: Day,
                         cfg: Config, chosen: set<nat>, d: Day)
    requires Feasible(BuildProblem(users, requests, start, end, cfg), chosen)
    ensures var day := Select(BuildProblem(users, requests, start, end, cfg).candidates, None, d, d);
      day == [] || cfg.minStaff <= Count(day, chosen) <= cfg.maxStaff
  {
    var p := BuildProblem(users, requests, start, end, cfg);
    var dates := DateRange(start, end);
    var cands := p.candidates;
    var day := Select(cands, None, d, d);
    if day != [] {
      CandidateOrigin(users, requests, dates, day[0]);
      StaffConstraintsPresent(cands, dates, cfg, d);
      FeasibleHolds(p, chosen, Constraint(MinStaff(d), day, AtLeast(cfg.minStaff)));
      FeasibleHolds(p, chosen, Constraint(MaxStaff(d), day, AtMost(cfg.maxStaff)));
    }
  }

  /** A day with some requests but fewer than `MIN_STAFF_PER_SHIFT` of them makes the
      whole problem infeasible, so nothing is scheduled for any day. */
  lemma TooFewCandidatesInfeasible(users: seq<User>, requests: seq<ShiftRequest>, start: Day, end: Day,
                                   cfg: Config, d: Day, chosen: set<nat>)
    requires var day := Select(BuildProblem(users, requests, start, end, cfg).candidates, None, d, d);
      0 < |day| < cfg.minStaff
    ensures !Feasible(BuildProblem(users, requests, start, end, cfg), chosen)
  {
    if Feasible(BuildProblem(users, requests, start, end, cfg), chosen) {
      FeasibleStaffing(users, requests, start, end, cfg, chosen, d);
    }
  }

  // ---------------------------------------------------------------------------
  // Reading the answer back.
  // ---------------------------------------------------------------------------

  /** The solver's answer: optimal with the variables set to 1, or any other status. */
  datatype SolveOutcome = Optimal(chosen: set<nat>) | NotOptimal

  /** `next(r for r in shift_requests if r.id == request_id)`: the first request with
      that id. */
  function FirstWithId(requests: seq<ShiftRequest>, id: int): (r: Option<ShiftRequest>)
    ensures r.Some? ==> r.value in requests && r.value.id == id
    ensures r.None? ==> forall q :: q in requests ==> q.id != id
    ensures forall j :: 0 <= j < |requests| && requests[j].id == id
                        && (forall k :: 0 <= k < |requests| && requests[k].id == id ==> k == j)
                        ==> r == Some(requests[j])
    decreases |requests|
  {
    if requests == [] then None
    else if requests[0].id == id then Some(requests[0])
    else FirstWithId(requests[1..], id)
  }

  /** Every variable's request can be looked up by id. */
  predicate RequestsKnown(cands: seq<Candidate>, requests: seq<ShiftRequest>) {
    forall i :: 0 <= i < |cands| ==> FirstWithId(requests, cands[i].requestId).Some?
  }

  /** The draft shift for a chosen variable: the variable's worker and day, the
      request's times. */
  function ShiftFor(c: Candidate, r: ShiftRequest, groupId: string, createdBy: int, now: Timestamp): Shift {
    NewShift(groupId, c.userId, c.date, r.startTime, r.endTime, createdBy, now)
  }

  /** The shifts read back from an optimal answer, in variable order. */
  function Extract(cands: seq<Candidate>, requests: seq<ShiftRequest>, chosen: set<nat>,
                   groupId: string, createdBy: int, now: Timestamp): (out: seq<Shift>)
    requires RequestsKnown(cands, requests)
    ensures |out| <= |cands|
    ensures forall s :: s in out ==>
      s.status == Draft && s.groupId == groupId && s.createdBy == createdBy && s.createdAt == Some(now)
    decreases |cands|
  {
    if cands == [] then []
    else
      var n := |cands| - 1;
      var c := cands[n];
      Extract(cands[..n], requests, chosen, groupId, createdBy, now)
      + (if n in chosen then [ShiftFor(c, FirstWithId(requests, c.requestId).value, groupId, createdBy, now)] else [])
  }

  /** How many of `shifts` are worker `userId`'s, on days `lo` to `hi`. */
  function ShiftCount(shifts: seq<Shift>, userId: int, lo: Day, hi: Day): nat
    decreases |shifts|
  {
    if shifts == [] then 0
    else
      var s := shifts[|shifts| - 1];
      ShiftCount(shifts[..|shifts| - 1], userId, lo, hi) + (if s.userId == userId && lo <= s.date <= hi then 1 else 0)
  }

  /** One more variable adds one shift in the window exactly when it is chosen and in
      the window. */
  lemma ExtractStep(cands: seq<Candidate>, requests: seq<ShiftRequest>, chosen: set<nat>,
                    groupId: string, createdBy: int, now: Timestamp, userId: int, lo: Day, hi: Day)
    requires cands != [] && RequestsKnown(cands, requests) && RequestsKnown(cands[..|cands| - 1], requests)
    ensures var n := |cands| - 1;
      ShiftCount(Extract(cands, requests, chosen, groupId, createdBy, now), userId, lo, hi)
      == ShiftCount(Extract(cands[..n], requests, chosen, groupId, createdBy, now), userId, lo, hi)
         + (if n in chosen && InWindow(cands[n], Some(userId), lo, hi) then 1 else 0)
  {
    var n := |cands| - 1;
    var prev := Extract(cands[..n], requests, chosen, groupId, createdBy, now);
    var out := Extract(cands, requests, chosen, groupId, createdBy, now);
    if n in chosen {
      var s := ShiftFor(cands[n], FirstWithId(requests, cands[n].requestId).value, groupId, createdBy, now);
      assert out == prev + [s] && out[..|out| - 1] == prev;
    } else {
      assert out == prev;
    }
  }

  /** One more variable is counted exactly when it is chosen and in the window. */
  lemma SelectStep(cands: seq<Candidate>, chosen: set<nat>, who: Option<int>, lo: Day, hi: Day)
    requires cands != []
    ensures var n := |cands| - 1;
      Count(Select(cands, who, lo, hi), chosen)
      == Count(Select(cands[..n], who, lo, hi), chosen) + (if n in chosen && InWindow(cands[n], who, lo, hi) then 1 else 0)
  {
    var n := |cands| - 1;
    var sel := Select(cands[..n], who, lo, hi);
    var full := Select(cands, who, lo, hi);
    if InWindow(cands[n], who, lo, hi) {
      assert full == sel + [n] && full[..|full| - 1] == sel;
    } else {
      assert full == sel;
    }
  }

  /** The shifts read back for a worker and a stretch of days are exactly the chosen
      variables there. */
  lemma {:induction false} ExtractCount(cands: seq<Candidate>, requests: seq<ShiftRequest>, chosen: set<nat>,
                                        groupId: string, createdBy: int, now: Timestamp,
                                        userId: int, lo: Day, hi: Day)
    requires RequestsKnown(cands, requests)
    ensures ShiftCount(Extract(cands, requests, chosen, groupId, createdBy, now), userId, lo, hi)
            == Count(Select(cands, Some(userId), lo, hi), chosen)
    decreases |cands|
  {
    if cands != [] {
      var init := cands[..|cands| - 1];
      assert RequestsKnown(init, requests) by {
        assert forall i :: 0 <= i < |init| ==> init[i] == cands[i];
      }
      ExtractCount(init, requests, chosen, groupId, createdBy, now, userId, lo, hi);
      ExtractStep(cands, requests, chosen, groupId, createdBy, now, userId, lo, hi);
      SelectStep(cands, chosen, Some(userId), lo, hi);
    }
  }

  /** Every shift read back comes from one chosen variable. */
  lemma {:induction false} ExtractMembers(cands: seq<Candidate>, requests: seq<ShiftRequest>, chosen: set<nat>,
                                          groupId: string, createdBy: int, now: Timestamp, s: Shift)
    requires RequestsKnown(cands, requests)
    requires s in Extract(cands, requests, chosen, groupId, createdBy, now)
    ensures exists k ::
      0 <= k < |cands| && k in chosen
      && s == ShiftFor(cands[k], FirstWithId(requests, cands[k].requestId).value, groupId, createdBy, now)
    decreases |cands|
  {
    var n := |cands| - 1;
    var init := cands[..n];
    assert forall i :: 0 <= i < |init| ==> init[i] == cands[i];
    var prev := Extract(init, requests, chosen, groupId, createdBy, now);
    if s in prev {
      ExtractMembers(init, requests, chosen, groupId, createdBy, now, s);
      var k :| 0 <= k < |init| && k in chosen
        && s == ShiftFor(init[k], FirstWithId(requests, init[k].requestId).value, groupId, createdBy, now);
      assert init[k] == cands[k];
    }
  }

  /** The variables of the built problem all name a request that the lookup finds. */
  lemma CandidatesRequestsKnown(users: seq<User>, requests: seq<ShiftRequest>, dates: seq<Day>)
    ensures RequestsKnown(Candidates(users, requests, dates), requests)
  {
    var cands := Candidates(users, requests, dates);
    forall i | 0 <= i < |cands|
      ensures FirstWithId(requests, cands[i].requestId).Some?
    {
      CandidatesMembers(users, requests, dates, cands[i]);
      var a, j :| 0 <= a < |users| && 0 <= j < |requests| && users[a].isActive
                  && requests[j].userId == users[a].id && requests[j].date in dates
                  && cands[i] == CandidateFor(users[a], requests[j].date, requests[j]);
      assert requests[j] in requests;
    }
  }

  /** The result-extraction loop: a draft shift for each variable set to 1. */
  method ExtractShifts(cands: seq<Candidate>, requests: seq<ShiftRequest>, chosen: set<nat>,
                       groupId: string, createdBy: int, now: Timestamp)
    returns (shifts: seq<Shift>)
    requires RequestsKnown(cands, requests)
    ensures shifts == Extract(cands, requests, chosen, groupId, createdBy, now)
  {
    shifts := [];
    for i := 0 to |cands|
      invariant RequestsKnown(cands[..i], requests)
      invariant shifts == Extract(cands[..i], requests, chosen, groupId, createdBy, now)
    {
      assert cands[..i + 1][..i] == cands[..i];
      assert RequestsKnown(cands[..i + 1], requests) by {
        assert forall k :: 0 <= k < i + 1 ==> cands[..i + 1][k] == cands[k];
      }
      if i in chosen {
        var request := FirstWithId(requests, cands[i].requestId).value;
        shifts := shifts + [ShiftFor(cands[i], request, groupId, createdBy, now)];
      }
    }
    assert cands[..|cands|] == cands;
  }

  /** `create_shifts`: builds the variables and constraints, asks `solve` (the solver,
      a parameter here) for an answer, and reads back the chosen shifts when the answer
      is optimal; any other status gives no shifts. `now` is the creation time. */
  method CreateShifts(start: Day, end: Day, requests: seq<ShiftRequest>, users: seq<User>,
                      groupId: string, createdBy: int, now: Timestamp, cfg: Config,
                      solve: Problem -> SolveOutcome)
    returns (shifts: seq<Shift>)
    ensures var p := BuildProblem(users, requests, start, end, cfg);
      RequestsKnown(p.candidates, requests)
      && (solve(p).NotOptimal? ==> shifts == [])
      && (solve(p).Optimal? ==> shifts == Extract(p.candidates, requests, solve(p).chosen, groupId, createdBy, now))
  {
    var dates := GenerateDateRange(start, end);
    var cands := BuildCandidates(users, requests, dates);
    var ids := ActiveIdsOf(users);
    var staff := BuildStaffConstraints(cands, dates, cfg);
    var oneShift := BuildOneShiftConstraints(cands, ids, dates);
    var weekStarts := GetWeekStarts(dates);
    var weekly := BuildWeeklyConstraints(cands, ids, weekStarts, MaxDaysPerWeek(cfg));
    var problem := Problem(cands, staff + oneShift + weekly);
    CandidatesRequestsKnown(users, requests, dates);
    var outcome := solve(problem);
    shifts := [];
    if outcome.Optimal? {
      shifts := ExtractShifts(cands, requests, outcome.chosen, groupId, createdBy, now);
    }
  }

  /** The keys of `shift_vars`, as the loop over the users fills them. */
  method ActiveIdsOf(users: seq<User>) returns (ids: seq<int>)
    ensures ids == ActiveIds(users)
  {
    ids := [];
    for i := 0 to |users|
      invariant ids == ActiveIds(users[..i])
    {
      assert users[..i + 1][..i] == users[..i];
      if users[i].isActive {
        ids := ids + [users[i].id];
      }
    }
    assert users[..|users|] == users;
  }

  /** The schedule read back from a feasible answer never books a worker twice on one
      day. */
  lemma ScheduleOneShiftPerDay(users: seq<User>, requests: seq<ShiftRequest>, start: Day, end: Day,
                               cfg: Config, chosen: set<nat>, groupId: string, createdBy: int,
                               now: Timestamp, userId: int, d: Day)
    requires Feasible(BuildProblem(users, requests, start, end, cfg), chosen)
    ensures var p := BuildProblem(users, requests, start, end, cfg);
      RequestsKnown(p.candidates, requests)
      && ShiftCount(Extract(p.candidates, requests, chosen, groupId, createdBy, now), userId, d, d) <= 1
  {
    var p := BuildProblem(users, requests, start, end, cfg);
    CandidatesRequestsKnown(users, requests, DateRange(start, end));
    ExtractCount(p.candidates, requests, chosen, groupId, createdBy, now, userId, d, d);
    FeasibleOneShiftPerDay(users, requests, start, end, cfg, chosen, userId, d);
  }

  /** The schedule read back from a feasible answer gives no worker more than
      `MAX_WORK_HOURS_PER_WEEK // 8` shifts in any Monday-to-Sunday week. */
  lemma ScheduleWeeklyCap(users: seq<User>, requests: seq<ShiftRequest>, start: Day, end: Day,
                          cfg: Config, chosen: set<nat>, groupId: string, createdBy: int,
                          now: Timestamp, userId: int, w: Day)
    requires Feasible(BuildProblem(users, requests, start, end, cfg), chosen)
    requires Weekday(w) == 0 && MaxDaysPerWeek(cfg) >= 0
    ensures var p := BuildProblem(users, requests, start, end, cfg);
      RequestsKnown(p.candidates, requests)
      && ShiftCount(Extract(p.candidates, requests, chosen, groupId, createdBy, now), userId, w, w + 6)
         <= MaxDaysPerWeek(cfg)
  {
    var p := BuildProblem(users, requests, start, end, cfg);
    CandidatesRequestsKnown(users, requests, DateRange(start, end));
    ExtractCount(p.candidates, requests, chosen, groupId, createdBy, now, userId, w, w + 6);
    FeasibleWeeklyCap(users, requests, start, end, cfg, chosen, userId, w);
  }

  /** With request ids unique (they are primary keys), every shift read back is an
      active worker's own request: its worker, day, start and end are the request's. */
  lemma ScheduleFromRequests(users: seq<User>, requests: seq<ShiftRequest>, start: Day, end: Day,
                             cfg: Config, chosen: set<nat>, groupId: string, createdBy: int,
                             now: Timestamp, s: Shift)
    requires forall j, k :: 0 <= j < |requests| && 0 <= k < |requests| && requests[j].id == requests[k].id ==> j == k
    requires RequestsKnown(BuildProblem(users, requests, start, end, cfg).candidates, requests)
    requires s in Extract(BuildProblem(users, requests, start, end, cfg).candidates, requests, chosen,
                          groupId, createdBy, now)
    ensures exists j ::
      0 <= j < |requests| && requests[j].userId == s.userId && requests[j].date == s.date
      && requests[j].startTime == s.startTime && requests[j].endTime == s.endTime
      && start <= s.date <= end
    ensures exists i :: 0 <= i < |users| && users[i].isActive && users[i].id == s.userId
  {
    var dates := DateRange(start, end);
    var cands := Candidates(users, requests, dates);
    assert BuildProblem(users, requests, start, end, cfg).candidates == cands;
    ExtractMembers(cands, requests, chosen, groupId, createdBy, now, s);
    var k :| 0 <= k < |cands| && k in chosen
      && s == ShiftFor(cands[k], FirstWithId(requests, cands[k].requestId).value, groupId, createdBy, now);
    var a, j := CandidateRequest(users, requests, dates, cands[k]);
  }

  /** With unique request ids, the lookup of a variable's request finds the very
      request (of an active user, dated in the range) the variable was made for. */
  lemma CandidateRequest(users: seq<User>, requests: seq<ShiftRequest>, dates: seq<Day>, c: Candidate)
    returns (a: nat, j: nat)
    requires forall j, k :: 0 <= j < |requests| && 0 <= k < |requests| && requests[j].id == requests[k].id ==> j == k
    requires c in Candidates(users, requests, dates)
    ensures a < |users| && j < |requests| && users[a].isActive && users[a].id == c.userId
    ensures requests[j].userId == c.userId && requests[j].date == c.date && c.date in dates
    ensures FirstWithId(requests, c.requestId) == Some(requests[j])
  {
    CandidatesMembers(users, requests, dates, c);
    a, j :| 0 <= a < |users| && 0 <= j < |requests| && users[a].isActive
            && requests[j].userId == users[a].id && requests[j].date in dates
            && c == CandidateFor(users[a], requests[j].date, requests[j]);
  }

  // ---------------------------------------------------------------------------
  // Checking a schedule.
  // ---------------------------------------------------------------------------

  /** `min(s.date for s in shifts)`. */
  function MinDate(shifts: seq<Shift>): (d: Day)
    requires shifts != []
    ensures exists i :: 0 <= i < |shifts| && shifts[i].date == d
    ensures forall i :: 0 <= i < |shifts| ==> d <= shifts[i].date
    decreases |shifts|
  {
    var last := shifts[|shifts| - 1].date;
    if |shifts| == 1 then last
    else
      var m := MinDate(shifts[..|shifts| - 1]);
      if m <= last then m else last
  }

  /** `max(s.date for s in shifts)`. */
  function MaxDate(shifts: seq<Shift>): (d: Day)
    requires shifts != []
    ensures exists i :: 0 <= i < |shifts| && shifts[i].date == d
    ensures forall i :: 0 <= i < |shifts| ==> shifts[i].date <= d
    decreases |shifts|
  {
    var last := shifts[|shifts| - 1].date;
    if |shifts| == 1 then last
    else
      var m := MaxDate(shifts[..|shifts| - 1]);
      if m >= last then m else last
  }

  /** There are never more distinct workers than shifts. */
  lemma {:induction false} UniqueUsersAtMostShifts(shifts: seq<Shift>)
    ensures |UserIds(shifts)| <= |shifts|
    decreases |shifts|
  {
    if shifts != [] {
      var init := shifts[..|shifts| - 1];
      UniqueUsersAtMostShifts(init);
      assert UserIds(shifts) == UserIds(init) + {shifts[|shifts| - 1].userId} by {
        assert shifts == init + [shifts[|shifts| - 1]];
      }
    }
  }

  /** The statistics `validate_shifts` reports. */
  datatype ValidationStats = ValidationStats(
    totalShifts: nat,
    uniqueUsers: nat,
    start: Option<Day>,
    end: Option<Day>,
    violations: seq<Violation>)

  /** `validate_shifts`: the labour-law check over the schedule, plus its size, its
      number of distinct workers and its first and last dates (none for an empty
      schedule). */
  method ValidateShifts(shifts: seq<Shift>, names: map<int, string>, limits: Limits)
    returns (stats: ValidationStats)
    ensures stats.totalShifts == |shifts| && stats.uniqueUsers == |UserIds(shifts)|
    ensures stats.uniqueUsers <= stats.totalShifts
    ensures stats.start.None? <==> shifts == []
    ensures stats.end.None? <==> shifts == []
    ensures stats.start.Some? ==> stats.start.value == MinDate(shifts)
    ensures stats.end.Some? ==> stats.end.value == MaxDate(shifts)
    ensures ViolationReport(shifts, names, limits, stats.violations)
  {
    var violations := CheckAllViolations(shifts, names, limits);
    UniqueUsersAtMostShifts(shifts);
    var first: Option<Day> := None;
    var last: Option<Day> := None;
    if shifts != [] {
      first := Some(MinDate(shifts));
      last := Some(MaxDate(shifts));
    }
    stats := ValidationStats(|shifts|, |UserIds(shifts)|, first, last, violations);
  }
}
