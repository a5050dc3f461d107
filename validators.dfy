/** Input validators for chat messages and identifiers (utils/validators.py). */
module Validators {
  import opened Wrappers
  import opened Text
  import opened Clock
  import opened Calendar
  import ShiftRequests

  // ---------------------------------------------------------------------------
  // Regular-expression building blocks.
  //
  // Every variable-length piece of the patterns below (`\d{1,2}`, `\s+`, `\s*`) is
  // followed by a piece that cannot start with a character of its own class, so the
  // regex engine's backtracking never revisits a greedy choice: the first (and only)
  // way a pattern can match at a position is found by taking each run greedily.
  // ---------------------------------------------------------------------------

  /** Length of the run of digits at `i`, capped at `max` (a greedy `\d{1,max}`). */
  function DigitRun(s: string, i: nat, max: nat): (n: nat)
    requires i <= |s|
    ensures n <= max && i + n <= |s|
    ensures forall k :: i <= k < i + n ==> IsDigit(s[k])
    ensures n < max && i + n < |s| ==> !IsDigit(s[i + n])
    decreases max
  {
    if max == 0 || i == |s| || !IsDigit(s[i]) then 0 else 1 + DigitRun(s, i + 1, max - 1)
  }

  /** Length of the run of whitespace at `i` (a greedy `\s*`). */
  function SpaceRun(s: string, i: nat): (n: nat)
    requires i <= |s|
    ensures i + n <= |s|
    ensures forall k :: i <= k < i + n ==> IsSpace(s[k])
    ensures i + n < |s| ==> !IsSpace(s[i + n])
    decreases |s| - i
  {
    if i == |s| || !IsSpace(s[i]) then 0 else 1 + SpaceRun(s, i + 1)
  }

  /** `[-/]`, the date separator. */
  predicate IsDateSeparator(c: char) {
    c == '-' || c == '/'
  }

  /** `[-~～]`, the range separator between the two times. */
  predicate IsRangeSeparator(c: char) {
    c == '-' || c == '~' || c == '～'
  }

  /** `\d{1,2}:\d{2}` at `i`: where the time text ends, if a time starts there. */
  function TimeAt(s: string, i: nat): (e: Option<nat>)
    requires i <= |s|
    ensures e.Some? ==> i + 4 <= e.value <= |s| && TimeShaped(s[i..e.value])
  {
    var h := DigitRun(s, i, 2);
    if h == 0 || i + h + 3 > |s| || s[i + h] != ':' || !IsDigit(s[i + h + 1])
       || !IsDigit(s[i + h + 2])
    then None
    else Some(i + h + 3)
  }

  /** `\d{1,2}:\d{2}` as a whole text: one or two digits, a colon, two digits. */
  predicate TimeShaped(x: string) {
    || (|x| == 4 && IsDigit(x[0]) && x[1] == ':' && IsDigit(x[2]) && IsDigit(x[3]))
    || (|x| == 5 && IsDigit(x[0]) && IsDigit(x[1]) && x[2] == ':' && IsDigit(x[3]) && IsDigit(x[4]))
  }

  /** The three captured groups of a request pattern. */
  datatype Groups = Groups(date: string, start: string, end: string)

  /** The common tail `\s+(T)\s*[-~～]\s*(T)` of both patterns, after a date text
      spanning `s[dateStart..dateEnd]`. */
  function TimesAfter(s: string, dateStart: nat, dateEnd: nat): (g: Option<Groups>)
    requires dateStart <= dateEnd <= |s|
    ensures g.Some? ==> g.value.date == s[dateStart..dateEnd]
    ensures g.Some? ==> TimeShaped(g.value.start) && TimeShaped(g.value.end)
  {
    var w := SpaceRun(s, dateEnd);
    if w == 0 then None
    else
      var a := dateEnd + w;
      match TimeAt(s, a)
      case None => None
      case Some(b) =>
        var c := b + SpaceRun(s, b);
        if c == |s| || !IsRangeSeparator(s[c]) then None
        else
          var d := c + 1 + SpaceRun(s, c + 1);
          match TimeAt(s, d)
          case None => None
          case Some(e) => Some(Groups(s[dateStart..dateEnd], s[a..b], s[d..e]))
  }

  /** The two request patterns, tried in this order. */
  datatype RequestPattern =
    | YearMonthDay  // (\d{4}[-/]\d{1,2}[-/]\d{1,2})\s+(T)\s*[-~～]\s*(T)
    | MonthDay      // (\d{1,2}[-/]\d{1,2})\s+(T)\s*[-~～]\s*(T)

  /** The match of `p` starting exactly at position `i`, if any. */
  function MatchAt(p: RequestPattern, s: string, i: nat): (g: Option<Groups>)
    requires i <= |s|
    ensures g.Some? ==> i + |g.value.date| <= |s| && g.value.date == s[i..i + |g.value.date|]
    ensures g.Some? ==> TimeShaped(g.value.start) && TimeShaped(g.value.end)
    ensures g.Some? && p.YearMonthDay? ==> FourDigitsAt(s, i)
  {
    var e := DateAt(p, s, i);
    if e.None? then None else TimesAfter(s, i, e.value)
  }

  /** The date group of `p` at `i`: where it ends, if one starts there. */
  function DateAt(p: RequestPattern, s: string, i: nat): (e: Option<nat>)
    requires i <= |s|
    ensures e.Some? ==> i < e.value <= |s|
    ensures e.Some? && p.YearMonthDay? ==> FourDigitsAt(s, i)
  {
    match p
    case YearMonthDay =>
      if DigitRun(s, i, 4) != 4 || i + 4 == |s| || !IsDateSeparator(s[i + 4]) then None
      else
        var j := i + 5;
        var m := DigitRun(s, j, 2);
        if m == 0 || j + m == |s| || !IsDateSeparator(s[j + m]) then None
        else
          var k := j + m + 1;
          var d := DigitRun(s, k, 2);
          if d == 0 then None else Some(k + d)
    case MonthDay =>
      var m := DigitRun(s, i, 2);
      if m == 0 || i + m == |s| || !IsDateSeparator(s[i + m]) then None
      else
        var k := i + m + 1;
        var d := DigitRun(s, k, 2);
        if d == 0 then None else Some(k + d)
  }

  /** Whether `p` matches at each position `0..|s|` of `s`. */
  function Hits(p: RequestPattern, s: string): (h: seq<bool>)
    ensures |h| == |s| + 1
    ensures forall k :: 0 <= k <= |s| ==> (h[k] <==> MatchAt(p, s, k).Some?)
  {
    seq(|s| + 1, k requires 0 <= k <= |s| => MatchAt(p, s, k).Some?)
  }

  /** The first position at or after `from` holding `true`. */
  function FirstTrue(h: seq<bool>, from: nat): (r: Option<nat>)
    requires from <= |h|
    ensures r.Some? ==> from <= r.value < |h| && h[r.value]
    ensures r.Some? ==> forall k :: from <= k < r.value ==> !h[k]
    ensures r.None? ==> forall k :: from <= k < |h| ==> !h[k]
    decreases |h| - from
  {
    if from == |h| then None else if h[from] then Some(from) else FirstTrue(h, from + 1)
  }

  /** `re.search`: the leftmost position at or after `from` where `p` matches, and
      `None` when there is no match from `from` on. */
  function Search(p: RequestPattern, s: string, from: nat): (r: Option<nat>)
    requires from <= |s|
    ensures r.Some? ==> from <= r.value <= |s| && MatchAt(p, s, r.value).Some?
    ensures r.Some? ==> forall k :: from <= k < r.value ==> MatchAt(p, s, k).None?
    ensures r.None? ==> forall k :: from <= k <= |s| ==> MatchAt(p, s, k).None?
  {
    FirstTrue(Hits(p, s), from)
  }

  /** The groups of the leftmost match of `p` in `s`: `None` exactly when `p` matches
      nowhere, otherwise the groups of a match with no match to its left. */
  function FirstMatch(p: RequestPattern, s: string): (g: Option<Groups>)
    ensures g.None? <==> forall k :: 0 <= k <= |s| ==> MatchAt(p, s, k).None?
    ensures g.Some? ==>
      exists k :: 0 <= k <= |s| && MatchAt(p, s, k) == g
        && (forall j :: 0 <= j < k ==> MatchAt(p, s, j).None?)
  {
    match Search(p, s, 0)
    case None => None
    case Some(i) => MatchAt(p, s, i)
  }

  // ---------------------------------------------------------------------------
  // Times and durations.
  // ---------------------------------------------------------------------------

  /** `^(\d{1,2}):(\d{2})$` on an already stripped text, then the range checks
      hour <= 23 and minute <= 59. */
  function ReadTime(t: string): Option<TimeOfDay> {
    var h := DigitRun(t, 0, 2);
    if h == 0 || |t| != h + 3 || t[h] != ':' || !IsDigit(t[h + 1]) || !IsDigit(t[h + 2]) then
      None
    else
      var hour := if h == 1 then DigitValue(t[0]) else DigitValue(t[0]) * 10 + DigitValue(t[1]);
      var minute := DigitValue(t[h + 1]) * 10 + DigitValue(t[h + 2]);
      if hour <= 23 && minute <= 59 then Some(TimeOfDay(hour, minute)) else None
  }

  /** `validate_time_format`: the time read from the stripped text. `None` stands for
      `(False, None)`. */
  function ValidateTimeFormat(s: string): (r: Option<TimeOfDay>)
    ensures r.Some? ==>
      Strip(s) == TimeText(r.value) || (r.value.hour < 10 && Strip(s) == ShortTimeText(r.value))
  {
    if ReadTime(Strip(s)).Some? then ReadTimeSound(Strip(s)); ReadTime(Strip(s))
    else None
  }

  /** `HH:MM`, the zero-padded rendering of a time. */
  function TimeText(t: TimeOfDay): string {
    Pad2(t.hour) + ":" + Pad2(t.minute)
  }

  /** `H:MM`, the rendering with a one-digit hour, for hours below 10. */
  function ShortTimeText(t: TimeOfDay): string
    requires t.hour < 10
  {
    [DigitChar(t.hour)] + ":" + Pad2(t.minute)
  }

  /** Anything read is one of the two renderings of the time it yields. */
  lemma ReadTimeSound(x: string)
    requires ReadTime(x).Some?
    ensures var t := ReadTime(x).value;
      x == TimeText(t) || (t.hour < 10 && x == ShortTimeText(t))
  {
    var t := ReadTime(x).value;
    if DigitRun(x, 0, 2) == 1 {
      assert x == [x[0]] + ":" + x[2..4];
      assert DigitChar(t.hour) == x[0];
      assert Pad2(t.minute) == x[2..4];
    } else {
      assert x == x[0..2] + ":" + x[3..5];
      assert Pad2(t.hour) == x[0..2];
      assert Pad2(t.minute) == x[3..5];
    }
  }

  /** The zero-padded rendering of every time, with any surrounding whitespace, is
      accepted and gives back that time. */
  lemma TimeFormatComplete(t: TimeOfDay, pre: string, post: string)
    requires forall i :: 0 <= i < |pre| ==> IsSpace(pre[i])
    requires forall i :: 0 <= i < |post| ==> IsSpace(post[i])
    ensures ValidateTimeFormat(pre + TimeText(t) + post) == Some(t)
  {
    var x := TimeText(t);
    assert IsDigit(x[0]) && IsDigit(x[4]);
    StripPadded(pre, x, post);
    ReadTimeText(t);
  }

  /** So is the rendering with a one-digit hour. */
  lemma ShortTimeFormatComplete(t: TimeOfDay, pre: string, post: string)
    requires t.hour < 10
    requires forall i :: 0 <= i < |pre| ==> IsSpace(pre[i])
    requires forall i :: 0 <= i < |post| ==> IsSpace(post[i])
    ensures ValidateTimeFormat(pre + ShortTimeText(t) + post) == Some(t)
  {
    var x := ShortTimeText(t);
    assert IsDigit(x[0]) && IsDigit(x[3]);
    StripPadded(pre, x, post);
    ReadShortTimeText(t);
  }

  /** The pattern reads `HH:MM` back as the time it renders. */
  lemma ReadTimeText(t: TimeOfDay)
    ensures ReadTime(TimeText(t)) == Some(t)
  {
    assert DigitRun(TimeText(t), 0, 2) == 2;
  }

  /** The pattern reads `H:MM` back as the time it renders. */
  lemma ReadShortTimeText(t: TimeOfDay)
    requires t.hour < 10
    ensures ReadTime(ShortTimeText(t)) == Some(t)
  {
    assert DigitRun(ShortTimeText(t), 0, 2) == 1;
  }

  /** "09:30" is valid. */
  lemma TimeFormatAcceptsSample()
    ensures ValidateTimeFormat("09:30") == Some(TimeOfDay(9, 30))
  {
    StripPadded("", "09:30", "");
    assert "" + "09:30" + "" == "09:30";
    assert DigitRun("09:30", 0, 2) == 2;
  }

  /** An hour of 24 is refused. */
  lemma TimeFormatRejectsHour24()
    ensures ValidateTimeFormat("24:00").None?
  {
    StripPadded("", "24:00", "");
    assert "" + "24:00" + "" == "24:00";
    assert DigitRun("24:00", 0, 2) == 2;
  }

  /** A one-digit minute is refused. */
  lemma TimeFormatRejectsShortMinute()
    ensures ValidateTimeFormat("9:5").None?
  {
    StripPadded("", "9:5", "");
    assert "" + "9:5" + "" == "9:5";
  }

  /** `validate_time_range`: every pair of times is accepted, since a shift may run past
      midnight. */
  function ValidateTimeRange(start: TimeOfDay, end: TimeOfDay): (ok: bool)
    ensures ok
  {
    true
  }

  /** `validate_shift_duration`: the midnight-wrapping length of the shift, in hours,
      lies in [minHours, maxHours]. */
  function ValidateShiftDuration(start: TimeOfDay, end: TimeOfDay,
                                 minHours: real := 1.0, maxHours: real := 12.0): (ok: bool)
    ensures ok <==> minHours * 60.0 <= SpanMinutes(start, end) as real <= maxHours * 60.0
  {
    var hours := SpanMinutes(start, end) as real / 60.0;
    minHours <= hours <= maxHours
  }

  /** With the default window of 1 to 12 hours, equal start and end times (a zero-length
      shift) are refused, and an overnight shift 22:00-02:00 is accepted. */
  lemma ShiftDurationDefaults(t: TimeOfDay)
    ensures !ValidateShiftDuration(t, t)
    ensures ValidateShiftDuration(TimeOfDay(22, 0), TimeOfDay(2, 0))
    ensures !ValidateShiftDuration(TimeOfDay(8, 0), TimeOfDay(21, 0))
  {
    OvernightExample();
  }

  // ---------------------------------------------------------------------------
  // Shift-request messages.
  // ---------------------------------------------------------------------------

  /** The priority keywords: "できれば"/"できたら" give 2, and otherwise
      "可能なら"/"可能であれば" give 3; a message with neither is a firm request (1). */
  function DetectPriority(message: string): (p: int)
    ensures 1 <= p <= 3
  {
    if Contains(message, "できれば") || Contains(message, "できたら") then 2
    else if Contains(message, "可能なら") || Contains(message, "可能であれば") then 3
    else 1
  }

  /** Writing a request's priority label into a message is read back as that priority. */
  lemma PriorityLabelRoundTrip(r: ShiftRequests.ShiftRequest)
    requires 1 <= r.priority <= 3
    ensures DetectPriority(r.PriorityLabel()) == r.priority
  {
    var text := r.PriorityLabel();
    ShorterNeverContains(text, "可能であれば");
    if r.priority == 1 {
      ShorterNeverContains(text, "できれば");
      ShorterNeverContains(text, "できたら");
      ShorterNeverContains(text, "可能なら");
    } else if r.priority == 2 {
      assert "できれば" <= text;
    } else {
      assert text[1..] == "能なら";
      ShorterNeverContains(text[1..], "できれば");
      ShorterNeverContains(text[1..], "できたら");
      assert text[0] == '可' && "できれば"[0] == 'で' && "できたら"[0] == 'で';
      assert "可能なら" <= text;
    }
  }

  /** A message mentioning both kinds of keyword reads as priority 2. */
  lemma PriorityKeywordPrecedence(a: string, b: string)
    ensures DetectPriority(a + "できれば" + b + "可能なら") == 2
  {
    var m := a + "できれば" + b + "可能なら";
    assert OccursAt(m, "できれば", |a|);
    ContainsIffWindow(m, "できれば");
  }

  /** What a parsed request message yields. */
  datatype ParsedRequest = ParsedRequest(date: Day, startTime: TimeOfDay, endTime: TimeOfDay,
                                         priority: int)

  /** The groups hold a date that `parseDate` reads and two times that validate. */
  predicate Validates(g: Option<Groups>, parseDate: string -> Option<Day>) {
    g.Some? && parseDate(g.value.date).Some? && ValidateTimeFormat(g.value.start).Some?
    && ValidateTimeFormat(g.value.end).Some?
  }

  /** `req` is what the groups `g` of `message` read as: the parsed date, the two
      validated times and the priority the whole message carries. */
  predicate ReadsAs(g: Groups, message: string, parseDate: string -> Option<Day>, req: ParsedRequest) {
    parseDate(g.date) == Some(req.date)
    && ValidateTimeFormat(g.start) == Some(req.startTime)
    && ValidateTimeFormat(g.end) == Some(req.endTime)
    && req.priority == DetectPriority(message)
  }

  /** Turns one pattern's groups into a request when the date and both times validate.
      The date text is read by `parseDate` (`validate_date_format`). */
  function Interpret(g: Option<Groups>, message: string, parseDate: string -> Option<Day>)
    : (r: Option<ParsedRequest>)
    ensures r.Some? <==> Validates(g, parseDate)
    ensures r.Some? ==> ReadsAs(g.value, message, parseDate, r.value)
  {
    if g.None? then None
    else
      var d := parseDate(g.value.date);
      var st := ValidateTimeFormat(g.value.start);
      var en := ValidateTimeFormat(g.value.end);
      if d.Some? && st.Some? && en.Some? then
        Some(ParsedRequest(d.value, st.value, en.value, DetectPriority(message)))
      else None
  }

  /** The request read from the leftmost match of pattern `p`, if it validates. */
  function RequestFrom(p: RequestPattern, message: string, parseDate: string -> Option<Day>)
    : Option<ParsedRequest>
  {
    Interpret(FirstMatch(p, message), message, parseDate)
  }

  /** `parse_shift_request_message`: when the leftmost match of the year-qualified
      pattern validates, the request is what its groups read as; otherwise, when the
      leftmost month/day match validates, what those groups read as; and there is no
      request exactly when neither validates. */
  function ParseShiftRequestMessage(message: string, parseDate: string -> Option<Day>)
    : (r: Option<ParsedRequest>)
    ensures var y := FirstMatch(YearMonthDay, message);
      Validates(y, parseDate) ==> r.Some? && ReadsAs(y.value, message, parseDate, r.value)
    ensures var y := FirstMatch(YearMonthDay, message); var m := FirstMatch(MonthDay, message);
      !Validates(y, parseDate) && Validates(m, parseDate) ==>
        r.Some? && ReadsAs(m.value, message, parseDate, r.value)
    ensures r.None? <==>
      !Validates(FirstMatch(YearMonthDay, message), parseDate)
      && !Validates(FirstMatch(MonthDay, message), parseDate)
  {
    var first := RequestFrom(YearMonthDay, message, parseDate);
    if first.Some? then first else RequestFrom(MonthDay, message, parseDate)
  }

  /** A greedy `\d{1,max}` at `i` takes exactly the `w` digits there when the cap,
      the end of the text or a non-digit stops it after them. */
  lemma DigitRunIs(s: string, i: nat, max: nat, w: nat)
    requires i + w <= |s| && w <= max
    requires forall k :: i <= k < i + w ==> IsDigit(s[k])
    requires w == max || i + w == |s| || !IsDigit(s[i + w])
    ensures DigitRun(s, i, max) == w
  {
  }

  /** A zero-padded time rendering at `i` is a time match ending five characters on. */
  lemma TimeTextAt(s: string, i: nat, t: TimeOfDay)
    requires i + 5 <= |s| && s[i..i + 5] == TimeText(t)
    ensures TimeAt(s, i) == Some(i + 5)
  {
    var x := TimeText(t);
    assert s[i] == x[0] && s[i + 1] == x[1] && s[i + 2] == ':';
    assert s[i + 3] == x[3] && s[i + 4] == x[4];
    DigitRunIs(s, i, 2, 2);
  }

  /** `\d{1,2}[-/]\d{1,2}` as a whole text. */
  predicate MonthDayText(mo: string, sep: char, dy: string) {
    1 <= |mo| <= 2 && 1 <= |dy| <= 2 && IsDateSeparator(sep)
    && (forall k :: 0 <= k < |mo| ==> IsDigit(mo[k]))
    && (forall k :: 0 <= k < |dy| ==> IsDigit(dy[k]))
  }

  /** The month/day date group at the start of a text that opens with "M/D" and a
      non-digit. */
  lemma DateAtStart(s: string, mo: string, sep: char, dy: string)
    requires MonthDayText(mo, sep, dy)
    requires |mo| + 1 + |dy| < |s| && s[..|mo| + 1 + |dy|] == mo + [sep] + dy
    requires !IsDigit(s[|mo| + 1 + |dy|])
    ensures DateAt(MonthDay, s, 0) == Some(|mo| + 1 + |dy|)
  {
    var date := mo + [sep] + dy;
    assert forall k :: 0 <= k < |mo| ==> s[k] == date[k] == mo[k];
    assert s[|mo|] == date[|mo|] == sep;
    assert forall k :: 0 <= k < |dy| ==> s[|mo| + 1 + k] == date[|mo| + 1 + k] == dy[k];
    DigitRunIs(s, 0, 2, |mo|);
    DigitRunIs(s, |mo| + 1, 2, |dy|);
  }

  /** The middle of a three-part concatenation. */
  lemma SliceOfConcat(a: string, b: string, c: string)
    ensures (a + b + c)[|a|..|a| + |b|] == b
  {
  }

  /** " HH:MM-HH:MM" after a date group ending at `n`: both times are captured. */
  lemma TimesAfterText(s: string, n: nat, t1: TimeOfDay, t2: TimeOfDay)
    requires n + 12 <= |s| && s[n] == ' ' && s[n + 6] == '-'
    requires s[n + 1..n + 6] == TimeText(t1) && s[n + 7..n + 12] == TimeText(t2)
    ensures TimesAfter(s, 0, n) == Some(Groups(s[0..n], TimeText(t1), TimeText(t2)))
  {
    assert IsDigit(s[n + 1]) && IsDigit(s[n + 7]);
    assert SpaceRun(s, n + 1) == 0;
    assert SpaceRun(s, n) == 1;
    TimeTextAt(s, n + 1, t1);
    assert SpaceRun(s, n + 6) == 0;
    assert SpaceRun(s, n + 7) == 0;
    TimeTextAt(s, n + 7, t2);
    TimesAfterAt(s, 0, n, n + 6, n + 12);
  }

  /** `TimesAfter` read off from where its pieces end, for one space before the first
      time and none around the range separator. */
  lemma TimesAfterAt(s: string, dateStart: nat, dateEnd: nat, b: nat, e: nat)
    requires dateStart <= dateEnd < |s| && SpaceRun(s, dateEnd) == 1
    requires TimeAt(s, dateEnd + 1) == Some(b) && b < |s| && SpaceRun(s, b) == 0
    requires IsRangeSeparator(s[b]) && SpaceRun(s, b + 1) == 0 && TimeAt(s, b + 1) == Some(e)
    ensures TimesAfter(s, dateStart, dateEnd)
      == Some(Groups(s[dateStart..dateEnd], s[dateEnd + 1..b], s[b + 1..e]))
  {
    var a := dateEnd + SpaceRun(s, dateEnd);
    assert a == dateEnd + 1;
    var c := b + SpaceRun(s, b);
    assert c == b;
    var d := c + 1 + SpaceRun(s, c + 1);
    assert d == b + 1;
  }

  /** Where the pieces of "date HH:MM-HH:MM…" sit. */
  lemma MessageLayout(date: string, x1: string, x2: string, rest: string)
    requires |x1| == 5 && |x2| == 5
    ensures var msg := date + " " + x1 + "-" + x2 + rest; var n := |date|;
      && n + 12 <= |msg| && msg[..n] == date && msg[n] == ' ' && msg[n + 6] == '-'
      && msg[n + 1..n + 6] == x1 && msg[n + 7..n + 12] == x2
  {
    var msg := date + " " + x1 + "-" + x2 + rest;
    SliceOfConcat(date + " ", x1, "-" + x2 + rest);
    assert msg == (date + " ") + x1 + ("-" + x2 + rest);
    SliceOfConcat(date + " " + x1 + "-", x2, rest);
  }

  /** The month/day pattern matches at the start of "M/D HH:MM-HH:MM…" and captures the
      date and the two times. */
  lemma MonthDayGroupsAt(mo: string, sep: char, dy: string, t1: TimeOfDay, t2: TimeOfDay, rest: string)
    requires MonthDayText(mo, sep, dy)
    ensures var msg := mo + [sep] + dy + " " + TimeText(t1) + "-" + TimeText(t2) + rest;
      MatchAt(MonthDay, msg, 0) == Some(Groups(mo + [sep] + dy, TimeText(t1), TimeText(t2)))
  {
    var date := mo + [sep] + dy;
    var msg := date + " " + TimeText(t1) + "-" + TimeText(t2) + rest;
    MessageLayout(date, TimeText(t1), TimeText(t2), rest);
    DateAtStart(msg, mo, sep, dy);
    TimesAfterText(msg, |date|, t1, t2);
  }

  /** A match at the very start is the leftmost one. */
  lemma FirstMatchAtStart(p: RequestPattern, s: string)
    requires MatchAt(p, s, 0).Some?
    ensures FirstMatch(p, s) == MatchAt(p, s, 0)
  {
    assert Search(p, s, 0) == Some(0);
  }

  /** When only the month/day pattern matches, the request is what its leftmost groups
      read as. */
  lemma ParsesFromMonthDay(msg: string, parseDate: string -> Option<Day>, g: Groups, req: ParsedRequest)
    requires FirstMatch(YearMonthDay, msg).None? && FirstMatch(MonthDay, msg) == Some(g)
    requires ReadsAs(g, msg, parseDate, req)
    ensures ParseShiftRequestMessage(msg, parseDate) == Some(req)
  {
  }

  /** Every message "M/D HH:MM-HH:MM" followed by any text, without four digits in a
      row, parses to the day `parseDate` gives for "M/D", the two times, and the
      priority of its keywords. */
  lemma MonthDayMessageParses(mo: string, sep: char, dy: string, t1: TimeOfDay, t2: TimeOfDay,
                              rest: string, parseDate: string -> Option<Day>, day: Day)
    requires MonthDayText(mo, sep, dy)
    requires forall k :: !FourDigitsAt(mo + [sep] + dy + " " + TimeText(t1) + "-" + TimeText(t2) + rest, k)
    requires parseDate(mo + [sep] + dy) == Some(day)
    ensures var msg := mo + [sep] + dy + " " + TimeText(t1) + "-" + TimeText(t2) + rest;
      ParseShiftRequestMessage(msg, parseDate) == Some(ParsedRequest(day, t1, t2, DetectPriority(msg)))
  {
    var msg := mo + [sep] + dy + " " + TimeText(t1) + "-" + TimeText(t2) + rest;
    var g := Groups(mo + [sep] + dy, TimeText(t1), TimeText(t2));
    MonthDayGroupsAt(mo, sep, dy, t1, t2, rest);
    FirstMatchAtStart(MonthDay, msg);
    NoYearWithoutFourDigits(msg);
    TimeTextValidates(t1);
    TimeTextValidates(t2);
    ParsesFromMonthDay(msg, parseDate, g, ParsedRequest(day, t1, t2, DetectPriority(msg)));
  }

  /** The bare zero-padded rendering of a time validates to that time. */
  lemma TimeTextValidates(t: TimeOfDay)
    ensures ValidateTimeFormat(TimeText(t)) == Some(t)
  {
    TimeFormatComplete(t, "", "");
    assert "" + TimeText(t) + "" == TimeText(t);
  }

  /** Facts about the sample message "3/1 9:00-17:00 希望", one per lemma. */
  const SampleMessage: string := "3/1 9:00-17:00 希望"

  /** Four digits in a row start at `k`. */
  predicate FourDigitsAt(s: string, k: int) {
    0 <= k && k + 4 <= |s| && IsDigit(s[k]) && IsDigit(s[k + 1]) && IsDigit(s[k + 2])
    && IsDigit(s[k + 3])
  }

  lemma NonDigitBreaksWindow(s: string, j: int, k: int)
    requires 0 <= k <= j < k + 4 && j < |s| && !IsDigit(s[j])
    ensures !FourDigitsAt(s, k)
  {
    assert j == k || j == k + 1 || j == k + 2 || j == k + 3;
  }

  /** The year-qualified pattern needs four digits in a row. */
  lemma NoYearWithoutFourDigits(s: string)
    requires forall k :: !FourDigitsAt(s, k)
    ensures FirstMatch(YearMonthDay, s).None?
  {
  }

  lemma SampleHasNoYear()
    ensures FirstMatch(YearMonthDay, SampleMessage).None?
  {
    var s := SampleMessage;
    assert |s| == 17;
    assert !IsDigit(s[1]) && !IsDigit(s[3]) && !IsDigit(s[5]);
    assert !IsDigit(s[8]) && !IsDigit(s[11]) && !IsDigit(s[14]);
    forall k
      ensures !FourDigitsAt(s, k)
    {
      if 0 <= k && k + 4 <= |s| {
        var j := if k < 2 then 1 else if k < 4 then 3 else if k < 6 then 5
                 else if k < 9 then 8 else if k < 12 then 11 else 14;
        NonDigitBreaksWindow(s, j, k);
      }
    }
    NoYearWithoutFourDigits(s);
  }

  lemma SampleStartTimeText()
    ensures TimeAt(SampleMessage, 4) == Some(8)
  {
    assert DigitRun(SampleMessage, 4, 2) == 1;
  }

  lemma SampleEndTimeText()
    ensures TimeAt(SampleMessage, 9) == Some(14)
  {
    assert DigitRun(SampleMessage, 9, 2) == 2;
  }

  lemma SampleSpaces()
    ensures SpaceRun(SampleMessage, 3) == 1
    ensures SpaceRun(SampleMessage, 8) == 0 && SpaceRun(SampleMessage, 9) == 0
  {
    assert SpaceRun(SampleMessage, 4) == 0;
  }

  lemma SampleSlices()
    ensures SampleMessage[0..3] == "3/1"
    ensures SampleMessage[4..8] == "9:00" && SampleMessage[9..14] == "17:00"
  {
  }

  lemma SampleTimesAfter()
    ensures TimesAfter(SampleMessage, 0, 3) == Some(Groups("3/1", "9:00", "17:00"))
  {
    SampleStartTimeText();
    SampleEndTimeText();
    SampleSpaces();
    assert IsRangeSeparator(SampleMessage[8]);
    TimesAfterAt(SampleMessage, 0, 3, 8, 14);
    SampleSlices();
  }

  lemma SampleDate()
    ensures DateAt(MonthDay, SampleMessage, 0) == Some(3)
  {
    assert DigitRun(SampleMessage, 0, 2) == 1;
    assert DigitRun(SampleMessage, 2, 2) == 1;
  }

  lemma SampleMonthDayGroups()
    ensures FirstMatch(MonthDay, SampleMessage) == Some(Groups("3/1", "9:00", "17:00"))
  {
    SampleDate();
    SampleTimesAfter();
    FirstMatchAtStart(MonthDay, SampleMessage);
  }

  lemma SampleStartTime()
    ensures ValidateTimeFormat("9:00") == Some(TimeOfDay(9, 0))
  {
    StripPadded("", "9:00", "");
    assert "" + "9:00" + "" == "9:00";
    assert DigitRun("9:00", 0, 2) == 1;
  }

  lemma SampleEndTime()
    ensures ValidateTimeFormat("17:00") == Some(TimeOfDay(17, 0))
  {
    StripPadded("", "17:00", "");
    assert "" + "17:00" + "" == "17:00";
    assert DigitRun("17:00", 0, 2) == 2;
  }

  lemma SamplePriority()
    ensures DetectPriority(SampleMessage) == 1
  {
    var s := SampleMessage;
    assert forall i :: 0 <= i < |s| ==> s[i] != 'で' && s[i] != '可';
    LacksFirstCharacter(s, "できれば");
    LacksFirstCharacter(s, "できたら");
    LacksFirstCharacter(s, "可能なら");
    LacksFirstCharacter(s, "可能であれば");
  }

  /** The sample message parses to 9:00-17:00 with the firm priority 1, on whatever day
      the date reader gives for "3/1". */
  lemma SampleMessageParses(parseDate: string -> Option<Day>, day: Day)
    requires parseDate("3/1") == Some(day)
    ensures ParseShiftRequestMessage(SampleMessage, parseDate)
      == Some(ParsedRequest(day, TimeOfDay(9, 0), TimeOfDay(17, 0), 1))
  {
    SampleHasNoYear();
    SampleMonthDayGroups();
    SampleStartTime();
    SampleEndTime();
    SamplePriority();
  }

  // ---------------------------------------------------------------------------
  // LINE user ids.
  // ---------------------------------------------------------------------------

  predicate IsLowerHex(c: char) {
    ('0' <= c <= '9') || ('a' <= c <= 'f')
  }

  /** `re.match(r'^U[0-9a-f]{32}$', s)` as written: Python's `$` also matches just before
      a final newline, so one trailing "\n" is accepted. */
  function ValidateLineIdAsWritten(s: string): (ok: bool)
    ensures ok ==> |s| == 33 || (|s| == 34 && s[33] == '\n')
  {
    |s| >= 33 && s[0] == 'U' && (forall i :: 1 <= i < 33 ==> IsLowerHex(s[i]))
    && (|s| == 33 || (|s| == 34 && s[33] == '\n'))
  }

  /** The intended check: exactly "U" followed by 32 lowercase hexadecimal digits. */
  function ValidateLineId(s: string): (ok: bool)
    ensures ok ==> |s| == 33 && s[0] == 'U'
    ensures ok ==> forall i :: 1 <= i < |s| ==> IsLowerHex(s[i])
  {
    |s| == 33 && s[0] == 'U' && forall i :: 1 <= i < 33 ==> IsLowerHex(s[i])
  }

  /** Every "U" followed by 32 lowercase hexadecimal digits is accepted. */
  lemma LineIdComplete(h: string)
    requires |h| == 32 && forall i :: 0 <= i < |h| ==> IsLowerHex(h[i])
    ensures ValidateLineId("U" + h)
  {
    var s := "U" + h;
    assert forall i :: 1 <= i < 33 ==> s[i] == h[i - 1];
  }

  /** The two checks differ by exactly one trailing newline: the corrected check accepts
      a subset, and every extra acceptance is a valid id followed by "\n". */
  lemma LineIdCheckDifference(s: string)
    ensures ValidateLineId(s) ==> ValidateLineIdAsWritten(s)
    ensures ValidateLineIdAsWritten(s) && !ValidateLineId(s) ==>
      |s| == 34 && s[33] == '\n' && ValidateLineId(s[..33])
    ensures ValidateLineId(s) ==> ValidateLineIdAsWritten(s + "\n")
  {
    if ValidateLineId(s) {
      var t := s + "\n";
      assert forall i :: 1 <= i < 33 ==> t[i] == s[i];
    }
  }

  /** A concrete id with a trailing newline that the check as written lets through. */
  lemma LineIdTrailingNewlineAccepted()
    ensures ValidateLineIdAsWritten("U0123456789abcdef0123456789abcdef\n")
    ensures !ValidateLineId("U0123456789abcdef0123456789abcdef\n")
  {
    LineIdCheckDifference("U0123456789abcdef0123456789abcdef");
    assert "U0123456789abcdef0123456789abcdef" + "\n" == "U0123456789abcdef0123456789abcdef\n";
  }

  // ---------------------------------------------------------------------------
  // Input sanitising.
  // ---------------------------------------------------------------------------

  /** Python's `str.isprintable()` for one character: false for the control characters,
      the separators other than the ASCII space, and the common format characters. */
  predicate IsPrintable(c: char) {
    !(c < ' ' || ('\U{7f}' <= c <= '\U{a0}') || c == '\U{ad}' || c == '\U{1680}'
      || ('\U{2000}' <= c <= '\U{200f}') || ('\U{2028}' <= c <= '\U{202f}')
      || ('\U{205f}' <= c <= '\U{2064}') || c == '\U{3000}' || c == '\U{feff}')
  }

  /** Characters that survive sanitising: printable ones and the three layout controls. */
  predicate Allowed(c: char) {
    IsPrintable(c) || c == '\n' || c == '\r' || c == '\t'
  }

  /** `text[:n]` with Python's slice rules: a negative `n` counts from the end and both
      ends are clipped to the string. */
  function SlicePrefix(text: string, n: int): (r: string)
    ensures |r| <= |text| && r == text[..|r|]
    ensures n >= 0 ==> |r| == if n < |text| then n else |text|
    ensures n < 0 ==> |r| == if |text| + n < 0 then 0 else |text| + n
  {
    if n >= 0 then (if n < |text| then text[..n] else text)
    else (if |text| + n < 0 then [] else text[..|text| + n])
  }

  /** The comprehension keeping only allowed characters, in order. */
  function KeepAllowed(s: string): (r: string)
    ensures |r| <= |s|
    ensures forall i :: 0 <= i < |r| ==> Allowed(r[i])
    ensures forall c :: multiset(r)[c] == if Allowed(c) then multiset(s)[c] else 0
    ensures (forall i :: 0 <= i < |s| ==> Allowed(s[i])) ==> r == s
  {
    if s == [] then []
    else
      assert s == [s[0]] + s[1..];
      if Allowed(s[0]) then [s[0]] + KeepAllowed(s[1..])
      else KeepAllowed(s[1..])
  }

  /** Filtering works piece by piece, so the kept characters stay in their order. */
  lemma {:induction false} KeepAllowedConcat(a: string, b: string)
    ensures KeepAllowed(a + b) == KeepAllowed(a) + KeepAllowed(b)
    decreases |a|
  {
    if a == [] {
      assert a + b == b;
    } else {
      assert (a + b)[0] == a[0];
      assert (a + b)[1..] == a[1..] + b;
      KeepAllowedConcat(a[1..], b);
    }
  }

  /** A window of a string of allowed characters holds only allowed characters. */
  lemma AllowedWindow(s: string, w: string, i: int)
    requires OccursAt(s, w, i)
    requires forall k :: 0 <= k < |s| ==> Allowed(s[k])
    ensures forall k :: 0 <= k < |w| ==> Allowed(w[k])
  {
    forall k | 0 <= k < |w|
      ensures Allowed(w[k])
    {
      assert w[k] == s[i + k];
    }
  }

  /** `sanitize_user_input`: empty stays empty; the result fits the length limit, holds
      only allowed characters and has no surrounding whitespace; and it is the allowed
      characters of `text[:max_length]` with only whitespace taken off around them. */
  function SanitizeUserInput(text: string, maxLength: int := 1000): (r: string)
    ensures text == [] ==> r == []
    ensures |r| <= |text|
    ensures maxLength >= 0 ==> |r| <= maxLength
    ensures forall i :: 0 <= i < |r| ==> Allowed(r[i])
    ensures r == [] || (!IsSpace(r[0]) && !IsSpace(r[|r| - 1]))
    ensures text != [] ==>
      exists i :: SpacedAround(KeepAllowed(SlicePrefix(text, maxLength)), r, i)
  {
    if text == [] then []
    else
      var kept := KeepAllowed(SlicePrefix(text, maxLength));
      StripAllowed(kept);
      Strip(kept)
  }

  /** Stripping a string of allowed characters keeps a piece of it, of allowed
      characters, with only whitespace around it. */
  lemma StripAllowed(kept: string)
    requires forall k :: 0 <= k < |kept| ==> Allowed(kept[k])
    ensures |Strip(kept)| <= |kept|
    ensures forall i :: 0 <= i < |Strip(kept)| ==> Allowed(Strip(kept)[i])
    ensures SpacedAround(kept, Strip(kept), |kept| - |TrimLeft(kept)|)
  {
    StripDropsOnlySpaces(kept);
    AllowedWindow(kept, Strip(kept), |kept| - |TrimLeft(kept)|);
  }

  /** Text that is already clean (short enough, allowed characters only, no surrounding
      whitespace) is returned unchanged. */
  lemma SanitizeKeepsCleanText(text: string, maxLength: int)
    requires 0 <= |text| <= maxLength
    requires forall i :: 0 <= i < |text| ==> Allowed(text[i])
    requires text == [] || (!IsSpace(text[0]) && !IsSpace(text[|text| - 1]))
    ensures SanitizeUserInput(text, maxLength) == text
  {
    if text != [] {
      StripNoop(text);
    }
  }

  /** Sanitising twice with the same non-negative limit is the same as sanitising once. */
  lemma SanitizeIdempotent(text: string, maxLength: int)
    requires maxLength >= 0
    ensures var once := SanitizeUserInput(text, maxLength);
      SanitizeUserInput(once, maxLength) == once
  {
    SanitizeKeepsCleanText(SanitizeUserInput(text, maxLength), maxLength);
  }
}
