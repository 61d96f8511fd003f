/** The weekly window in which the connections of an account are kept alive. */
module Keepalive {
  import opened Options

  datatype Mode = Off | Always | Scheduled

  /** `mode` is the text in the table; `start`, `end` and `weekdays` are texts as well. */
  datatype Account = Account(enabled: bool, keepalive: bool, mode: string, start: string, end: string, weekdays: string)

  /** A local time: the day with Sunday as 0. */
  datatype Time = Time(weekday: nat, hour: nat, minute: nat)

  predicate ValidTime(now: Time) {
    now.weekday < 7 && now.hour < 24 && now.minute < 60
  }

  // ---- Text ----

  predicate Space(c: char) {
    var u := c as int;
    u in {0x20, 0x85, 0xA0, 0x1680, 0x2028, 0x2029, 0x202F, 0x205F, 0x3000} || 0x09 <= u <= 0x0D
      || 0x2000 <= u <= 0x200A
  }

  function TrimLeft(s: string): string {
    if s != "" && Space(s[0]) then TrimLeft(s[1..]) else s
  }

  function TrimRight(s: string): string {
    if s != "" && Space(s[|s| - 1]) then TrimRight(s[..|s| - 1]) else s
  }

  function Trim(s: string): string {
    TrimRight(TrimLeft(s))
  }

  /** What is trimmed is space, and what remains neither starts nor ends with one. */
  lemma TrimIs(s: string) returns (left: string, right: string)
    ensures s == left + Trim(s) + right && forall c | c in left + right :: Space(c)
    ensures Trim(s) != "" ==> !Space(Trim(s)[0]) && !Space(Trim(s)[|Trim(s)| - 1])
  {
    left := TrimLeftIs(s);
    right := TrimRightIs(TrimLeft(s));
  }

  lemma {:induction false} TrimLeftIs(s: string) returns (left: string)
    ensures s == left + TrimLeft(s) && forall c | c in left :: Space(c)
    ensures TrimLeft(s) != "" ==> !Space(TrimLeft(s)[0])
  {
    left := "";
    if s != "" && Space(s[0]) {
      left := TrimLeftIs(s[1..]);
      left := [s[0]] + left;
    }
  }

  lemma {:induction false} TrimRightIs(s: string) returns (right: string)
    ensures s == TrimRight(s) + right && forall c | c in right :: Space(c)
    ensures TrimRight(s) != "" ==> !Space(TrimRight(s)[|TrimRight(s)| - 1])
  {
    right := "";
    if s != "" && Space(s[|s| - 1]) {
      right := TrimRightIs(s[..|s| - 1]);
      right := right + [s[|s| - 1]];
    }
  }

  /** The pieces between commas. */
  function Split(s: string): (r: seq<string>)
    ensures |r| > 0
  {
    if s == "" then [""]
    else
      var init := Split(s[..|s| - 1]);
      if s[|s| - 1] == ',' then init + [""]
      else init[|init| - 1 := init[|init| - 1] + [s[|s| - 1]]]
  }

  function Join(pieces: seq<string>): string
    requires |pieces| > 0
  {
    if |pieces| == 1 then pieces[0] else Join(pieces[..|pieces| - 1]) + "," + pieces[|pieces| - 1]
  }

  /** The pieces, joined by commas, are the text, and none holds a comma. */
  lemma {:induction false} SplitIs(s: string)
    ensures Join(Split(s)) == s && forall i | 0 <= i < |Split(s)| :: ',' !in Split(s)[i]
  {
    if s != "" {
      var init, last := Split(s[..|s| - 1]), s[|s| - 1];
      SplitIs(s[..|s| - 1]);
      var n := |init| - 1;
      if last == ',' {
        assert Split(s)[..n + 1] == init;
      } else {
        assert Split(s)[..n] == init[..n];
      }
    }
  }

  predicate Digit(c: char) {
    '0' <= c <= '9'
  }

  function Value(c: char): nat
    requires Digit(c)
  {
    c as int - '0' as int
  }

  /** A time of day as an hour of one or two digits, a colon and two digits, in minutes since midnight. */
  function ClockMinute(text: string): (r: Option<nat>)
    ensures r.Some? ==> r.value < 1440
  {
    var s := Trim(text);
    if |s| == 4 && Digit(s[0]) && s[1] == ':' && Digit(s[2]) && Digit(s[3]) && Value(s[2]) < 6 then
      Some(60 * Value(s[0]) + 10 * Value(s[2]) + Value(s[3]))
    else if |s| == 5 && Digit(s[0]) && Digit(s[1]) && s[2] == ':' && Digit(s[3]) && Digit(s[4])
            && 10 * Value(s[0]) + Value(s[1]) < 24 && Value(s[3]) < 6 then
      Some(60 * (10 * Value(s[0]) + Value(s[1])) + 10 * Value(s[3]) + Value(s[4]))
    else None
  }

  function DigitOf(n: nat): (c: char)
    requires n < 10
    ensures Digit(c) && Value(c) == n
  {
    ('0' as int + n) as char
  }

  function Clock(minute: nat): string
    requires minute < 1440
  {
    [DigitOf(minute / 600), DigitOf(minute / 60 % 10), ':', DigitOf(minute % 60 / 10), DigitOf(minute % 10)]
  }

  lemma ClockRoundTrip(minute: nat)
    requires minute < 1440
    ensures ClockMinute(Clock(minute)) == Some(minute)
  {
    var s := Clock(minute);
    assert TrimLeft(s) == s && TrimRight(s) == s;
    assert minute == 60 * (minute / 60) + minute % 60;
    assert minute % 10 == minute % 60 % 10;
    assert minute / 600 == minute / 60 / 10;
  }

  lemma DigitsOf(minute: nat, tens: nat, hours: nat, high: nat, low: nat)
    requires minute < 1440 && minute == 60 * (10 * tens + hours) + 10 * high + low
    requires hours < 10 && high < 6 && low < 10
    ensures tens == minute / 600 && hours == minute / 60 % 10 && high == minute % 60 / 10 && low == minute % 10
  {
    assert minute == 600 * tens + (60 * hours + 10 * high + low);
    assert minute / 60 == 10 * tens + hours && minute % 60 == 10 * high + low;
  }

  lemma TimeIsClock(text: string, minute: nat)
    requires ClockMinute(text) == Some(minute)
    ensures Trim(text) == Clock(minute) || (minute < 600 && Trim(text) == Clock(minute)[1..])
  {
    hide Trim;
    var s := Trim(text);
    if |s| == 4 {
      DigitsOf(minute, 0, Value(s[0]), Value(s[2]), Value(s[3]));
      assert s == [DigitOf(Value(s[0])), ':', DigitOf(Value(s[2])), DigitOf(Value(s[3]))];
    } else {
      DigitsOf(minute, Value(s[0]), Value(s[1]), Value(s[3]), Value(s[4]));
      assert s == [DigitOf(Value(s[0])), DigitOf(Value(s[1])), ':', DigitOf(Value(s[3])), DigitOf(Value(s[4]))];
    }
  }

  lemma ClockIsTime(text: string, minute: nat)
    requires minute < 1440
    requires Trim(text) == Clock(minute) || (minute < 600 && Trim(text) == Clock(minute)[1..])
    ensures ClockMinute(text) == Some(minute)
  {
    hide Trim;
    assert minute == 60 * (minute / 60) + minute % 60;
    assert minute % 10 == minute % 60 % 10;
    assert minute / 600 == minute / 60 / 10;
  }

  /** Exactly the texts `HH:MM`, and `H:MM` before ten, are times, up to space around them. */
  lemma ClockMinuteIff(text: string, minute: nat)
    requires minute < 1440
    ensures ClockMinute(text) == Some(minute) <==>
      Trim(text) == Clock(minute) || (minute < 600 && Trim(text) == Clock(minute)[1..])
  {
    if ClockMinute(text) == Some(minute) {
      TimeIsClock(text, minute);
    }
    if Trim(text) == Clock(minute) || (minute < 600 && Trim(text) == Clock(minute)[1..]) {
      ClockIsTime(text, minute);
    }
  }

  // ---- Days ----

  function IsoWeekday(weekday: nat): nat {
    if weekday == 0 then 7 else weekday
  }

  /** One of the pieces of the text, up to space around it. */
  predicate Piece(text: string, piece: string) {
    exists i | 0 <= i < |Split(text)| :: Trim(Split(text)[i]) == piece
  }

  predicate Selected(weekdays: string, day: nat)
    requires 1 <= day <= 7
  {
    Trim(weekdays) == "" || Piece(weekdays, [DigitOf(day)])
  }

  function SelectedDays(weekdays: string): set<nat> {
    set d: nat | 1 <= d <= 7 && Selected(weekdays, d)
  }

  /** The loop over the pieces; a blank text stands for every day. */
  method KeepaliveWeekdaySelected(text: string, day: nat) returns (selected: bool)
    requires 1 <= day <= 7
    ensures selected == Selected(text, day)
    ensures selected <==> Trim(text) == "" || Piece(text, [DigitOf(day)])
  {
    hide Trim;
    var value := text;
    if Trim(value) == "" {
      value := "1,2,3,4,5,6,7";
      EveryDay(day);
    }
    var needle := [DigitOf(day)];
    var items := Split(value);
    for i := 0 to |items|
      invariant forall j | 0 <= j < i :: Trim(items[j]) != needle
    {
      if Trim(items[i]) == needle {
        return true;
      }
    }
    selected := false;
  }

  lemma SplitOnComma(s: string, last: char)
    requires last != ','
    ensures Split(s + [',', last]) == Split(s) + [[last]]
  {
    var longer := s + [',', last];
    assert longer[..|longer| - 1] == s + [','] && (s + [','])[..|s|] == s;
    var init := Split(s) + [""];
    assert Split(s + [',']) == init;
    assert longer[|longer| - 1] == last && "" + [last] == [last];
    assert init[|init| - 1 := [last]] == Split(s) + [[last]];
  }

  lemma SplitEveryDay()
    ensures Split("1,2,3,4,5,6,7") == ["1", "2", "3", "4", "5", "6", "7"]
  {
    assert "1"[..0] == "" && "" + ['1'] == "1" && [""][0 := "1"] == ["1"];
    assert Split("1") == ["1"];
    hide Split;
    var two := "1" + [',', '2'];
    var three := two + [',', '3'];
    var four := three + [',', '4'];
    var five := four + [',', '5'];
    var six := five + [',', '6'];
    SplitOnComma("1", '2');
    SplitOnComma(two, '3');
    SplitOnComma(three, '4');
    SplitOnComma(four, '5');
    SplitOnComma(five, '6');
    SplitOnComma(six, '7');
    assert six + [',', '7'] == "1,2,3,4,5,6,7";
  }

  lemma TrimDigit(day: nat)
    requires day < 10
    ensures Trim([DigitOf(day)]) == [DigitOf(day)]
  {
    var s := [DigitOf(day)];
    assert TrimLeft(s) == s && TrimRight(s) == s;
  }

  lemma EveryDay(day: nat)
    requires 1 <= day <= 7
    ensures exists i | 0 <= i < |Split("1,2,3,4,5,6,7")| :: Trim(Split("1,2,3,4,5,6,7")[i]) == [DigitOf(day)]
  {
    SplitEveryDay();
    TrimDigit(day);
    hide Split, Trim;
    assert Split("1,2,3,4,5,6,7")[day - 1] == [DigitOf(day)];
  }

  // ---- The window ----

  function EffectiveMode(a: Account): Mode {
    if !a.keepalive || a.mode == "off" then Off else if a.mode == "scheduled" then Scheduled else Always
  }

  predicate ActiveAt(a: Account, now: Time)
    requires ValidTime(now)
  {
    if !a.enabled || EffectiveMode(a) == Off then false
    else if EffectiveMode(a) == Always then true
    else
      var start, end := ClockMinute(a.start), ClockMinute(a.end);
      if start.None? || end.None? || start == end then false
      else
        var minute := now.hour * 60 + now.minute;
        var weekday := IsoWeekday(now.weekday);
        if start.value < end.value then Selected(a.weekdays, weekday) && start.value <= minute < end.value
        else if minute >= start.value then Selected(a.weekdays, weekday)
        else minute < end.value && Selected(a.weekdays, if weekday == 1 then 7 else weekday - 1)
  }

  const DAY := 1440
  const WEEK := 10080

  /** The minute of the week, from Monday midnight. */
  function WeekMinute(now: Time): nat
    requires ValidTime(now)
  {
    DAY * (IsoWeekday(now.weekday) - 1) + now.hour * 60 + now.minute
  }

  function TimeAt(minute: nat): (now: Time)
    requires minute < WEEK
    ensures ValidTime(now)
  {
    Time((minute / DAY + 1) % 7, minute % DAY / 60, minute % 60)
  }

  lemma TimeRoundTrip(minute: nat)
    requires minute < WEEK
    ensures WeekMinute(TimeAt(minute)) == minute
  {
    assert minute == DAY * (minute / DAY) + minute % DAY;
    assert minute % DAY == 60 * (minute % DAY / 60) + minute % DAY % 60;
    assert minute % DAY % 60 == minute % 60;
  }

  /** How long a window is: from its start to its end, around midnight if need be. */
  function Length(a: Account): (r: nat)
    ensures r < DAY
  {
    match (ClockMinute(a.start), ClockMinute(a.end))
    case (Some(start), Some(end)) => (end - start) % DAY
    case _ => 0
  }

  /** The minute of the week at which the window of a day begins. */
  function Opening(a: Account, day: nat): nat
    requires 1 <= day <= 7
  {
    match ClockMinute(a.start)
    case Some(start) => DAY * (day - 1) + start
    case None => 0
  }

  /** How far a minute of the week is after an opening, around the end of the week if need be. */
  function Gap(opening: int, minute: nat): nat {
    (minute - opening) % WEEK
  }

  predicate InWindow(a: Account, day: nat, minute: nat)
    requires 1 <= day <= 7
  {
    Gap(Opening(a, day), minute) < Length(a)
  }

  /** The day whose window a minute of the week may lie in: that day, or before the start the day before. */
  function WindowDay(start: nat, minute: nat): (day: nat)
    requires start < DAY && minute < WEEK
    ensures 1 <= day <= 7
  {
    var today := minute / DAY + 1;
    if minute % DAY >= start then today else if today == 1 then 7 else today - 1
  }

  /** The distance from a window's opening is below a day for that day only, and is then the one around midnight. */
  lemma Distance(start: nat, minute: nat, day: nat)
    requires start < DAY && minute < WEEK && 1 <= day <= 7
    ensures Gap(DAY * (day - 1) + start, minute) < DAY <==> day == WindowDay(start, minute)
    ensures day == WindowDay(start, minute) ==> Gap(DAY * (day - 1) + start, minute) == (minute % DAY - start) % DAY
  {
    var today, rest := minute / DAY, minute % DAY;
    assert minute == DAY * today + rest && today <= 6;
    var gap := minute - (DAY * (day - 1) + start);
    var days := today - (day - 1);
    assert gap == DAY * days + (rest - start) && -6 <= days <= 6;
    if gap >= 0 {
      assert gap % WEEK == gap;
    } else {
      assert gap % WEEK == gap + WEEK;
    }
    if rest >= start {
      assert (rest - start) % DAY == rest - start;
    } else {
      assert (rest - start) % DAY == rest - start + DAY;
    }
  }

  /** The schedule, said without cases: a moment is active exactly when, counted around the week, it is less than the
      length of a window after the opening of a selected day. */
  lemma ScheduledIffInWindow(a: Account, now: Time)
    requires ValidTime(now) && a.enabled && a.keepalive && a.mode == "scheduled"
    ensures ActiveAt(a, now) <==> exists d | 1 <= d <= 7 :: Selected(a.weekdays, d) && InWindow(a, d, WeekMinute(now))
  {
    if ClockMinute(a.start).Some? && ClockMinute(a.end).Some? {
      var start, end := ClockMinute(a.start).value, ClockMinute(a.end).value;
      var minute := WeekMinute(now);
      var rest := now.hour * 60 + now.minute;
      var weekday := IsoWeekday(now.weekday);
      assert minute / DAY == weekday - 1 && minute % DAY == rest;
      var day := WindowDay(start, minute);
      forall d | 1 <= d <= 7 && InWindow(a, d, minute)
        ensures d == day
      {
        Distance(start, minute, d);
      }
      Distance(start, minute, day);
      WindowByCases(start, end, rest);
      assert InWindow(a, day, minute) <==> (rest - start) % DAY < (end - start) % DAY;
    }
  }

  /** Over all accounts: without a schedule an account is active always or never. */
  lemma ActiveIff(a: Account, now: Time)
    requires ValidTime(now)
    ensures ActiveAt(a, now) <==>
      && a.enabled && a.keepalive && a.mode != "off"
      && (a.mode == "scheduled" ==>
        exists d | 1 <= d <= 7 :: Selected(a.weekdays, d) && InWindow(a, d, WeekMinute(now)))
  {
    if a.enabled && a.keepalive && a.mode == "scheduled" {
      ScheduledIffInWindow(a, now);
    }
  }

  lemma WindowByCases(start: nat, end: nat, rest: nat)
    requires start < DAY && end < DAY && rest < DAY
    ensures (rest - start) % DAY < (end - start) % DAY <==>
      if start < end then start <= rest < end else start != end && (rest >= start || rest < end)
  {
    assert (rest - start) % DAY == if rest >= start then rest - start else rest - start + DAY;
    assert (end - start) % DAY == if end >= start then end - start else end - start + DAY;
  }

  // ---- The minutes of a week ----

  function Arc(opening: int, length: nat): set<nat> {
    set m: nat | m < WEEK && Gap(opening, m) < length
  }

  lemma LastOfArc(opening: int, length: nat, m: nat)
    requires 0 < length <= WEEK && m < WEEK
    ensures Gap(opening, m) == length - 1 <==> m == (opening + length - 1) % WEEK
  {
    var q, r := (m - opening) / WEEK, (m - opening) % WEEK;
    var p, s := (opening + length - 1) / WEEK, (opening + length - 1) % WEEK;
    assert m - opening == WEEK * q + r;
    assert opening + length - 1 == WEEK * p + s;
    if r == length - 1 {
      assert m - s == WEEK * (q + p);
    }
    if m == s {
      assert r - (length - 1) == -WEEK * (q + p);
    }
  }

  lemma {:induction false} ArcSize(opening: int, length: nat)
    requires length <= WEEK
    ensures |Arc(opening, length)| == length
    decreases length
  {
    if length == 0 {
      assert Arc(opening, 0) == {};
    } else {
      var shorter := Arc(opening, length - 1);
      var last: nat := (opening + length - 1) % WEEK;
      ArcSize(opening, length - 1);
      LastOfArc(opening, length, last);
      hide Gap;
      forall m: nat
        ensures m in Arc(opening, length) <==> m in shorter + {last}
      {
        if m < WEEK {
          LastOfArc(opening, length, m);
        }
      }
      assert Arc(opening, length) == shorter + {last} && last !in shorter;
    }
  }

  predicate InSomeWindow(a: Account, days: set<nat>, minute: nat)
    requires forall d | d in days :: 1 <= d <= 7
  {
    exists d | d in days :: InWindow(a, d, minute)
  }

  /** The active minutes of the windows of some days. */
  function Windows(a: Account, days: set<nat>): set<nat>
    requires forall d | d in days :: 1 <= d <= 7
  {
    set m: nat | m < WEEK && InSomeWindow(a, days, m)
  }

  /** A day more adds its window, which meets no other. */
  lemma WindowsSplit(a: Account, days: set<nat>, day: nat)
    requires (forall d | d in days :: 1 <= d <= 7) && day in days
    ensures Windows(a, days) == Windows(a, days - {day}) + Arc(Opening(a, day), Length(a))
    ensures Windows(a, days - {day}) !! Arc(Opening(a, day), Length(a))
  {
    hide Gap, Opening, Length;
    forall m: nat | m < WEEK && InWindow(a, day, m)
      ensures !InSomeWindow(a, days - {day}, m)
    {
      OneWindow(a, day, m);
    }
    forall m: nat | m < WEEK
      ensures InSomeWindow(a, days, m) <==> InSomeWindow(a, days - {day}, m) || InWindow(a, day, m)
    {
      if d :| d in days && InWindow(a, d, m) {
        assert d == day || d in days - {day};
      }
    }
  }

  lemma NoWindows(a: Account)
    ensures forall m :: !InSomeWindow(a, {}, m)
  {
  }

  lemma Distribute(n: nat, length: nat)
    requires n > 0
    ensures n * length == (n - 1) * length + length
  {
  }

  lemma {:induction false} WindowsSize(a: Account, days: set<nat>)
    requires forall d | d in days :: 1 <= d <= 7
    ensures |Windows(a, days)| == |days| * Length(a)
  {
    hide Opening, Length, InSomeWindow;
    if days == {} {
      NoWindows(a);
      assert Windows(a, days) == {};
    } else {
      var day :| day in days;
      WindowsSize(a, days - {day});
      ArcSize(Opening(a, day), Length(a));
      WindowsSplit(a, days, day);
      assert |days - {day}| == |days| - 1;
      Distribute(|days|, Length(a));
    }
  }

  lemma OneWindow(a: Account, day: nat, minute: nat)
    requires 1 <= day <= 7 && minute < WEEK && InWindow(a, day, minute)
    ensures forall d | 1 <= d <= 7 && InWindow(a, d, minute) :: d == day
  {
    var start := ClockMinute(a.start).value;
    Distance(start, minute, day);
    forall d | 1 <= d <= 7 && InWindow(a, d, minute)
      ensures d == day
    {
      Distance(start, minute, d);
    }
  }

  /** A week has as many active minutes as selected days times the length of the window, wherever the windows cross
      midnight or the end of the week. */
  lemma ActiveMinutes(a: Account)
    requires a.enabled && a.keepalive && a.mode == "scheduled"
    ensures |set m: nat | m < WEEK && ActiveAt(a, TimeAt(m))| == |SelectedDays(a.weekdays)| * Length(a)
  {
    var days := SelectedDays(a.weekdays);
    forall m: nat | m < WEEK
      ensures ActiveAt(a, TimeAt(m)) <==> InSomeWindow(a, days, m)
    {
      ScheduledIffInWindow(a, TimeAt(m));
      TimeRoundTrip(m);
      if d :| 1 <= d <= 7 && Selected(a.weekdays, d) && InWindow(a, d, m) {
        assert d in days;
      }
    }
    assert (set m: nat | m < WEEK && ActiveAt(a, TimeAt(m))) == Windows(a, days);
    WindowsSize(a, days);
  }
}
