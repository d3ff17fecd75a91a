/** The school-day window of the menu plugin (schoolmenu.py): starting today,
    walk forward one day at a time, skip Saturdays and Sundays, and stop after
    the requested number of weekdays. `_get_empty_menu_for_days` labels every
    date of the window "Menu not available"; `_convert_to_date_format` gives
    each date its cleaned menu items or "No menu available". */
module MenuWindow {
  import opened Wrappers
  import opened Calendar
  import opened MenuItems

  const MenuNotAvailable := "Menu not available"
  const NoMenuAvailable := "No menu available"

  /** One entry of the result dict, held as the date its key is formatted
      from and its item list; the key itself is `Key()`, the date's
      `%Y-%m-%d` text, which determines the date (`IsoDateInjective`). The
      dict keeps insertion order, so a menu is a sequence of entries. */
  datatype MenuDay = MenuDay(date: Date, items: seq<string>) {
    function Key(): string
      requires ValidDate(date)
    {
      IsoDate(date)
    }
  }

  /** The dict's keys, in order. */
  function Keys(menu: seq<MenuDay>): (ks: seq<string>)
    requires forall i :: 0 <= i < |menu| ==> ValidDate(menu[i].date)
    ensures |ks| == |menu|
  {
    seq(|menu|, i requires 0 <= i < |menu| => menu[i].Key())
  }

  /** `_is_school_day`: Monday to Friday. */
  predicate IsSchoolDay(d: Date)
    requires ValidDate(d)
  {
    Weekday(d) < 5
  }

  /** `_is_school_day` agrees with the walk's test on day numbers. */
  lemma SchoolDayOrdinal(d: Date)
    requires ValidDate(d)
    ensures IsSchoolDay(d) <==> SchoolOrdinal(Ordinal(d))
  {
  }

  /** A weekend lasts at most two days: a day that is not a school day is
      followed by one within the next two days, and after a school day at
      most two days pass before the next one. */
  lemma WeekendEnds(k: int)
    ensures !SchoolOrdinal(k) ==> SchoolOrdinal(k + 1) || SchoolOrdinal(k + 2)
    ensures SchoolOrdinal(k) ==> SchoolOrdinal(k + 1) || SchoolOrdinal(k + 3)
  {
    OrdinalWeekdayStep(k);
    OrdinalWeekdayStep(k + 1);
    OrdinalWeekdayStep(k + 2);
  }

  /** `_is_school_day` for the day with ordinal `k`. The walk holds its
      current date as an ordinal, as Python's date arithmetic does:
      `d + timedelta(days=1)` is `date.fromordinal(d.toordinal() + 1)` and
      `d.weekday()` is `(d.toordinal() + 6) % 7`. */
  predicate SchoolOrdinal(k: int) {
    OrdinalWeekday(k) < 5
  }

  /** How many times the window loop advances its date when it starts on
      weekday `w` and must collect `n` school days; the loop also advances once
      after the last one it collects. */
  function Steps(w: int, n: nat): nat
    requires 0 <= w < 7
    decreases n, if w < 5 then 0 else 7 - w
  {
    if n == 0 then 0 else 1 + Steps(NextWeekday(w), if w < 5 then n - 1 else n)
  }

  /** The walk from day `k` that collects `n` school days never steps from
      9999-12-31, where Python's date arithmetic raises OverflowError. */
  predicate WindowFits(k: int, n: nat) {
    1 <= k && k + Steps(OrdinalWeekday(k), n) <= MaxOrdinal
  }

  /** One step of the walk stays within the calendar. */
  lemma WindowStep(k: int, n: nat)
    requires WindowFits(k, n) && n > 0
    ensures k < MaxOrdinal && WindowFits(k + 1, if SchoolOrdinal(k) then n - 1 else n)
  {
    OrdinalWeekdayStep(k);
  }

  /** The ordinals of the first `n` school days from day `k` on. */
  function SchoolDays(k: int, n: nat): (r: seq<int>)
    requires WindowFits(k, n)
    ensures |r| == n
    ensures forall i :: 0 <= i < n ==> SchoolOrdinal(r[i]) && k <= r[i] <= MaxOrdinal
    decreases MaxOrdinal - k
  {
    if n == 0 then []
    else
      WindowStep(k, n);
      if SchoolOrdinal(k) then [k] + SchoolDays(k + 1, n - 1) else SchoolDays(k + 1, n)
  }

  lemma SchoolDaysStep(k: int, n: nat)
    requires WindowFits(k, n) && n > 0
    ensures k < MaxOrdinal
    ensures SchoolOrdinal(k) ==> WindowFits(k + 1, n - 1) && SchoolDays(k, n) == [k] + SchoolDays(k + 1, n - 1)
    ensures !SchoolOrdinal(k) ==> WindowFits(k + 1, n) && SchoolDays(k, n) == SchoolDays(k + 1, n)
  {
    WindowStep(k, n);
  }

  /** The days of the window are strictly increasing. */
  lemma {:induction false} SchoolDaysIncreasing(k: int, n: nat)
    requires WindowFits(k, n)
    ensures forall i, j :: 0 <= i < j < n ==> SchoolDays(k, n)[i] < SchoolDays(k, n)[j]
    decreases MaxOrdinal - k
  {
    if n > 0 {
      SchoolDaysStep(k, n);
      if SchoolOrdinal(k) {
        SchoolDaysIncreasing(k + 1, n - 1);
      } else {
        SchoolDaysIncreasing(k + 1, n);
      }
    }
  }

  /** The window starts at the first school day on or after day `k`. */
  lemma {:induction false} SchoolDaysStartEarly(k: int, n: nat)
    requires WindowFits(k, n) && n > 0
    ensures forall j :: k <= j < SchoolDays(k, n)[0] ==> !SchoolOrdinal(j)
    decreases MaxOrdinal - k
  {
    SchoolDaysStep(k, n);
    if !SchoolOrdinal(k) {
      SchoolDaysStartEarly(k + 1, n);
    }
  }

  /** No school day falls strictly between two consecutive days of `r`. */
  predicate GapFree(r: seq<int>) {
    forall i, j :: 0 <= i < |r| - 1 && r[i] < j < r[i + 1] ==> !SchoolOrdinal(j)
  }

  /** Putting day `k` in front of a gap-free list keeps it gap-free when no
      school day lies between `k` and the list's first day. */
  lemma GapFreeCons(k: int, r: seq<int>)
    requires GapFree(r)
    requires r != [] ==> forall j :: k < j < r[0] ==> !SchoolOrdinal(j)
    ensures GapFree([k] + r)
  {
    var s := [k] + r;
    forall i, j | 0 <= i < |s| - 1 && s[i] < j < s[i + 1]
      ensures !SchoolOrdinal(j)
    {
      if i > 0 {
        assert s[i] == r[i - 1] && s[i + 1] == r[i];
      }
    }
  }

  /** The window skips no school day: none falls strictly between two
      consecutive days of the window. */
  lemma {:induction false} SchoolDaysGapFree(k: int, n: nat)
    requires WindowFits(k, n)
    ensures GapFree(SchoolDays(k, n))
    decreases MaxOrdinal - k
  {
    if n > 0 {
      SchoolDaysStep(k, n);
      if SchoolOrdinal(k) {
        SchoolDaysGapFree(k + 1, n - 1);
        GapFreeFromSchoolDay(k, n);
      } else {
        SchoolDaysGapFree(k + 1, n);
      }
    }
  }

  /** A window starting on a school day is gap-free when the rest of it is. */
  lemma GapFreeFromSchoolDay(k: int, n: nat)
    requires WindowFits(k, n) && n > 0 && SchoolOrdinal(k) && WindowFits(k + 1, n - 1)
    requires GapFree(SchoolDays(k + 1, n - 1))
    ensures GapFree(SchoolDays(k, n))
  {
    SchoolDaysStep(k, n);
    if n > 1 {
      SchoolDaysStartEarly(k + 1, n - 1);
    }
    GapFreeCons(k, SchoolDays(k + 1, n - 1));
  }

  /** From Monday to Friday, `n` school days take `n` steps as long as they do
      not reach past Friday. */
  lemma {:induction false} StepsWithinWeek(w: int, n: nat)
    requires 0 <= w < 5 && w + n <= 5
    ensures Steps(w, n) == n
    decreases n
  {
    if n > 1 {
      StepsWithinWeek(w + 1, n - 1);
    }
  }

  /** From Saturday or Sunday, the walk first reaches Monday. */
  lemma StepsFromWeekend(w: int, n: nat)
    requires 5 <= w < 7 && 0 < n <= 5
    ensures Steps(w, n) == n + 7 - w
  {
    StepsWithinWeek(0, n);
    if w == 5 {
      assert Steps(5, n) == 1 + Steps(6, n);
    }
  }

  /** At most five school days never take more than seven steps. */
  lemma {:induction false} StepsAtMostAWeek(w: int, n: nat)
    requires 0 <= w < 7 && n <= 5
    ensures Steps(w, n) <= n + 2
    decreases n
  {
    if n > 0 {
      if w < 4 {
        StepsAtMostAWeek(w + 1, n - 1);
      } else if w == 4 {
        if n > 1 {
          StepsFromWeekend(5, n - 1);
        }
      } else {
        StepsFromWeekend(w, n);
      }
    }
  }

  /** Every date before the year 9999 leaves room for a window of up to five
      school days. */
  lemma WindowFitsForValidCounts(today: Date, n: nat)
    requires ValidDate(today) && today.year < MaxYear && n <= 5
    ensures WindowFits(Ordinal(today), n)
  {
    OrdinalBeforeLastYear(today);
    StepsAtMostAWeek(Weekday(today), n);
  }

  // ---- the two menus built over the window ----

  /** `_is_date_in_menu_range`. */
  predicate InMenuRange(d: Date, menuMonth: int, menuYear: int) {
    d.month == menuMonth && d.year == menuYear
  }

  /** The dates `_is_date_in_menu_range` accepts are one run of consecutive
      days: from the first to the last day of the menu's month. */
  lemma MenuRangeIsMonth(d: Date, menuMonth: int, menuYear: int)
    requires ValidDate(d) && ValidDate(Date(menuYear, menuMonth, 1))
    ensures var first := Date(menuYear, menuMonth, 1);
      var last := Date(menuYear, menuMonth, DaysInMonth(menuYear, menuMonth));
      && ValidDate(last)
      && (InMenuRange(d, menuMonth, menuYear) <==> Ordinal(first) <= Ordinal(d) <= Ordinal(last))
  {
    var first := Date(menuYear, menuMonth, 1);
    var last := Date(menuYear, menuMonth, DaysInMonth(menuYear, menuMonth));
    if InMenuRange(d, menuMonth, menuYear) {
      if d != first {
        OrdinalMonotone(first, d);
      }
      if d != last {
        OrdinalMonotone(d, last);
      }
    } else if Before(d, first) {
      OrdinalMonotone(d, first);
    } else {
      OrdinalMonotone(last, d);
    }
  }

  /** The item list `_convert_to_date_format` stores for date `d`. */
  function DayEntry(daily: DailyItems, menuMonth: int, menuYear: int, d: Date): seq<string> {
    if InMenuRange(d, menuMonth, menuYear) && d.day in daily && Filtered(daily[d.day]) != []
    then Filtered(daily[d.day])
    else [NoMenuAvailable]
  }

  /** Days given as ordinals, all within the calendar. */
  predicate InCalendar(days: seq<int>) {
    forall i :: 0 <= i < |days| ==> 1 <= days[i] <= MaxOrdinal
  }

  /** The entry `_get_empty_menu_for_days` stores for the day with ordinal `k`. */
  function EmptyEntry(k: int): MenuDay
    requires 1 <= k <= MaxOrdinal
  {
    MenuDay(FromOrdinal(k), [MenuNotAvailable])
  }

  /** The entry `_convert_to_date_format` stores for the day with ordinal `k`. */
  function FilledEntry(daily: DailyItems, menuMonth: int, menuYear: int, k: int): MenuDay
    requires 1 <= k <= MaxOrdinal
  {
    var d := FromOrdinal(k);
    MenuDay(d, DayEntry(daily, menuMonth, menuYear, d))
  }

  /** One empty entry per day, in order. */
  function EmptyEntries(days: seq<int>): (menu: seq<MenuDay>)
    requires InCalendar(days)
    ensures |menu| == |days|
  {
    if days == [] then [] else EmptyEntries(days[..|days| - 1]) + [EmptyEntry(days[|days| - 1])]
  }

  /** One filled entry per day, in order. */
  function FilledEntries(daily: DailyItems, menuMonth: int, menuYear: int, days: seq<int>): (menu: seq<MenuDay>)
    requires InCalendar(days)
    ensures |menu| == |days|
  {
    if days == [] then []
    else FilledEntries(daily, menuMonth, menuYear, days[..|days| - 1]) + [FilledEntry(daily, menuMonth, menuYear, days[|days| - 1])]
  }

  /** Entry `i` of `EmptyEntries(days)` is the entry for `days[i]`. */
  lemma {:induction false} EmptyEntriesAt(days: seq<int>)
    requires InCalendar(days)
    ensures forall i :: 0 <= i < |days| ==> EmptyEntries(days)[i] == EmptyEntry(days[i])
  {
    if days != [] {
      EmptyEntriesAt(days[..|days| - 1]);
    }
  }

  /** Entry `i` of `FilledEntries(daily, menuMonth, menuYear, days)` is the
      entry for `days[i]`. */
  lemma {:induction false} FilledEntriesAt(daily: DailyItems, menuMonth: int, menuYear: int, days: seq<int>)
    requires InCalendar(days)
    ensures forall i :: 0 <= i < |days| ==>
      FilledEntries(daily, menuMonth, menuYear, days)[i] == FilledEntry(daily, menuMonth, menuYear, days[i])
  {
    if days != [] {
      FilledEntriesAt(daily, menuMonth, menuYear, days[..|days| - 1]);
    }
  }

  /** The empty menu of the window starting at day `k`. */
  function EmptyMenu(k: int, n: nat): seq<MenuDay>
    requires WindowFits(k, n)
  {
    EmptyEntries(SchoolDays(k, n))
  }

  /** The filled menu of the window starting at day `k`. */
  function FilledMenu(daily: DailyItems, menuMonth: int, menuYear: int, k: int, n: nat): seq<MenuDay>
    requires WindowFits(k, n)
  {
    FilledEntries(daily, menuMonth, menuYear, SchoolDays(k, n))
  }

  lemma EmptyEntriesSnoc(days: seq<int>, k: int)
    requires InCalendar(days) && 1 <= k <= MaxOrdinal
    ensures InCalendar(days + [k])
    ensures EmptyEntries(days + [k]) == EmptyEntries(days) + [EmptyEntry(k)]
  {
    assert (days + [k])[..|days|] == days;
  }

  lemma FilledEntriesSnoc(daily: DailyItems, menuMonth: int, menuYear: int, days: seq<int>, k: int)
    requires InCalendar(days) && 1 <= k <= MaxOrdinal
    ensures InCalendar(days + [k])
    ensures FilledEntries(daily, menuMonth, menuYear, days + [k]) ==
      FilledEntries(daily, menuMonth, menuYear, days) + [FilledEntry(daily, menuMonth, menuYear, k)]
  {
    assert (days + [k])[..|days|] == days;
  }

  /** A walk that started at day `start` to find `n` school days has reached
      day `cur`: it found the school days `done` on the way and the `left`
      school days from `cur` on complete the window. */
  predicate Walked(start: int, n: nat, done: seq<int>, cur: int, left: nat) {
    && WindowFits(start, n) && WindowFits(cur, left)
    && SchoolDays(start, n) == done + SchoolDays(cur, left)
  }

  /** One step of the walk from day `cur` with `left` school days still to
      find: a school day moves from the rest of the window to the days
      already done, any other day is skipped. */
  lemma WalkStep(start: int, n: nat, done: seq<int>, cur: int, left: nat)
    requires left > 0 && Walked(start, n, done, cur, left)
    ensures cur < MaxOrdinal
    ensures SchoolOrdinal(cur) ==> Walked(start, n, done + [cur], cur + 1, left - 1)
    ensures !SchoolOrdinal(cur) ==> Walked(start, n, done, cur + 1, left)
  {
    SchoolDaysStep(cur, left);
    if SchoolOrdinal(cur) {
      assert done + ([cur] + SchoolDays(cur + 1, left - 1)) == (done + [cur]) + SchoolDays(cur + 1, left - 1);
    }
  }

  /** A finished walk found exactly the window. */
  lemma WalkDone(start: int, n: nat, done: seq<int>, cur: int)
    requires Walked(start, n, done, cur, 0)
    ensures done == SchoolDays(start, n)
  {
    assert done + [] == done;
  }

  /** `_get_empty_menu_for_days`, with `date.today()` passed in as `today`. */
  method EmptyMenuForDays(today: Date, n: nat) returns (menu: seq<MenuDay>)
    requires ValidDate(today) && WindowFits(Ordinal(today), n)
    ensures menu == EmptyMenu(Ordinal(today), n)
  {
    menu := EmptyMenuFrom(Ordinal(today), n);
  }

  /** The loop of `_get_empty_menu_for_days`, walking from the day with
      ordinal `start`. */
  method EmptyMenuFrom(start: int, n: nat) returns (menu: seq<MenuDay>)
    requires WindowFits(start, n)
    ensures menu == EmptyMenu(start, n)
  {
    menu := [];
    var current := start;
    var added := 0;
    ghost var done: seq<int> := [];
    ghost var left: nat := n;
    while added < n
      invariant added + left == n && Walked(start, n, done, current, left)
      invariant InCalendar(done) && menu == EmptyEntries(done)
      decreases MaxOrdinal - current
    {
      WalkStep(start, n, done, current, left);
      if SchoolOrdinal(current) {
        menu := menu + [MenuDay(FromOrdinal(current), [MenuNotAvailable])];
        EmptyEntriesSnoc(done, current);
        done := done + [current];
        left := left - 1;
        added := added + 1;
      }
      current := current + 1;
    }
    WalkDone(start, n, done, current);
  }

  /** The body of the walk in `_convert_to_date_format` for one school day:
      the day's items without the standard ones, or "No menu available". */
  method ItemsForDate(daily: DailyItems, menuMonth: int, menuYear: int, d: Date) returns (items: seq<string>)
    ensures items == DayEntry(daily, menuMonth, menuYear, d)
  {
    if InMenuRange(d, menuMonth, menuYear) {
      if d.day in daily {
        var filtered := FilterStandardItems(daily[d.day]);
        if filtered != [] {
          items := filtered;
        } else {
          items := [NoMenuAvailable];
        }
      } else {
        items := [NoMenuAvailable];
      }
    } else {
      items := [NoMenuAvailable];
    }
  }

  /** `_convert_to_date_format`: the same walk, filling each date from the
      grouped items. */
  method ConvertToDateFormat(daily: DailyItems, menuMonth: int, menuYear: int, today: Date, n: nat)
    returns (menu: seq<MenuDay>)
    requires ValidDate(today) && WindowFits(Ordinal(today), n)
    ensures menu == FilledMenu(daily, menuMonth, menuYear, Ordinal(today), n)
  {
    menu := ConvertFrom(daily, menuMonth, menuYear, Ordinal(today), n);
  }

  /** The loop of `_convert_to_date_format`, walking from the day with
      ordinal `start`. */
  method ConvertFrom(daily: DailyItems, menuMonth: int, menuYear: int, start: int, n: nat)
    returns (menu: seq<MenuDay>)
    requires WindowFits(start, n)
    ensures menu == FilledMenu(daily, menuMonth, menuYear, start, n)
  {
    menu := [];
    var search := start;
    var added := 0;
    ghost var done: seq<int> := [];
    ghost var left: nat := n;
    while added < n
      invariant added + left == n && Walked(start, n, done, search, left)
      invariant InCalendar(done) && menu == FilledEntries(daily, menuMonth, menuYear, done)
      decreases MaxOrdinal - search
    {
      WalkStep(start, n, done, search, left);
      if SchoolOrdinal(search) {
        var date := FromOrdinal(search);
        var items := ItemsForDate(daily, menuMonth, menuYear, date);
        menu := menu + [MenuDay(date, items)];
        FilledEntriesSnoc(daily, menuMonth, menuYear, done, search);
        done := done + [search];
        left := left - 1;
        added := added + 1;
      }
      search := search + 1;
    }
    WalkDone(start, n, done, search);
  }

  // ---- what the two menus promise ----

  /** `menu` has exactly one entry for each school day of the window of `n`
      days from day `k`, in order. */
  predicate OnWindow(menu: seq<MenuDay>, k: int, n: nat) {
    && WindowFits(k, n)
    && |menu| == n
    && forall i :: 0 <= i < n ==> menu[i].date == FromOrdinal(SchoolDays(k, n)[i])
  }

  /** Entry `i` of either menu is keyed by the `i`-th school day of the
      window; the empty menu marks it "Menu not available" and the filled
      menu gives it that date's entry. */
  lemma MenusFollowWindow(daily: DailyItems, menuMonth: int, menuYear: int, k: int, n: nat)
    requires WindowFits(k, n)
    ensures OnWindow(EmptyMenu(k, n), k, n) && OnWindow(FilledMenu(daily, menuMonth, menuYear, k, n), k, n)
    ensures forall i :: 0 <= i < n ==>
      var d := FromOrdinal(SchoolDays(k, n)[i]);
      && EmptyMenu(k, n)[i] == MenuDay(d, [MenuNotAvailable])
      && FilledMenu(daily, menuMonth, menuYear, k, n)[i] == MenuDay(d, DayEntry(daily, menuMonth, menuYear, d))
  {
    EmptyEntriesAt(SchoolDays(k, n));
    FilledEntriesAt(daily, menuMonth, menuYear, SchoolDays(k, n));
  }

  /** Two menus over the same window have the same keys in the same order. */
  lemma OnWindowSameKeys(a: seq<MenuDay>, b: seq<MenuDay>, k: int, n: nat)
    requires OnWindow(a, k, n) && OnWindow(b, k, n)
    ensures Keys(a) == Keys(b)
  {
    forall i | 0 <= i < n ensures Keys(a)[i] == Keys(b)[i] {
      assert a[i].date == b[i].date;
    }
  }

  /** A menu over the window from `today` holds school days on or after
      today, in increasing order, under keys that never repeat, so the dict
      holds all `n` entries. */
  lemma OnWindowDates(menu: seq<MenuDay>, today: Date, n: nat)
    requires ValidDate(today) && OnWindow(menu, Ordinal(today), n)
    ensures forall i :: 0 <= i < n ==>
      ValidDate(menu[i].date) && IsSchoolDay(menu[i].date) && Ordinal(today) <= Ordinal(menu[i].date)
    ensures forall i, j :: 0 <= i < j < n ==> Ordinal(menu[i].date) < Ordinal(menu[j].date)
    ensures forall i, j :: 0 <= i < j < n ==> Keys(menu)[i] != Keys(menu)[j]
  {
    var days := SchoolDays(Ordinal(today), n);
    forall i | 0 <= i < n
      ensures ValidDate(menu[i].date) && IsSchoolDay(menu[i].date) && Ordinal(today) <= Ordinal(menu[i].date)
    {
      EntryOrdinal(menu, Ordinal(today), n, i);
    }
    SchoolDaysIncreasing(Ordinal(today), n);
    forall i, j | 0 <= i < j < n
      ensures Ordinal(menu[i].date) < Ordinal(menu[j].date)
    {
      EntryOrdinal(menu, Ordinal(today), n, i);
      EntryOrdinal(menu, Ordinal(today), n, j);
    }
    KeysDistinct(menu);
  }

  /** Entry `i` of a menu over the window is the `i`-th school day. */
  lemma EntryOrdinal(menu: seq<MenuDay>, k: int, n: nat, i: nat)
    requires OnWindow(menu, k, n) && i < n
    ensures ValidDate(menu[i].date) && Ordinal(menu[i].date) == SchoolDays(k, n)[i]
    ensures IsSchoolDay(menu[i].date)
  {
    OrdinalOfFromOrdinal(SchoolDays(k, n)[i]);
  }

  /** Entries with different dates have different keys. */
  lemma KeysDistinct(menu: seq<MenuDay>)
    requires forall i :: 0 <= i < |menu| ==> ValidDate(menu[i].date)
    requires forall i, j :: 0 <= i < j < |menu| ==> menu[i].date != menu[j].date
    ensures forall i, j :: 0 <= i < j < |menu| ==> Keys(menu)[i] != Keys(menu)[j]
  {
    forall i, j | 0 <= i < j < |menu|
      ensures Keys(menu)[i] != Keys(menu)[j]
    {
      IsoDateInjective(menu[i].date, menu[j].date);
    }
  }

  /** Every entry of the filled menu is non-empty; it is "No menu available"
      when the date is outside the menu's month, has no grouped items, or has
      only standard items, and otherwise it is the day's grouped items
      without the standard ones. */
  lemma FilledMenuEntries(daily: DailyItems, menuMonth: int, menuYear: int, today: Date, n: nat, i: nat)
    requires ValidDate(today) && WindowFits(Ordinal(today), n) && i < n
    ensures var d := FromOrdinal(SchoolDays(Ordinal(today), n)[i]);
      var e := DayEntry(daily, menuMonth, menuYear, d);
      && FilledMenu(daily, menuMonth, menuYear, Ordinal(today), n)[i] == MenuDay(d, e)
      && e != []
      && (!InMenuRange(d, menuMonth, menuYear) || d.day !in daily ==> e == [NoMenuAvailable])
      && (InMenuRange(d, menuMonth, menuYear) && d.day in daily ==>
            if Filtered(daily[d.day]) == [] then e == [NoMenuAvailable]
            else e == Filtered(daily[d.day]) && forall x :: x in e ==> x in daily[d.day] && !IsStandard(x))
  {
    MenusFollowWindow(daily, menuMonth, menuYear, Ordinal(today), n);
    var d := FromOrdinal(SchoolDays(Ordinal(today), n)[i]);
    if InMenuRange(d, menuMonth, menuYear) && d.day in daily {
      FilteredMembers(daily[d.day]);
    }
  }
}
