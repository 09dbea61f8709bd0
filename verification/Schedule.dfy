/** Recurring protection windows and temporary pauses. */
module Schedule {
  import opened Basics

  const DAY: nat := 1440
  const WEEK: nat := 7 * DAY

  /** Weekday as the clock gives it (Sunday is 0) and minute of the day, in some time zone. */
  datatype Local = Local(weekday: nat, minute: nat) {
    predicate Valid() {
      weekday < 7 && minute < DAY
    }
  }

  /** An instant and what clocks show at it: None for a zone that cannot be loaded. */
  datatype Instant = Instant(at: int, zones: string -> Option<Local>)

  /** Days are the comma-separated, trimmed parts of the stored text; start and end are None when not HH:MM. */
  datatype Plan = Plan(enabled: bool, days: seq<string>, start: Option<nat>, end: Option<nat>, zone: string)

  function Itoa(day: nat): string
    requires 1 <= day <= 7
  {
    [['0', '1', '2', '3', '4', '5', '6', '7'][day]]
  }

  function IsoWeekday(weekday: nat): (day: nat)
    requires weekday < 7
    ensures 1 <= day <= 7 && day % 7 == weekday
  {
    if weekday == 0 then 7 else weekday
  }

  predicate ContainsDay(days: seq<string>, day: nat)
    requires 1 <= day <= 7
  {
    Itoa(day) in days
  }

  function Previous(day: nat): (p: nat)
    requires 1 <= day <= 7
    ensures 1 <= p <= 7 && (p % 7) == (day + 6) % 7
  {
    if day == 1 then 7 else day - 1
  }

  /** The schedule test on a local clock. */
  predicate ActiveLocal(days: seq<string>, start: nat, end: nat, local: Local)
    requires local.Valid()
  {
    var today := IsoWeekday(local.weekday);
    if start < end then ContainsDay(days, today) && start <= local.minute < end
    else if local.minute >= start then ContainsDay(days, today)
    else local.minute < end && ContainsDay(days, Previous(today))
  }

  predicate ActiveAt(plan: Plan, now: Instant) {
    if !plan.enabled then true
    else
      var local := now.zones(plan.zone);
      local.Some? && local.value.Valid() && plan.start.Some? && plan.end.Some?
      && ActiveLocal(plan.days, plan.start.value, plan.end.value, local.value)
  }

  predicate PausedAt(until: Option<int>, now: Instant) {
    until.Some? && now.at < until.value
  }

  // ----- the same as windows of the week, counted from Monday 00:00

  function MinuteOfWeek(local: Local): (m: nat)
    requires local.Valid()
    ensures m < WEEK
  {
    (IsoWeekday(local.weekday) - 1) * DAY + local.minute
  }

  function WindowLength(start: nat, end: nat): nat
    requires start < DAY && end < DAY
  {
    if start < end then end - start else end + DAY - start
  }

  /** Minute m of the week lies in the window that starts on that day, which may run past midnight and past Sunday. */
  predicate InWindow(day: nat, start: nat, end: nat, m: nat)
    requires 1 <= day <= 7 && start < DAY && end < DAY && m < WEEK
  {
    var since := m - ((day - 1) * DAY + start);
    (if since < 0 then since + WEEK else since) < WindowLength(start, end)
  }

  /** A schedule is active exactly in the union of the windows that start on its chosen days. */
  lemma ActiveIsUnionOfWindows(days: seq<string>, start: nat, end: nat, local: Local)
    requires local.Valid() && start < DAY && end < DAY
    ensures ActiveLocal(days, start, end, local) <==>
      exists day :: 1 <= day <= 7 && ContainsDay(days, day) && InWindow(day, start, end, MinuteOfWeek(local))
  {
    var today, m := IsoWeekday(local.weekday), MinuteOfWeek(local);
    assert InWindow(today, start, end, m) <==> if start < end then start <= local.minute < end else local.minute >= start;
    assert InWindow(Previous(today), start, end, m) <==> start >= end && local.minute < end;
    forall day | 1 <= day <= 7 && day != today && day != Previous(today)
      ensures !InWindow(day, start, end, m)
    {
      WindowIsNear(day, today, start, end, local.minute);
    }
  }

  lemma WindowIsNear(day: nat, today: nat, start: nat, end: nat, minute: nat)
    requires 1 <= day <= 7 && 1 <= today <= 7 && start < DAY && end < DAY && minute < DAY
    requires day != today && day != Previous(today)
    ensures !InWindow(day, start, end, (today - 1) * DAY + minute)
  {
  }

  /** How many of the first k minutes of a day are active. */
  function ActiveMinutes(days: seq<string>, start: nat, end: nat, weekday: nat, k: nat): nat
    requires weekday < 7 && k <= DAY
  {
    if k == 0 then 0 else
      var now := if ActiveLocal(days, start, end, Local(weekday, k - 1)) then 1 else 0;
      ActiveMinutes(days, start, end, weekday, k - 1) + now
  }

  function Within(k: int, lo: int, hi: int): int {
    if k <= lo then 0 else if k < hi then k - lo else hi - lo
  }

  lemma {:induction false} ActiveMinutesOfDay(days: seq<string>, start: nat, end: nat, weekday: nat, k: nat)
    requires weekday < 7 && k <= DAY && start < DAY && end < DAY
    ensures var today := IsoWeekday(weekday);
      var started := if ContainsDay(days, today) then 1 else 0;
      var running := if ContainsDay(days, Previous(today)) then 1 else 0;
      ActiveMinutes(days, start, end, weekday, k) ==
        if start < end then started * Within(k, start, end) else started * Within(k, start, DAY) + running * Within(k, 0, end)
    decreases k
  {
    if k > 0 {
      ActiveMinutesOfDay(days, start, end, weekday, k - 1);
    }
  }

  function ChosenDays(days: seq<string>, upto: nat): nat
    requires upto <= 7
  {
    if upto == 0 then 0 else ChosenDays(days, upto - 1) + if ContainsDay(days, upto) then 1 else 0
  }

  /** The active minutes of the days from Monday to day `upto`. */
  function ActiveMinutesUpto(days: seq<string>, start: nat, end: nat, upto: nat): nat
    requires upto <= 7
  {
    if upto == 0 then 0
    else ActiveMinutesUpto(days, start, end, upto - 1) + ActiveMinutes(days, start, end, upto % 7, DAY)
  }

  function Share(chosen: bool, minutes: nat): nat {
    if chosen then minutes else 0
  }

  lemma DayShare(days: seq<string>, start: nat, end: nat, day: nat, before: nat, after: nat)
    requires start < DAY && end < DAY && 1 <= day <= 7
    requires before == (if start < end then end - start else DAY - start) && after == if start < end then 0 else end
    ensures ActiveMinutes(days, start, end, day % 7, DAY) ==
      Share(ContainsDay(days, day), before) + Share(ContainsDay(days, Previous(day)), after)
  {
    ActiveMinutesOfDay(days, start, end, day % 7, DAY);
    assert IsoWeekday(day % 7) == day;
  }

  lemma OneMore(n: nat, chosen: bool, minutes: nat)
    ensures (n + if chosen then 1 else 0) * minutes == n * minutes + Share(chosen, minutes)
  {
  }

  lemma {:induction false} TotalUpto(days: seq<string>, start: nat, end: nat, upto: nat, before: nat, after: nat)
    requires start < DAY && end < DAY && 1 <= upto <= 7
    requires before == (if start < end then end - start else DAY - start) && after == if start < end then 0 else end
    ensures ActiveMinutesUpto(days, start, end, upto) ==
      ChosenDays(days, upto) * before + ChosenDays(days, upto - 1) * after + Share(ContainsDay(days, 7), after)
    decreases upto
  {
    DayShare(days, start, end, upto, before, after);
    OneMore(ChosenDays(days, upto - 1), ContainsDay(days, upto), before);
    if upto > 1 {
      TotalUpto(days, start, end, upto - 1, before, after);
      OneMore(ChosenDays(days, upto - 2), ContainsDay(days, upto - 1), after);
    } else {
      assert ChosenDays(days, 0) == 0 && ActiveMinutesUpto(days, start, end, 0) == 0;
    }
  }

  /** However the window wraps, a week has as many active minutes as chosen days times the window's length. */
  lemma WeeklyTotal(days: seq<string>, start: nat, end: nat)
    requires start < DAY && end < DAY
    ensures ActiveMinutesUpto(days, start, end, 7) == ChosenDays(days, 7) * WindowLength(start, end)
  {
    var before := if start < end then end - start else DAY - start;
    var after := if start < end then 0 else end;
    TotalUpto(days, start, end, 7, before, after);
    OneMore(ChosenDays(days, 6), ContainsDay(days, 7), after);
    assert ChosenDays(days, 7) * before + ChosenDays(days, 7) * after == ChosenDays(days, 7) * (before + after);
  }

  // ----- normalising the stored days

  /** Keep the valid day numbers, once each, in order. */
  method NormalizeDays(days: seq<string>, atoi: string -> Option<int>) returns (result: seq<string>)
    requires forall day :: 1 <= day <= 7 ==> atoi(Itoa(day)) == Some(day)
    ensures forall day :: 1 <= day <= 7 ==> (ContainsDay(result, day) <==> exists i :: 0 <= i < |days| && atoi(days[i]) == Some(day))
    ensures result == Canonical(atoi, days, 7)
    ensures forall i, j :: 0 <= i < j < |result| ==> |result[i]| == 1 == |result[j]| && result[i][0] as int < result[j][0] as int
  {
    CanonicalInOrder(atoi, days, 7);
    var seen: set<int> := {};
    for i := 0 to |days|
      invariant forall day :: day in seen <==> 1 <= day <= 7 && exists k :: 0 <= k < i && atoi(days[k]) == Some(day)
    {
      var day := atoi(days[i]);
      if day.Some? && 1 <= day.value <= 7 {
        seen := seen + {day.value};
      }
    }
    result := [];
    for day := 1 to 8
      invariant result == Canonical(atoi, days, day - 1)
    {
      assert day in seen <==> Named(atoi, days, day);
      if day in seen {
        result := result + [Itoa(day)];
      }
    }
    forall day | 1 <= day <= 7
      ensures ContainsDay(result, day) <==> exists i :: 0 <= i < |days| && atoi(days[i]) == Some(day)
    {
      CanonicalContains(atoi, days, 7, day);
    }
  }

  predicate Named(atoi: string -> Option<int>, days: seq<string>, day: nat) {
    exists i :: 0 <= i < |days| && atoi(days[i]) == Some(day)
  }

  function Canonical(atoi: string -> Option<int>, days: seq<string>, upto: nat): seq<string>
    requires upto <= 7
  {
    if upto == 0 then []
    else Canonical(atoi, days, upto - 1) + if Named(atoi, days, upto) then [Itoa(upto)] else []
  }

  lemma {:induction false} CanonicalContains(atoi: string -> Option<int>, days: seq<string>, upto: nat, day: nat)
    requires upto <= 7 && 1 <= day <= 7
    ensures Itoa(day) in Canonical(atoi, days, upto) <==> day <= upto && Named(atoi, days, day)
    decreases upto
  {
    if upto > 0 {
      CanonicalContains(atoi, days, upto - 1, day);
    }
  }

  /** Single digits, each once and in order. */
  lemma {:induction false} CanonicalInOrder(atoi: string -> Option<int>, days: seq<string>, upto: nat)
    requires upto <= 7
    ensures DaysInOrder(Canonical(atoi, days, upto), upto)
    decreases upto
  {
    if upto > 0 {
      CanonicalInOrder(atoi, days, upto - 1);
      OneMoreDay(Canonical(atoi, days, upto - 1), upto);
      assert Canonical(atoi, days, upto - 1) + [] == Canonical(atoi, days, upto - 1);
    }
  }

  predicate DaysInOrder(days: seq<string>, upto: nat) {
    && (forall i :: 0 <= i < |days| ==> |days[i]| == 1 && 49 <= days[i][0] as int <= 48 + upto)
    && (forall i, j :: 0 <= i < j < |days| ==> days[i][0] as int < days[j][0] as int)
  }

  lemma OneMoreDay(days: seq<string>, upto: nat)
    requires 1 <= upto <= 7 && DaysInOrder(days, upto - 1)
    ensures DaysInOrder(days, upto) && DaysInOrder(days + [Itoa(upto)], upto)
  {
    assert |Itoa(upto)| == 1 && Itoa(upto)[0] as int == 48 + upto;
  }

  /** Normalising again changes nothing. */
  lemma {:induction false} CanonicalIsIdempotent(atoi: string -> Option<int>, days: seq<string>, upto: nat)
    requires upto <= 7 && forall day :: 1 <= day <= 7 ==> atoi(Itoa(day)) == Some(day)
    ensures Canonical(atoi, Canonical(atoi, days, 7), upto) == Canonical(atoi, days, upto)
    decreases upto
  {
    if upto > 0 {
      CanonicalIsIdempotent(atoi, days, upto - 1);
      var once := Canonical(atoi, days, 7);
      CanonicalContains(atoi, days, 7, upto);
      CanonicalElements(atoi, days, 7);
      forall i | 0 <= i < |once| && atoi(once[i]) == Some(upto)
        ensures once[i] == Itoa(upto)
      {
        assert once[i] in once;
        var day :| 1 <= day <= 7 && once[i] == Itoa(day);
      }
      assert Named(atoi, once, upto) <==> Itoa(upto) in once;
    }
  }

  lemma {:induction false} CanonicalElements(atoi: string -> Option<int>, days: seq<string>, upto: nat)
    requires upto <= 7
    ensures forall text :: text in Canonical(atoi, days, upto) ==> exists day :: 1 <= day <= 7 && text == Itoa(day)
    decreases upto
  {
    if upto > 0 {
      CanonicalElements(atoi, days, upto - 1);
    }
  }

  /** Every day that is meant is written plainly: "01" and "+1" are read as day 1 by normalizing, but not by the schedule. */
  predicate PlainDays(atoi: string -> Option<int>, days: seq<string>) {
    forall day :: 1 <= day <= 7 && Named(atoi, days, day) ==> ContainsDay(days, day)
  }

  predicate SameSchedule(days: seq<string>, other: seq<string>, start: nat, end: nat) {
    forall weekday, minute :: 0 <= weekday < 7 && 0 <= minute < DAY ==>
      (ActiveLocal(days, start, end, Local(weekday, minute)) <==> ActiveLocal(other, start, end, Local(weekday, minute)))
  }

  lemma NormalizedContains(atoi: string -> Option<int>, days: seq<string>, day: nat)
    requires 1 <= day <= 7 && atoi(Itoa(day)) == Some(day)
    ensures ContainsDay(Canonical(atoi, days, 7), day) <==> Named(atoi, days, day)
    ensures ContainsDay(days, day) ==> Named(atoi, days, day)
  {
    CanonicalContains(atoi, days, 7, day);
  }

  /** Normalizing leaves the schedule active at the same minutes exactly when the days are written plainly. */
  lemma NormalizingKeepsScheduleExactlyWhen(atoi: string -> Option<int>, days: seq<string>, start: nat, end: nat)
    requires start < DAY && end < DAY && forall day :: 1 <= day <= 7 ==> atoi(Itoa(day)) == Some(day)
    ensures SameSchedule(Canonical(atoi, days, 7), days, start, end) <==> PlainDays(atoi, days)
  {
    var normal := Canonical(atoi, days, 7);
    forall day | 1 <= day <= 7
      ensures ContainsDay(normal, day) <==> Named(atoi, days, day)
      ensures ContainsDay(days, day) ==> Named(atoi, days, day)
    {
      NormalizedContains(atoi, days, day);
    }
    if SameSchedule(normal, days, start, end) {
      forall day | 1 <= day <= 7 && Named(atoi, days, day)
        ensures ContainsDay(days, day)
      {
        StartsOnItsDay(normal, days, start, end, day);
      }
    }
  }

  /** At the minute a window starts, only its own day decides. */
  lemma StartsOnItsDay(days: seq<string>, other: seq<string>, start: nat, end: nat, day: nat)
    requires start < DAY && end < DAY && 1 <= day <= 7 && SameSchedule(days, other, start, end)
    ensures ContainsDay(days, day) <==> ContainsDay(other, day)
  {
    var local := Local(day % 7, start);
    assert IsoWeekday(local.weekday) == day;
    assert ActiveLocal(days, start, end, local) <==> ActiveLocal(other, start, end, local);
  }

  /** Monday written "01": the schedule as stored is never active, and normalizing it turns it on. */
  lemma LeadingZeroTurnsOn(atoi: string -> Option<int>, start: nat, end: nat, local: Local)
    requires start < DAY && end < DAY && (forall day :: 1 <= day <= 7 ==> atoi(Itoa(day)) == Some(day)) && atoi("01") == Some(1)
    requires local.Valid()
    ensures !ActiveLocal(["01"], start, end, local)
    ensures ActiveLocal(Canonical(atoi, ["01"], 7), start, end, local) <==> InWindow(1, start, end, MinuteOfWeek(local))
    ensures !SameSchedule(Canonical(atoi, ["01"], 7), ["01"], start, end)
  {
    var normal := Canonical(atoi, ["01"], 7);
    assert ["01"][0] == "01";
    forall day | 1 <= day <= 7
      ensures !ContainsDay(["01"], day) && (ContainsDay(normal, day) <==> day == 1)
    {
      assert |Itoa(day)| == 1 && |"01"| == 2;
      NormalizedContains(atoi, ["01"], day);
    }
    ActiveIsUnionOfWindows(normal, start, end, local);
    NormalizingKeepsScheduleExactlyWhen(atoi, ["01"], start, end);
  }
}
