/** How far back the weekday lookback must be allowed to go. */
module LookbackLaws {
  import opened Predictor

  lemma {:induction false} CalendarDaysBack(start: int, n: int)
    ensures Day(start - n * SECONDS_PER_DAY) == Day(start) - n
  {
  }

  lemma {:induction false} OnlyWeekdays(start: int, n: int)
    ensures forall d | d in WeekdaysBack(start, n) :: 1 <= d <= n && !IsWeekend(start - d * SECONDS_PER_DAY)
    ensures forall i, j | 0 <= i < j < |WeekdaysBack(start, n)| :: WeekdaysBack(start, n)[i] < WeekdaysBack(start, n)[j]
    decreases n
  {
    if n > 0 {
      OnlyWeekdays(start, n - 1);
      var nearer := WeekdaysBack(start, n - 1);
      assert forall i | 0 <= i < |nearer| :: nearer[i] in nearer;
    }
  }

  /** No lookback window falls on a weekend, and there are never more than wanted. */
  lemma {:induction false} LookbackIsWeekdays(config: Config, start: int)
    ensures forall d | d in LookbackDays(config, start) ::
      1 <= d <= config.maxLookbackDays && !IsWeekend(start - d * SECONDS_PER_DAY)
    ensures |LookbackDays(config, start)| <= if config.targetWeekdays < 0 then 0 else config.targetWeekdays
  {
    OnlyWeekdays(start, config.maxLookbackDays);
    var all := WeekdaysBack(start, config.maxLookbackDays);
    assert forall d | d in FirstOf(all, config.targetWeekdays) :: d in all;
  }

  lemma {:induction false} AllWeekdays(start: int, n: int, d: int)
    requires 1 <= d <= n && !IsWeekend(start - d * SECONDS_PER_DAY)
    ensures d in WeekdaysBack(start, n)
    decreases n
  {
    if d < n { AllWeekdays(start, n - 1, d); }
  }

  /** They are the nearest ones: no weekday closer than a chosen one is left out. */
  lemma {:induction false} LookbackIsNearest(config: Config, start: int, d: int, nearer: int)
    requires d in LookbackDays(config, start) && 1 <= nearer <= d && !IsWeekend(start - nearer * SECONDS_PER_DAY)
    ensures nearer in LookbackDays(config, start)
  {
    var all, chosen := WeekdaysBack(start, config.maxLookbackDays), LookbackDays(config, start);
    OnlyWeekdays(start, config.maxLookbackDays);
    var i :| 0 <= i < |chosen| && chosen[i] == d;
    assert all[i] == d && d in all;
    AllWeekdays(start, config.maxLookbackDays, nearer);
    var j :| 0 <= j < |all| && all[j] == nearer;
    assert j <= i && chosen[j] == nearer;
  }

  predicate OffDay(day: int) {
    Weekday(day) == 0 || Weekday(day) == 6
  }

  /** The number of weekdays among the n days before a day. */
  function Workdays(day: int, n: nat): nat {
    if n == 0 then 0 else Workdays(day, n - 1) + if OffDay(day - n) then 0 else 1
  }

  lemma {:induction false} CountedAsWorkdays(start: int, n: nat)
    ensures |WeekdaysBack(start, n)| == Workdays(Day(start), n)
  {
    if n > 0 {
      CountedAsWorkdays(start, n - 1);
      CalendarDaysBack(start, n);
    }
  }

  /** Any seven days in a row hold five weekdays. */
  lemma {:induction false} FivePerWeek(day: int, n: nat)
    ensures Workdays(day, n + 7) == Workdays(day, n) + 5
  {
    assert Workdays(day, n + 2) == Workdays(day, n) + Work(day - n - 1) + Work(day - n - 2);
    assert Workdays(day, n + 4) == Workdays(day, n + 2) + Work(day - n - 3) + Work(day - n - 4);
    assert Workdays(day, n + 6) == Workdays(day, n + 4) + Work(day - n - 5) + Work(day - n - 6);
    assert Workdays(day, n + 7) == Workdays(day, n + 6) + Work(day - n - 7);
    WeekOfWork(day - n);
  }

  function Work(day: int): nat {
    if OffDay(day) then 0 else 1
  }

  lemma {:induction false} WeekOfWork(day: int)
    ensures Work(day - 1) + Work(day - 2) + Work(day - 3) + Work(day - 4) + Work(day - 5) + Work(day - 6) +
      Work(day - 7) == 5
  {
    DaysEarlier(day);
  }

  lemma {:induction false} DayEarlier(day: int)
    ensures Weekday(day - 1) == if Weekday(day) == 0 then 6 else Weekday(day) - 1
  {
  }

  lemma {:induction false} DaysEarlier(day: int)
    ensures var w := Weekday(day);
      && Weekday(day - 1) == (if w < 1 then w + 6 else w - 1) && Weekday(day - 2) == (if w < 2 then w + 5 else w - 2)
      && Weekday(day - 3) == (if w < 3 then w + 4 else w - 3) && Weekday(day - 4) == (if w < 4 then w + 3 else w - 4)
      && Weekday(day - 5) == (if w < 5 then w + 2 else w - 5) && Weekday(day - 6) == (if w < 6 then w + 1 else w - 6)
      && Weekday(day - 7) == w
  {
    DayEarlier(day);
    DayEarlier(day - 1);
    DayEarlier(day - 2);
    DayEarlier(day - 3);
    DayEarlier(day - 4);
    DayEarlier(day - 5);
    DayEarlier(day - 6);
  }

  /** The fewest weekdays that n days in a row can hold. */
  function FewestWorkdays(n: nat): nat {
    5 * (n / 7) + if n % 7 > 2 then n % 7 - 2 else 0
  }

  lemma {:induction false} AtLeastFewest(day: int, n: nat)
    ensures Workdays(day, n) >= FewestWorkdays(n)
    decreases n
  {
    if n >= 7 {
      AtLeastFewest(day, n - 7);
      FivePerWeek(day, n - 7);
    } else {
      PartOfWeek(day, n);
    }
  }

  lemma {:induction false} PartOfWeek(day: int, n: nat)
    requires n < 7
    ensures Workdays(day, n) >= if n > 2 then n - 2 else 0
    ensures Weekday(day) == 1 ==> Workdays(day, n) == if n > 2 then n - 2 else 0
  {
    DaysEarlier(day);
    assert Workdays(day, 1) == Work(day - 1);
    assert Workdays(day, 2) == Work(day - 1) + Work(day - 2);
    assert Workdays(day, 3) == Workdays(day, 2) + Work(day - 3);
    assert Workdays(day, 4) == Workdays(day, 2) + Work(day - 3) + Work(day - 4);
    assert Workdays(day, 5) == Workdays(day, 4) + Work(day - 5);
    assert Workdays(day, 6) == Workdays(day, 4) + Work(day - 5) + Work(day - 6);
  }

  /** Looking back from a Monday meets the weekend first, so it finds the fewest. */
  lemma {:induction false} FewestFromMonday(day: int, n: nat)
    requires Weekday(day) == 1
    ensures Workdays(day, n) == FewestWorkdays(n)
    decreases n
  {
    if n >= 7 {
      FewestFromMonday(day, n - 7);
      FivePerWeek(day, n - 7);
    } else {
      PartOfWeek(day, n);
    }
  }

  /** Days needed to be sure of `target` weekdays: a weekend for every five of them. */
  function DaysFor(target: nat): nat {
    target + 2 * ((target + 4) / 5)
  }

  lemma {:induction false} EnoughDaysIff(n: nat, target: nat)
    requires target >= 1
    ensures FewestWorkdays(n) >= target <==> n >= DaysFor(target)
  {
    var a := (target + 4) / 5 - 1;
    var b := target - 5 * a;
    assert 1 <= b <= 5 && DaysFor(target) == 7 * a + b + 2;
  }

  const MONDAY := 4 * SECONDS_PER_DAY

  /** From every start the lookback finds exactly the wanted number of weekdays if and only if the
      allowed days include a weekend for every five of them. */
  lemma {:induction false} LookbackIsFullIff(config: Config)
    requires config.targetWeekdays >= 1
    ensures (forall start :: |LookbackDays(config, start)| == config.targetWeekdays) <==>
      config.maxLookbackDays >= DaysFor(config.targetWeekdays)
  {
    var n := if config.maxLookbackDays < 0 then 0 else config.maxLookbackDays;
    EnoughDaysIff(n, config.targetWeekdays);
    if n >= DaysFor(config.targetWeekdays) {
      forall start ensures |LookbackDays(config, start)| == config.targetWeekdays {
        AtLeastFewest(Day(start), n);
        FullAt(config, start);
      }
    } else {
      MondayFallsShort(config, n);
    }
  }

  lemma {:induction false} MondayFallsShort(config: Config, n: nat)
    requires config.targetWeekdays >= 1 && n == if config.maxLookbackDays < 0 then 0 else config.maxLookbackDays
    requires FewestWorkdays(n) < config.targetWeekdays
    ensures |LookbackDays(config, MONDAY)| != config.targetWeekdays
  {
    assert Weekday(Day(MONDAY)) == 1;
    FewestFromMonday(Day(MONDAY), n);
    FullAt(config, MONDAY);
  }

  lemma {:induction false} FullAt(config: Config, start: int)
    requires config.targetWeekdays >= 1
    ensures |LookbackDays(config, start)| == config.targetWeekdays <==>
      Workdays(Day(start), if config.maxLookbackDays < 0 then 0 else config.maxLookbackDays) >= config.targetWeekdays
  {
    if config.maxLookbackDays >= 0 { CountedAsWorkdays(start, config.maxLookbackDays); }
  }
}
