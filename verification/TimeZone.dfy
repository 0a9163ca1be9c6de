/**
 Conversion between UTC and the local time of a zone described by a table of
 transitions, and between seconds since the epoch and civil date and time.
 */
module TimeZone {
  import opened CArith
  import opened Calendar

  const SecondsPerDay := 86400
  const JulianDayOf1970 := JulianDayNumber(YearMonthDay(1970, 1, 1))

  datatype DateTime = DateTime(year: int, month: int, day: int, hour: int, minute: int, second: int)

  // ----- civil time and seconds -----

  function FillHMS(seconds: nat): (int, int, int) {
    var minutes := seconds / 60;
    (minutes / 60, minutes % 60, seconds % 60)
  }

  function BreakTime(t: int): DateTime {
    var seconds := TruncMod(t, SecondsPerDay);
    var days := TruncDiv(t, SecondsPerDay);
    var secondsInDay := if seconds < 0 then seconds + SecondsPerDay else seconds;
    var wholeDays := if seconds < 0 then days - 1 else days;
    SecondsInDayNonNegative(t);
    var (h, m, s) := FillHMS(secondsInDay);
    var ymd := ToYearMonthDay(wholeDays + JulianDayOf1970);
    DateTime(ymd.year, ymd.month, ymd.day, h, m, s)
  }

  lemma SecondsInDayNonNegative(t: int)
    ensures TruncMod(t, SecondsPerDay) + SecondsPerDay > 0
    ensures var s := TruncMod(t, SecondsPerDay);
      if s < 0 then s + SecondsPerDay == t % SecondsPerDay && TruncDiv(t, SecondsPerDay) - 1 == t / SecondsPerDay
      else s == t % SecondsPerDay && TruncDiv(t, SecondsPerDay) == t / SecondsPerDay
  {
  }

  function DateOf(dt: DateTime): YearMonthDay {
    YearMonthDay(dt.year, dt.month, dt.day)
  }

  function FromUtcTime(dt: DateTime): int {
    var secondsInDay := dt.hour * 3600 + dt.minute * 60 + dt.second;
    var days := JulianDayNumber(DateOf(dt)) - JulianDayOf1970;
    days * SecondsPerDay + secondsInDay
  }

  predicate ValidDateTime(dt: DateTime) {
    && ValidDate(DateOf(dt)) && OnOrAfterFirstDay(DateOf(dt))
    && 0 <= dt.hour < 24 && 0 <= dt.minute < 60 && 0 <= dt.second < 60
  }

  /** Midnight of the first day, as seconds before the epoch. */
  const FirstSecond := (FirstDay - JulianDayOf1970) * SecondsPerDay

  lemma BreakTimeParts(t: int)
    ensures var dt := BreakTime(t);
      && 0 <= dt.hour < 24 && 0 <= dt.minute < 60 && 0 <= dt.second < 60
      && dt.hour * 3600 + dt.minute * 60 + dt.second == t % SecondsPerDay
      && DateOf(dt) == ToYearMonthDay(t / SecondsPerDay + JulianDayOf1970)
  {
    hide ToYearMonthDay, JulianDayNumber;
    SecondsInDayNonNegative(t);
  }

  /** A second since the epoch survives being broken into civil date and time. */
  lemma SecondRoundTrip(t: int)
    requires t >= FirstSecond
    ensures ValidDateTime(BreakTime(t))
    ensures FromUtcTime(BreakTime(t)) == t
  {
    hide ToYearMonthDay, JulianDayNumber;
    BreakTimeParts(t);
    var j := t / SecondsPerDay + JulianDayOf1970;
    DayNumberRoundTrip(j);
  }

  /** The Julian day number of the first day of 1970 in the proleptic Gregorian calendar. */
  lemma EpochDayNumber()
    ensures JulianDayNumber(YearMonthDay(1970, 1, 1)) == 2_440_588
  {
  }

  /** The seconds of 1970 and later count days from the first of January 1970. */
  lemma SecondsCountDays(t: nat)
    ensures var dt := BreakTime(t);
      && DateOf(dt) == DaysLater(YearMonthDay(1970, 1, 1), t / 86400)
      && 0 <= dt.hour < 24 && 0 <= dt.minute < 60 && 0 <= dt.second < 60
      && dt.hour * 3600 + dt.minute * 60 + dt.second == t % 86400
  {
    EpochDayNumber();
    hide ToYearMonthDay, JulianDayNumber, BreakTime;
    BreakTimeParts(t);
    var epoch := YearMonthDay(1970, 1, 1);
    DayNumberRoundTrip(JulianDayOf1970 + t / 86400);
    DifferenceCountsDays(epoch, DateOf(BreakTime(t)));
  }

  /** Earlier seconds, from the first day on, count the days up to it. */
  lemma EarlierSecondsCountDays(t: int)
    requires -213_635_404_800 <= t < 0
    ensures var dt := BreakTime(t); var back := -(t / 86400);
      && ValidDate(DateOf(dt)) && DaysLater(DateOf(dt), back) == YearMonthDay(1970, 1, 1)
      && 0 <= dt.hour < 24 && 0 <= dt.minute < 60 && 0 <= dt.second < 60
      && dt.hour * 3600 + dt.minute * 60 + dt.second == t % 86400
  {
    EpochDayNumber();
    hide ToYearMonthDay, JulianDayNumber, BreakTime;
    BreakTimeParts(t);
    DayNumberRoundTrip(JulianDayOf1970 + t / 86400);
    DifferenceCountsDays(DateOf(BreakTime(t)), YearMonthDay(1970, 1, 1));
  }

  /** The other way: a civil time n days after the first of January 1970 is n days of seconds and its own. */
  lemma CivilTimeCountsDays(dt: DateTime, n: nat)
    requires DateOf(dt) == DaysLater(YearMonthDay(1970, 1, 1), n)
    ensures FromUtcTime(dt) == n * 86400 + dt.hour * 3600 + dt.minute * 60 + dt.second
  {
    EpochDayNumber();
    hide ToYearMonthDay, JulianDayNumber;
    DayNumberCountsDays(YearMonthDay(1970, 1, 1), n);
  }

  lemma EarlierCivilTimeCountsDays(dt: DateTime, n: nat)
    requires ValidDate(DateOf(dt)) && OnOrAfterFirstDay(DateOf(dt))
    requires DaysLater(DateOf(dt), n) == YearMonthDay(1970, 1, 1)
    ensures FromUtcTime(dt) == dt.hour * 3600 + dt.minute * 60 + dt.second - n * 86400
  {
    EpochDayNumber();
    hide ToYearMonthDay, JulianDayNumber;
    DayNumberCountsDays(DateOf(dt), n);
  }

  /** A civil date and time survives being turned into seconds. */
  lemma CivilRoundTrip(dt: DateTime)
    requires ValidDateTime(dt)
    ensures FromUtcTime(dt) >= FirstSecond
    ensures BreakTime(FromUtcTime(dt)) == dt
  {
    hide ToYearMonthDay, JulianDayNumber;
    var t := FromUtcTime(dt);
    var sod := dt.hour * 3600 + dt.minute * 60 + dt.second;
    var j := JulianDayNumber(DateOf(dt));
    DateRoundTrip(DateOf(dt));
    assert t == (j - JulianDayOf1970) * SecondsPerDay + sod && 0 <= sod < SecondsPerDay;
    assert t / SecondsPerDay == j - JulianDayOf1970 && t % SecondsPerDay == sod;
    BreakTimeParts(t);
    HMSUnique(dt, BreakTime(t));
  }

  /** Any calendar date, of any year, and a time of day. */
  predicate CalendarTime(dt: DateTime) {
    ValidDate(DateOf(dt)) && 0 <= dt.hour < 24 && 0 <= dt.minute < 60 && 0 <= dt.second < 60
  }

  /** Before the first day no second breaks into a calendar date. */
  lemma NeverShown(t: int, dt: DateTime)
    requires CalendarTime(dt) && BreakTime(t) == dt
    ensures ValidDateTime(dt)
  {
    hide ToYearMonthDay, JulianDayNumber;
    BreakTimeParts(t);
    if t >= FirstSecond {
      SecondRoundTrip(t);
    } else {
      EarlierNumbersAreNotDates(t / SecondsPerDay + JulianDayOf1970);
    }
  }

  /**
   A second breaks into a calendar date and time that stands for it if and only if it is not
   before the first day.
   */
  lemma SecondRoundTripExactly(t: int)
    ensures CalendarTime(BreakTime(t)) && FromUtcTime(BreakTime(t)) == t <==> t >= FirstSecond
  {
    hide ToYearMonthDay, JulianDayNumber;
    if t >= FirstSecond {
      SecondRoundTrip(t);
    } else {
      BreakTimeParts(t);
      EarlierNumbersAreNotDates(t / SecondsPerDay + JulianDayOf1970);
    }
  }

  /** A civil date and time survives exactly from the first day on. */
  lemma CivilRoundTripExactly(dt: DateTime)
    requires CalendarTime(dt)
    ensures BreakTime(FromUtcTime(dt)) == dt <==> OnOrAfterFirstDay(DateOf(dt))
  {
    hide ToYearMonthDay, JulianDayNumber, BreakTime, FromUtcTime;
    if OnOrAfterFirstDay(DateOf(dt)) {
      CivilRoundTrip(dt);
    } else if BreakTime(FromUtcTime(dt)) == dt {
      NeverShown(FromUtcTime(dt), dt);
    }
  }

  lemma HMSUnique(a: DateTime, b: DateTime)
    requires 0 <= a.hour && 0 <= a.minute < 60 && 0 <= a.second < 60
    requires 0 <= b.hour && 0 <= b.minute < 60 && 0 <= b.second < 60
    requires a.hour * 3600 + a.minute * 60 + a.second == b.hour * 3600 + b.minute * 60 + b.second
    ensures a.hour == b.hour && a.minute == b.minute && a.second == b.second
  {
  }

  // ----- the transition table -----

  datatype Transition = Transition(utctime: int, localtime: int, localtimeIdx: int)

  datatype LocalTime = LocalTime(utcOffset: int, isDst: bool, desigIdx: int)

  datatype Table = Table(transitions: seq<Transition>, localtimes: seq<LocalTime>) {
    predicate WellFormed() {
      && |localtimes| > 0
      && forall i | 0 <= i < |transitions| :: Agrees(i)
    }

    predicate Agrees(i: nat)
      requires i < |transitions|
    {
      && 0 <= transitions[i].localtimeIdx < |localtimes|
      && transitions[i].localtime == transitions[i].utctime + localtimes[transitions[i].localtimeIdx].utcOffset
    }

    /** The entry in force from transition i on; -1 is the stretch before the first transition. */
    function Entry(i: int): LocalTime
      requires WellFormed() && -1 <= i < |transitions|
    {
      if i == -1 then localtimes[0]
      else assert Agrees(i); localtimes[transitions[i].localtimeIdx]
    }

    function Offset(i: int): int
      requires WellFormed() && -1 <= i < |transitions|
    {
      Entry(i).utcOffset
    }

    function Utc(i: nat): int
      requires i < |transitions|
    {
      transitions[i].utctime
    }
  }

  /** The vectors of the program's table, filled entry by entry. */
  class Data {
    var transitions: seq<Transition>
    var localtimes: seq<LocalTime>

    constructor ()
      ensures transitions == [] && localtimes == []
    {
      transitions, localtimes := [], [];
    }

    function Value(): Table
      reads this
    {
      Table(transitions, localtimes)
    }

    method AddLocalTime(utcOffset: int, isDst: bool, desigIdx: int)
      modifies this
      ensures Value() == Table(old(transitions), old(localtimes) + [LocalTime(utcOffset, isDst, desigIdx)])
      ensures old(Value().WellFormed()) || old(Value() == Table([], [])) ==> Value().WellFormed()
    {
      ghost var before := Value();
      localtimes := localtimes + [LocalTime(utcOffset, isDst, desigIdx)];
      forall i | 0 <= i < |transitions| && before.WellFormed()
        ensures Value().Agrees(i)
      {
        assert before.Agrees(i);
      }
    }

    /** ok is false where the program's checked access throws; nothing is changed then. */
    method AddTransition(utcTime: int, localtimeIdx: int) returns (ok: bool)
      modifies this
      ensures ok <==> 0 <= localtimeIdx < |old(localtimes)|
      ensures localtimes == old(localtimes)
      ensures !ok ==> transitions == old(transitions)
      ensures ok ==>
          transitions == old(transitions) + [Transition(utcTime, utcTime + localtimes[localtimeIdx].utcOffset, localtimeIdx)]
      ensures old(Value().WellFormed()) ==> Value().WellFormed()
    {
      if !(0 <= localtimeIdx < |localtimes|) {
        return false;
      }
      ghost var before := Value();
      var lt := localtimes[localtimeIdx];
      transitions := transitions + [Transition(utcTime, utcTime + lt.utcOffset, localtimeIdx)];
      forall i | 0 <= i < |transitions| && before.WellFormed()
        ensures Value().Agrees(i)
      {
        assert i < |before.transitions| ==> before.Agrees(i);
      }
      return true;
    }
  }

  // ----- the library's upper_bound -----

  /** Binary search for the first key above v, halving the length as the library does. */
  function UpperBound(keys: seq<int>, v: int, first: nat, len: nat): (r: nat)
    requires first + len <= |keys|
    ensures first <= r <= first + len
    ensures len > 0 && keys[first] <= v ==> first < r
    decreases len
  {
    if len == 0 then first
    else
      var half := len / 2;
      var middle := first + half;
      if v < keys[middle] then UpperBound(keys, v, first, half)
      else UpperBound(keys, v, middle + 1, len - half - 1)
  }

  predicate Increasing(keys: seq<int>) {
    forall i, j | 0 <= i < j < |keys| :: keys[i] < keys[j]
  }

  lemma {:induction false} UpperBoundSplits(keys: seq<int>, v: int, first: nat, len: nat)
    requires first + len <= |keys| && Increasing(keys)
    requires forall i | 0 <= i < first :: keys[i] <= v
    requires forall i | first + len <= i < |keys| :: v < keys[i]
    ensures var r := UpperBound(keys, v, first, len);
      (forall i | 0 <= i < r :: keys[i] <= v) && (forall i | r <= i < |keys| :: v < keys[i])
    decreases len
  {
    if len > 0 {
      var half := len / 2;
      var middle := first + half;
      if v < keys[middle] {
        UpperBoundSplits(keys, v, first, half);
      } else {
        UpperBoundSplits(keys, v, middle + 1, len - half - 1);
      }
    }
  }

  function UtcKeys(ts: seq<Transition>): (ks: seq<int>)
    ensures |ks| == |ts| && forall i | 0 <= i < |ts| :: ks[i] == ts[i].utctime
  {
    seq(|ts|, i requires 0 <= i < |ts| => ts[i].utctime)
  }

  function LocalKeys(ts: seq<Transition>): (ks: seq<int>)
    ensures |ks| == |ts| && forall i | 0 <= i < |ts| :: ks[i] == ts[i].localtime
  {
    seq(|ts|, i requires 0 <= i < |ts| => ts[i].localtime)
  }

  // ----- the program's look-ups -----

  function FindForUtc(z: Table, utcTime: int): LocalTime
    requires z.WellFormed()
  {
    var ts := z.transitions;
    if |ts| == 0 || utcTime < ts[0].utctime then z.localtimes[0]
    else
      var transI := UpperBound(UtcKeys(ts), utcTime, 0, |ts|);
      assert transI != 0;
      if transI != |ts| then z.Entry(transI - 1) else z.Entry(|ts| - 1)
  }

  function FindForLocal(z: Table, localtime: int, postTransition: bool): LocalTime
    requires z.WellFormed()
  {
    var ts := z.transitions;
    if |ts| == 0 || localtime < ts[0].localtime then z.localtimes[0]
    else
      var transI := UpperBound(LocalKeys(ts), localtime, 0, |ts|);
      assert transI != 0;
      if transI == |ts| then z.Entry(|ts| - 1)
      else
        var priorSecond := ts[transI].utctime - 1 + z.Offset(transI - 1);
        if priorSecond < localtime then
          // a skip
          if postTransition then z.Entry(transI) else z.Entry(transI - 1)
        else
          var prev := transI - 1;
          // the prior transition and its last second are only looked up again when there is one
          var prior := if prev != 0 then prev - 1 else prev;
          var prevPriorSecond := if prev != 0 then ts[prev].utctime - 1 + z.Offset(prior) else priorSecond;
          if localtime <= prevPriorSecond then
            // a repeat
            if postTransition then z.Entry(prev) else z.Entry(prior)
          else z.Entry(prev)
  }

  /** The local clock reading of a UTC second, as seconds. */
  function LocalOf(z: Table, t: int): int
    requires z.WellFormed()
  {
    t + FindForUtc(z, t).utcOffset
  }

  /** The UTC second the program picks for a local clock reading. */
  function UtcOf(z: Table, local: int, postTransition: bool): int
    requires z.WellFormed()
  {
    local - FindForLocal(z, local, postTransition).utcOffset
  }

  function ToLocalTime(z: Table, seconds: int): DateTime
    requires z.WellFormed()
  {
    BreakTime(LocalOf(z, seconds))
  }

  function FromLocalTime(z: Table, lt: DateTime, postTransition: bool): int
    requires z.WellFormed()
  {
    UtcOf(z, FromUtcTime(lt), postTransition)
  }

  // ----- tables whose transitions lie far enough apart -----

  function Abs(x: int): nat {
    if x < 0 then -x else x
  }

  /** The change of offset at transition i. */
  function Jump(z: Table, i: nat): int
    requires z.WellFormed() && i < |z.transitions|
  {
    z.Offset(i) - z.Offset(i - 1)
  }

  /** Consecutive transitions lie further apart than their two changes of offset together. */
  predicate WellSpaced(z: Table)
    requires z.WellFormed()
  {
    forall i, j | 0 <= i < |z.transitions| && j == i + 1 < |z.transitions| ::
      z.Utc(j) - z.Utc(i) > Abs(Jump(z, i)) + Abs(Jump(z, j))
  }

  /** It is enough that they lie further apart than twice the largest change of offset. */
  lemma TwiceTheLargestJumpIsEnough(z: Table, largest: nat)
    requires z.WellFormed()
    requires forall i | 0 <= i < |z.transitions| :: Abs(Jump(z, i)) <= largest
    requires forall i, j | 0 <= i < |z.transitions| && j == i + 1 < |z.transitions| :: z.Utc(j) - z.Utc(i) > 2 * largest
    ensures WellSpaced(z)
  {
  }

  lemma {:induction false} IncreasingFromSteps(keys: seq<int>)
    requires forall i, j | 0 <= i && j == i + 1 < |keys| :: keys[i] < keys[j]
    ensures Increasing(keys)
  {
    forall i, j | 0 <= i < j < |keys| ensures keys[i] < keys[j] {
      StepsAddUp(keys, i, j);
    }
  }

  lemma {:induction false} StepsAddUp(keys: seq<int>, i: nat, j: nat)
    requires forall i, j | 0 <= i && j == i + 1 < |keys| :: keys[i] < keys[j]
    requires i < j < |keys|
    ensures keys[i] < keys[j]
  {
    if i + 1 < j {
      StepsAddUp(keys, i, j - 1);
      assert keys[j - 1] < keys[j];
    }
  }

  lemma KeysIncrease(z: Table)
    requires z.WellFormed() && WellSpaced(z)
    ensures Increasing(UtcKeys(z.transitions)) && Increasing(LocalKeys(z.transitions))
  {
    var us, ls := UtcKeys(z.transitions), LocalKeys(z.transitions);
    forall i, j | 0 <= i && j == i + 1 < |us| ensures us[i] < us[j] && ls[i] < ls[j] {
      assert z.Utc(j) - z.Utc(i) > Abs(Jump(z, i)) + Abs(Jump(z, j));
      assert z.Agrees(i) && z.Agrees(j);
    }
    IncreasingFromSteps(us);
    IncreasingFromSteps(ls);
  }

  // ----- which stretch a second falls in -----

  /** t lies at or after transition k and before the next one. */
  predicate InStretch(z: Table, t: int, k: int)
    requires -1 <= k < |z.transitions|
  {
    && (k >= 0 ==> z.Utc(k) <= t)
    && (k + 1 < |z.transitions| ==> t < z.Utc(k + 1))
  }

  lemma StretchGivesOffset(z: Table, t: int, k: int)
    requires z.WellFormed() && WellSpaced(z) && -1 <= k < |z.transitions|
    requires InStretch(z, t, k)
    ensures FindForUtc(z, t) == z.Entry(k)
    ensures LocalOf(z, t) == t + z.Offset(k)
  {
    var us := UtcKeys(z.transitions);
    KeysIncrease(z);
    if k >= 0 {
      assert us[0] <= us[k] <= t;
      UpperBoundSplits(us, t, 0, |us|);
    }
  }

  lemma StretchOf(z: Table, t: int) returns (k: int)
    requires z.WellFormed() && WellSpaced(z)
    ensures -1 <= k < |z.transitions| && InStretch(z, t, k)
    ensures LocalOf(z, t) == t + z.Offset(k)
  {
    var us := UtcKeys(z.transitions);
    KeysIncrease(z);
    UpperBoundSplits(us, t, 0, |us|);
    k := UpperBound(us, t, 0, |us|) - 1;
    StretchGivesOffset(z, t, k);
  }

  /** The local reading lies at or after local transition k and before the next one. */
  predicate InLocalStretch(z: Table, local: int, k: int)
    requires -1 <= k < |z.transitions|
  {
    && (k >= 0 ==> z.transitions[k].localtime <= local)
    && (k + 1 < |z.transitions| ==> local < z.transitions[k + 1].localtime)
  }

  /** What the program answers for a reading in local stretch k. */
  lemma AnswersInStretch(z: Table, local: int, k: int)
    requires z.WellFormed() && WellSpaced(z) && -1 <= k < |z.transitions|
    requires InLocalStretch(z, local, k)
    ensures k == -1 || k == |z.transitions| - 1 ==>
      forall post :: UtcOf(z, local, post) == local - z.Offset(k)
    ensures 0 <= k < |z.transitions| - 1 && z.Utc(k + 1) + z.Offset(k) <= local ==>
      UtcOf(z, local, true) == local - z.Offset(k + 1) && UtcOf(z, local, false) == local - z.Offset(k)
    ensures 0 <= k < |z.transitions| - 1 && local < z.Utc(k + 1) + z.Offset(k) ==>
      && UtcOf(z, local, true) == local - z.Offset(k)
      && UtcOf(z, local, false) ==
         local - (if k > 0 && local < z.Utc(k) + z.Offset(k - 1) then z.Offset(k - 1) else z.Offset(k))
  {
    hide LocalOf, FindForUtc, JulianDayNumber, ToYearMonthDay;
    var ls := LocalKeys(z.transitions);
    KeysIncrease(z);
    if k >= 0 {
      assert ls[0] <= ls[k] <= local;
      UpperBoundSplits(ls, local, 0, |ls|);
      assert UpperBound(ls, local, 0, |ls|) == k + 1;
    }
  }

  /** Stretch k read off the local clock reaches at most one local transition further. */
  lemma LocalStretchOf(z: Table, t: int, k: int)
    requires z.WellFormed() && WellSpaced(z) && -1 <= k < |z.transitions| && InStretch(z, t, k)
    ensures var local := t + z.Offset(k);
      if k + 1 < |z.transitions| && z.transitions[k + 1].localtime <= local then InLocalStretch(z, local, k + 1)
      else InLocalStretch(z, local, k)
    ensures k + 1 < |z.transitions| && z.transitions[k + 1].localtime <= t + z.Offset(k) ==> z.Offset(k + 1) < z.Offset(k)
  {
    var n := |z.transitions|;
    assert k >= 0 ==> z.Agrees(k);
    assert k + 1 < n ==> z.Agrees(k + 1);
    if k + 2 < n {
      assert z.Agrees(k + 2);
      assert z.Utc(k + 2) - z.Utc(k + 1) > Abs(Jump(z, k + 1)) + Abs(Jump(z, k + 2));
    }
  }

  // ----- UTC to local and back -----

  /** Before the first transition, but the clock already shows the first transition's local time. */
  predicate BeforeFirst(z: Table, t: int)
    requires z.WellFormed()
  {
    && |z.transitions| > 0
    && t < z.Utc(0)
    && z.transitions[0].localtime <= t + z.Offset(-1)
  }

  /** Before the last transition, but the clock already shows the last transition's local time. */
  predicate BeforeLast(z: Table, t: int)
    requires z.WellFormed()
  {
    var n := |z.transitions|;
    && n > 1
    && z.Utc(n - 2) <= t < z.Utc(n - 1)
    && z.transitions[n - 1].localtime <= t + z.Offset(n - 2)
  }

  /** Going to local time and back recovers the second exactly outside the two unresolved windows. */
  lemma UtcRoundTripExactly(z: Table, t: int)
    requires z.WellFormed() && WellSpaced(z)
    ensures UtcOf(z, LocalOf(z, t), false) == t || UtcOf(z, LocalOf(z, t), true) == t
      <==> !BeforeFirst(z, t) && !BeforeLast(z, t)
  {
    hide LocalOf, UtcOf, FindForUtc, JulianDayNumber;
    var k := StretchOf(z, t);
    var n := |z.transitions|;
    var local := t + z.Offset(k);
    LocalStretchOf(z, t, k);
    WindowStretches(z, t, k);
    if k + 1 < n && z.transitions[k + 1].localtime <= local {
      AnswersInStretch(z, local, k + 1);
      assert z.Agrees(k + 1);
      if 0 <= k && k + 2 < n {
        assert z.Utc(k + 2) - z.Utc(k + 1) > Abs(Jump(z, k + 1)) + Abs(Jump(z, k + 2));
      } else if k == -1 && n > 1 {
        assert z.Utc(1) - z.Utc(0) > Abs(Jump(z, 0)) + Abs(Jump(z, 1));
      }
    } else {
      AnswersInStretch(z, local, k);
    }
  }

  lemma UtcIncreases(z: Table, i: nat, j: nat)
    requires z.WellFormed() && WellSpaced(z) && i < j < |z.transitions|
    ensures z.Utc(i) < z.Utc(j)
  {
    KeysIncrease(z);
    assert UtcKeys(z.transitions)[i] < UtcKeys(z.transitions)[j];
  }

  lemma WindowStretches(z: Table, t: int, k: int)
    requires z.WellFormed() && WellSpaced(z) && -1 <= k < |z.transitions| && InStretch(z, t, k)
    ensures BeforeFirst(z, t) ==> k == -1
    ensures BeforeLast(z, t) ==> k == |z.transitions| - 2
  {
    var n := |z.transitions|;
    if k > 0 {
      UtcIncreases(z, 0, k);
    }
    if k + 1 < n - 2 {
      UtcIncreases(z, k + 1, n - 2);
    }
  }

  // ----- local to UTC and back -----

  ghost predicate Exists(z: Table, local: int)
    requires z.WellFormed()
  {
    exists t :: LocalOf(z, t) == local
  }

  /** The reading lies strictly between the last second before transition j and the clock right after it. */
  predicate InSkip(z: Table, local: int, j: nat)
    requires z.WellFormed() && j < |z.transitions|
  {
    z.Utc(j) - 1 + z.Offset(j - 1) < local < z.transitions[j].localtime
  }

  predicate AnswersShow(z: Table, local: int)
    requires z.WellFormed()
  {
    && LocalOf(z, UtcOf(z, local, false)) == local
    && LocalOf(z, UtcOf(z, local, true)) == local
    && UtcOf(z, local, false) <= UtcOf(z, local, true)
  }

  /** The clock has already reached the next transition's local time. */
  lemma AnswersShowRepeated(z: Table, t: int, k: int)
    requires z.WellFormed() && WellSpaced(z) && -1 <= k < |z.transitions| - 1 && InStretch(z, t, k)
    requires z.transitions[k + 1].localtime <= t + z.Offset(k)
    ensures AnswersShow(z, t + z.Offset(k))
  {
    hide LocalOf, UtcOf, FindForUtc, JulianDayNumber;
    var local := t + z.Offset(k);
    StretchGivesOffset(z, t, k);
    LocalStretchOf(z, t, k);
    AnswersInStretch(z, local, k + 1);
    assert z.Agrees(k + 1);
    if k + 2 < |z.transitions| {
      assert z.Utc(k + 2) - z.Utc(k + 1) > Abs(Jump(z, k + 1)) + Abs(Jump(z, k + 2));
    }
    StretchGivesOffset(z, local - z.Offset(k + 1), k + 1);
  }

  lemma AnswersShowOwn(z: Table, t: int, k: int)
    requires z.WellFormed() && WellSpaced(z) && -1 <= k < |z.transitions| && InStretch(z, t, k)
    requires k + 1 < |z.transitions| ==> t + z.Offset(k) < z.transitions[k + 1].localtime
    ensures AnswersShow(z, t + z.Offset(k))
  {
    hide LocalOf, UtcOf, FindForUtc, JulianDayNumber;
    var local := t + z.Offset(k);
    StretchGivesOffset(z, t, k);
    LocalStretchOf(z, t, k);
    AnswersInStretch(z, local, k);
    if 0 < k && local < z.Utc(k) + z.Offset(k - 1) {
      assert z.Agrees(k);
      assert z.Utc(k) - z.Utc(k - 1) > Abs(Jump(z, k - 1)) + Abs(Jump(z, k));
      StretchGivesOffset(z, local - z.Offset(k - 1), k - 1);
    }
  }

  /** Both answers for a reading that exists show that reading, and the one before the transition is not later. */
  lemma AnswersShowReading(z: Table, t: int)
    requires z.WellFormed() && WellSpaced(z)
    ensures AnswersShow(z, LocalOf(z, t))
  {
    var k := StretchOf(z, t);
    if k + 1 < |z.transitions| && z.transitions[k + 1].localtime <= t + z.Offset(k) {
      AnswersShowRepeated(z, t, k);
    } else {
      AnswersShowOwn(z, t, k);
    }
  }

  /** A local reading exists exactly when an answer shows it, whichever of the two answers is asked for. */
  lemma LocalRoundTripExactly(z: Table, local: int, post: bool)
    requires z.WellFormed() && WellSpaced(z)
    ensures LocalOf(z, UtcOf(z, local, post)) == local <==> Exists(z, local)
  {
    if Exists(z, local) {
      var t :| LocalOf(z, t) == local;
      AnswersShowReading(z, t);
    }
  }

  lemma AnswersOrdered(z: Table, local: int)
    requires z.WellFormed() && WellSpaced(z) && Exists(z, local)
    ensures UtcOf(z, local, false) != UtcOf(z, local, true) ==> UtcOf(z, local, false) < UtcOf(z, local, true)
  {
    var t :| LocalOf(z, t) == local;
    AnswersShowReading(z, t);
  }

  lemma LocalStretchAround(z: Table, local: int) returns (k: int)
    requires z.WellFormed() && WellSpaced(z)
    ensures -1 <= k < |z.transitions| && InLocalStretch(z, local, k)
  {
    var ls := LocalKeys(z.transitions);
    KeysIncrease(z);
    UpperBoundSplits(ls, local, 0, |ls|);
    k := UpperBound(ls, local, 0, |ls|) - 1;
  }

  /** The readings that no second shows are exactly those inside a skip. */
  lemma MissingExactlyInSkips(z: Table, local: int)
    requires z.WellFormed() && WellSpaced(z)
    ensures !Exists(z, local) <==> exists j | 0 <= j < |z.transitions| :: InSkip(z, local, j)
  {
    var n := |z.transitions|;
    var k := LocalStretchAround(z, local);
    assert k >= 0 ==> z.Agrees(k);
    if k + 1 < n && InSkip(z, local, k + 1) {
      if Exists(z, local) {
        var t :| LocalOf(z, t) == local;
        SkippedIsNotShown(z, local, k + 1, t);
      }
    } else {
      StretchGivesOffset(z, local - z.Offset(k), k);
      forall j | 0 <= j < n ensures !InSkip(z, local, j) {
        if InSkip(z, local, j) {
          SkippedIsNotShown(z, local, j, local - z.Offset(k));
        }
      }
    }
  }

  lemma SkippedIsNotShown(z: Table, local: int, j: nat, t: int)
    requires z.WellFormed() && WellSpaced(z) && j < |z.transitions| && InSkip(z, local, j)
    ensures LocalOf(z, t) != local
  {
    var k := StretchOf(z, t);
    assert z.Agrees(j);
    LocalStretchOf(z, t, k);
    SkipIsInStretch(z, local, j);
    if LocalOf(z, t) == local {
      SameLocalStretch(z, local, j - 1, k);
    }
  }

  /** A skip at transition j lies in local stretch j - 1. */
  lemma SkipIsInStretch(z: Table, local: int, j: nat)
    requires z.WellFormed() && WellSpaced(z) && j < |z.transitions| && InSkip(z, local, j)
    ensures InLocalStretch(z, local, j - 1)
  {
    if j > 0 {
      assert z.Agrees(j - 1);
      assert z.Utc(j) - z.Utc(j - 1) > Abs(Jump(z, j - 1)) + Abs(Jump(z, j));
    }
  }

  lemma SameLocalStretch(z: Table, local: int, a: int, b: int)
    requires z.WellFormed() && WellSpaced(z) && -1 <= a < |z.transitions| && -1 <= b < |z.transitions|
    requires InLocalStretch(z, local, a)
    ensures InLocalStretch(z, local, b) ==> a == b
    ensures b + 1 < |z.transitions| && InLocalStretch(z, local, b + 1) ==> a == b + 1
  {
    KeysIncrease(z);
    var ls := LocalKeys(z.transitions);
    assert forall i | 0 <= i < |ls| :: ls[i] == z.transitions[i].localtime;
  }

  /** Inside a skip that is not the first, the two answers lie apart by exactly the jump. */
  lemma SkipAnswersDifferByJump(z: Table, local: int, j: nat)
    requires z.WellFormed() && WellSpaced(z) && j < |z.transitions| && InSkip(z, local, j)
    ensures j > 0 ==> UtcOf(z, local, false) - UtcOf(z, local, true) == Jump(z, j)
    ensures j == 0 ==> UtcOf(z, local, false) == UtcOf(z, local, true) == local - z.Offset(-1)
  {
    SkipIsInStretch(z, local, j);
    AnswersInStretch(z, local, j - 1);
  }

  /** Outside the windows, the two answers are all the seconds that show a reading. */
  lemma AnswersAreAllSeconds(z: Table, local: int, t: int)
    requires z.WellFormed() && WellSpaced(z)
    requires !BeforeFirst(z, t) && !BeforeLast(z, t)
    ensures LocalOf(z, t) == local <==>
      Exists(z, local) && (t == UtcOf(z, local, false) || t == UtcOf(z, local, true))
  {
    UtcRoundTripExactly(z, t);
    LocalRoundTripExactly(z, local, false);
    LocalRoundTripExactly(z, local, true);
  }

  // ----- the same laws on civil date and time -----

  /** Converting a second to local date and time and back, for both values of the flag together. */
  lemma ToLocalRoundTrip(z: Table, seconds: int)
    requires z.WellFormed() && WellSpaced(z)
    requires LocalOf(z, seconds) >= FirstSecond
    ensures (exists post :: FromLocalTime(z, ToLocalTime(z, seconds), post) == seconds)
      <==> !BeforeFirst(z, seconds) && !BeforeLast(z, seconds)
  {
    hide ToYearMonthDay, JulianDayNumber;
    UtcRoundTripExactly(z, seconds);
    SecondRoundTrip(LocalOf(z, seconds));
    assert forall post :: FromLocalTime(z, ToLocalTime(z, seconds), post) == UtcOf(z, LocalOf(z, seconds), post);
  }

  /** Converting a local date and time of any year to a second and back. */
  lemma FromLocalRoundTrip(z: Table, lt: DateTime, post: bool)
    requires z.WellFormed() && WellSpaced(z) && CalendarTime(lt)
    ensures ToLocalTime(z, FromLocalTime(z, lt, post)) == lt
      <==> OnOrAfterFirstDay(DateOf(lt)) && Exists(z, FromUtcTime(lt))
  {
    hide ToYearMonthDay, JulianDayNumber;
    var local := FromUtcTime(lt);
    LocalRoundTripExactly(z, local, post);
    var shown := LocalOf(z, UtcOf(z, local, post));
    if BreakTime(shown) == lt {
      NeverShown(shown, lt);
    }
    if OnOrAfterFirstDay(DateOf(lt)) {
      CivilRoundTrip(lt);
      if shown != local && BreakTime(shown) == lt {
        BrokenBelow(shown, lt);
      }
    }
  }

  /** Only one second breaks into a valid date and time. */
  lemma BrokenBelow(t: int, lt: DateTime)
    requires ValidDateTime(lt) && BreakTime(t) == lt
    ensures t == FromUtcTime(lt)
  {
    hide ToYearMonthDay, JulianDayNumber;
    BreakTimeParts(t);
    if t >= FirstSecond {
      SecondRoundTrip(t);
    } else {
      EarlierNumbersAreNotDates(t / SecondsPerDay + JulianDayOf1970);
    }
  }
}
