/** The daemon's tick test as the advertisement server makes it (cron_timing.cpp). It indexes the day
    of the month from 1 and the month from 0, and adds a year. */
module CronTiming {
  import opened BitString
  import opened CronFields
  import opened CronWords
  import opened CronRecord

  /** The part of a `cron_timing` record after the bit strings. */
  datatype Calendar = Calendar(flags: Flags, yearStar: bool, year: int)

  /** `check_cron_timing`: the day bit is taken at `tm_mday`, not at `tm_mday - 1`. */
  predicate CheckCronTiming(bytes: seq<bv8>, c: Calendar, tm: Tm, year: int)
    requires |bytes| == RECORD_SIZE && ValidTm(tm)
  {
    && BitTest(bytes, 8 * MINUTE_AT + tm.min)
    && BitTest(bytes, 8 * HOUR_AT + tm.hour)
    && BitTest(bytes, 8 * MONTH_AT + tm.mon)
    && (c.yearStar || c.year == year)
    && (if c.flags.domStar || c.flags.dowStar
        then BitTest(bytes, 8 * DOW_AT + tm.wday) && BitTest(bytes, 8 * DOM_AT + tm.mday)
        else BitTest(bytes, 8 * DOW_AT + tm.wday) || BitTest(bytes, 8 * DOM_AT + tm.mday))
  }

  /** What the words of a line say about the day of the week, and about the number of the day after;
      the 31st has none. */
  predicate DayAfterNamed(s: string, p: nat, tm: Tm)
    requires p <= |s|
  {
    DayRule(Starred(s, p, 2) || Starred(s, p, 4),
            tm.mday < 31 && WordNames(Field(s, p, 2), DOM, tm.mday + 1),
            WordNames(Field(s, p, 4), DOW, tm.wday) || (tm.wday == 0 && WordNames(Field(s, p, 4), DOW, 7)))
  }

  /** The bit at `tm_mday` is that of the day after, or on the 31st the one past the field. */
  lemma DayAfterBit(was: seq<bv8>, now: seq<bv8>, word: string, mday: nat)
    requires SundaysMerged(was, now) && FieldSet(was, DOM_AT, DOM, WordList(word))
    requires !BitTest(was, ExtraBit(DOM_AT, DOM))
    requires 1 <= mday <= 31
    ensures BitTest(now, 8 * DOM_AT + mday) <==> mday < 31 && WordNames(word, DOM, mday + 1)
  {
    if mday < 31 {
      FieldBit(was, now, DOM_AT, DOM, word, mday + 1);
    } else {
      assert BitTest(now, ExtraBit(DOM_AT, DOM)) <==> BitTest(was, ExtraBit(DOM_AT, DOM));
    }
  }

  /** The record, as `check_cron_timing` reads the day, says what the word says of the day after. */
  ghost predicate DayAfterAgrees(now: seq<bv8>, s: string, p: nat, mday: nat)
    requires p <= |s| && |now| == RECORD_SIZE && 1 <= mday <= 31
  {
    BitTest(now, 8 * DOM_AT + mday) <==> mday < 31 && WordNames(Field(s, p, 2), DOM, mday + 1)
  }

  lemma CompiledDayAfter(was: seq<bv8>, now: seq<bv8>, s: string, p: nat, mday: nat)
    requires p <= |s| && Compiled(was, s, p, 5) && SundaysMerged(was, now) && 1 <= mday <= 31
    ensures DayAfterAgrees(now, s, p, mday)
  {
    CompiledFields(was, s, p);
    DayAfterBit(was, now, Field(s, p, 2), mday);
  }

  /** What the words of a line say about a time, with the number of the day after for that of the day. */
  predicate DayAfterNames(s: string, p: nat, tm: Tm)
    requires p <= |s|
  {
    && WordNames(Field(s, p, 0), MINUTE, tm.min) && WordNames(Field(s, p, 1), HOUR, tm.hour)
    && WordNames(Field(s, p, 3), MONTH, tm.mon + 1) && DayAfterNamed(s, p, tm)
  }

  lemma AgreementTimes(now: seq<bv8>, c: Calendar, s: string, p: nat, tm: Tm, year: int)
    requires p <= |s| && |now| == RECORD_SIZE && ValidTm(tm) && BitsAgree(now, s, p, tm)
    requires DayAfterAgrees(now, s, p, tm.mday)
    requires c.flags == Flags(Starred(s, p, 2), Starred(s, p, 4), false)
    ensures CheckCronTiming(now, c, tm, year) <==> (c.yearStar || c.year == year) && DayAfterNames(s, p, tm)
  {}

  /** On a record compiled from text, the test says of a day what the text says of the number of the
      next day; on the 31st no day of the month fits. */
  lemma TimingIsDayAfter(was: seq<bv8>, now: seq<bv8>, c: Calendar, s: string, p: nat, tm: Tm, year: int)
    requires p <= |s| && Compiled(was, s, p, 5) && SundaysMerged(was, now)
    requires c.flags == Flags(Starred(s, p, 2), Starred(s, p, 4), false) && ValidTm(tm)
    ensures CheckCronTiming(now, c, tm, year) <==> (c.yearStar || c.year == year) && DayAfterNames(s, p, tm)
  {
    CompiledBitsAgree(was, now, s, p, tm);
    CompiledDayAfter(was, now, s, p, tm.mday);
    AgreementTimes(now, c, s, p, tm, year);
  }

  /** The two tests disagree exactly when the year, month, hour and minute fit, the day of the week
      leaves the decision to the day of the month (it fits and a day field is starred, or neither),
      and the bits of the day and of the next day differ. */
  lemma TimingAgreesWithTick(now: seq<bv8>, c: Calendar, tm: Tm, year: int)
    requires |now| == RECORD_SIZE && ValidTm(tm)
    ensures (CheckCronTiming(now, c, tm, year) <==> (c.yearStar || c.year == year) && Matches(now, c.flags, tm))
            <==> ((c.yearStar || c.year == year) && BitTest(now, 8 * MINUTE_AT + tm.min)
                  && BitTest(now, 8 * HOUR_AT + tm.hour) && BitTest(now, 8 * MONTH_AT + tm.mon)
                  && BitTest(now, 8 * DOW_AT + tm.wday) == (c.flags.domStar || c.flags.dowStar)
                  ==> BitTest(now, 8 * DOM_AT + tm.mday - 1) == BitTest(now, 8 * DOM_AT + tm.mday))
  {
    var day, next := 8 * DOM_AT + tm.mday - 1, 8 * DOM_AT + tm.mday;
    assert Matches(now, c.flags, tm) <==>
           && BitTest(now, 8 * MINUTE_AT + tm.min) && BitTest(now, 8 * HOUR_AT + tm.hour)
           && BitTest(now, 8 * MONTH_AT + tm.mon)
           && (if c.flags.domStar || c.flags.dowStar
               then BitTest(now, 8 * DOW_AT + tm.wday) && BitTest(now, day)
               else BitTest(now, 8 * DOW_AT + tm.wday) || BitTest(now, day));
    assert CheckCronTiming(now, c, tm, year) <==>
           && BitTest(now, 8 * MINUTE_AT + tm.min) && BitTest(now, 8 * HOUR_AT + tm.hour)
           && BitTest(now, 8 * MONTH_AT + tm.mon)
           && (c.yearStar || c.year == year)
           && (if c.flags.domStar || c.flags.dowStar
               then BitTest(now, 8 * DOW_AT + tm.wday) && BitTest(now, next)
               else BitTest(now, 8 * DOW_AT + tm.wday) || BitTest(now, next));
  }

  /** A record of the minute 0, the hour 0, the first day of the month, and every month and day of the week. */
  const FIRST_OF_MONTH: seq<bv8> := [1, 0, 0, 0, 0, 0, 0, 0, 1, 0, 0, 1, 0, 0, 0, 0xff, 0x0f, 0xff, 0, 0]

  /** Cron runs it at the first midnight of a January that begins on a Sunday; this test refuses. */
  lemma FirstOfMonthIsMissed()
    ensures var tm := Tm(0, 0, 1, 0, 0);
            var c := Calendar(Flags(false, true, false), true, 0);
            Matches(FIRST_OF_MONTH, c.flags, tm) && !CheckCronTiming(FIRST_OF_MONTH, c, tm, 0)
  {
    assert BitTest(FIRST_OF_MONTH, 8 * DOM_AT + 0) && !BitTest(FIRST_OF_MONTH, 8 * DOM_AT + 1);
  }
}
