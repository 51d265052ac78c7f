/** The `@` shorthands (entry.c). They set no star flags, so the two kinds of day are combined by
    "or", and what they match is not what their names suggest. */
module CronShorthand {
  import opened BitString
  import opened CronRecord

  const SHORTHANDS := {"reboot", "yearly", "annually", "monthly", "weekly", "daily", "midnight", "hourly"}

  /** The bits that a shorthand sets, before Sundays are merged. */
  predicate ShorthandBit(word: string, n: int) {
    var dom := 8 * DOM_AT <= n <= 8 * DOM_AT + 31;
    var month := 8 * MONTH_AT <= n <= 8 * MONTH_AT + 12;
    var dow := 8 * DOW_AT <= n <= 8 * DOW_AT + 8;
    if word == "reboot" then false
    else if word == "yearly" || word == "annually" then
      n == 8 * MINUTE_AT || n == 8 * HOUR_AT || n == 8 * DOM_AT || n == 8 * MONTH_AT || dow
    else if word == "monthly" then
      n == 8 * MINUTE_AT || n == 8 * HOUR_AT || n == 8 * DOM_AT || month || dow
    else if word == "weekly" then
      n == 8 * MINUTE_AT || n == 8 * HOUR_AT || dom || month || n == 8 * DOW_AT
    else if word == "daily" || word == "midnight" then
      n == 8 * MINUTE_AT || n == 8 * HOUR_AT || dom || month || dow
    else
      n == 8 * MINUTE_AT || n == 8 * HOUR_AT + 24 || dom || month || dow
  }

  ghost predicate HoldsShorthand(bytes: seq<bv8>, word: string) {
    && |bytes| == RECORD_SIZE
    && forall n: nat :: n < 8 * RECORD_SIZE ==> (BitTest(bytes, n) <==> ShorthandBit(word, n))
  }

  lemma ShorthandDetermines(a: seq<bv8>, b: seq<bv8>, word: string)
    requires HoldsShorthand(a, word) && HoldsShorthand(b, word)
    ensures a == b
  {
    SameBits(a, b);
  }

  method SetShorthand(a: array<bv8>, word: string) returns (known: bool, reboot: bool)
    requires Blank(a[..])
    modifies a
    ensures known == (word in SHORTHANDS) && reboot == (word == "reboot")
    ensures known ==> HoldsShorthand(a[..], word)
  {
    assert a.Length == |a[..]|;
    known, reboot := true, false;
    if word == "reboot" {
      reboot := true;
    } else if word == "yearly" || word == "annually" {
      BitSet(a, MINUTE_AT, 0);
      BitSet(a, HOUR_AT, 0);
      BitSet(a, DOM_AT, 0);
      BitSet(a, MONTH_AT, 0);
      BitNset(a, DOW_AT, 0, 8);
    } else if word == "monthly" {
      BitSet(a, MINUTE_AT, 0);
      BitSet(a, HOUR_AT, 0);
      BitSet(a, DOM_AT, 0);
      BitNset(a, MONTH_AT, 0, 12);
      BitNset(a, DOW_AT, 0, 8);
    } else if word == "weekly" {
      BitSet(a, MINUTE_AT, 0);
      BitSet(a, HOUR_AT, 0);
      BitNset(a, DOM_AT, 0, 31);
      BitNset(a, MONTH_AT, 0, 12);
      BitSet(a, DOW_AT, 0);
    } else if word == "daily" || word == "midnight" {
      BitSet(a, MINUTE_AT, 0);
      BitSet(a, HOUR_AT, 0);
      BitNset(a, DOM_AT, 0, 31);
      BitNset(a, MONTH_AT, 0, 12);
      BitNset(a, DOW_AT, 0, 8);
    } else if word == "hourly" {
      BitSet(a, MINUTE_AT, 0);
      BitSet(a, HOUR_AT, 24);
      BitNset(a, DOM_AT, 0, 31);
      BitNset(a, MONTH_AT, 0, 12);
      BitNset(a, DOW_AT, 0, 8);
    } else {
      known := false;
    }
  }

  /** When a shorthand runs: `@yearly` on every day of January, `@monthly` and `@weekly` on every
      day, just as `@daily`, and `@hourly` never. */
  predicate ShorthandNames(word: string, tm: Tm) {
    if word == "yearly" || word == "annually" then tm.min == 0 && tm.hour == 0 && tm.mon == 0
    else if word in {"monthly", "weekly", "daily", "midnight"} then tm.min == 0 && tm.hour == 0
    else false
  }

  lemma ShorthandMatches(was: seq<bv8>, now: seq<bv8>, word: string, reboot: bool, tm: Tm)
    requires word in SHORTHANDS && HoldsShorthand(was, word) && SundaysMerged(was, now) && ValidTm(tm)
    ensures Matches(now, Flags(false, false, reboot), tm) <==> ShorthandNames(word, tm)
  {
    assert BitTest(now, 8 * MINUTE_AT + tm.min) <==> ShorthandBit(word, 8 * MINUTE_AT + tm.min);
    assert BitTest(now, 8 * HOUR_AT + tm.hour) <==> ShorthandBit(word, 8 * HOUR_AT + tm.hour);
    assert BitTest(now, 8 * DOM_AT + tm.mday - 1) <==> ShorthandBit(word, 8 * DOM_AT + tm.mday - 1);
    assert BitTest(now, 8 * MONTH_AT + tm.mon) <==> ShorthandBit(word, 8 * MONTH_AT + tm.mon);
    assert BitTest(was, 8 * DOW_AT) <==> ShorthandBit(word, 8 * DOW_AT);
    assert BitTest(now, 8 * DOW_AT + tm.wday) <==> ShorthandBit(word, 8 * DOW_AT + tm.wday);
  }
}
