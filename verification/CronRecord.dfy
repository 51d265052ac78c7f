/** The five bit strings of an entry, laid out one after the other in one record (cron.h), their
    compilation in order (entry.c) and their evaluation at a broken-down time (cron.c). */
module CronRecord {
  import opened BitString
  import opened CronText
  import opened CronSyntax
  import opened CronFields
  import opened CronWords

  const MINUTE_AT := 0
  const HOUR_AT := 8
  const DOM_AT := 11
  const MONTH_AT := 15
  const DOW_AT := 17
  /** The bit strings take 18 bytes; two bytes of padding precede the flags. */
  const RECORD_SIZE := 20

  /** Each bit string takes exactly the bytes between its offset and the next. */
  lemma LayoutIsConsecutive()
    ensures HOUR_AT == MINUTE_AT + BitstrSize(60) && DOM_AT == HOUR_AT + BitstrSize(24)
    ensures MONTH_AT == DOM_AT + BitstrSize(31) && DOW_AT == MONTH_AT + BitstrSize(12)
    ensures DOW_AT + BitstrSize(8) < RECORD_SIZE
  {}

  /** A broken-down time, as `localtime` fills it in. */
  datatype Tm = Tm(min: nat, hour: nat, mday: nat, mon: nat, wday: nat)

  predicate ValidTm(tm: Tm) {
    tm.min <= 59 && tm.hour <= 23 && 1 <= tm.mday <= 31 && tm.mon <= 11 && tm.wday <= 6
  }

  // ---------------------------------------------------------------- direct interpretation

  /** Where the `k`-th word from `p` on begins. */
  function WordAt(s: string, p: nat, k: nat): (q: nat)
    requires p <= |s|
    ensures p <= q <= |s|
  {
    if k == 0 then p else NextWord(s, WordAt(s, p, k - 1))
  }

  function Field(s: string, p: nat, k: nat): string
    requires p <= |s|
  {
    Word(s, WordAt(s, p, k))
  }

  predicate Starred(s: string, p: nat, k: nat)
    requires p <= |s|
  {
    LookAt(s, WordAt(s, p, k)) == Ch('*')
  }

  /** Both kinds of day must fit if one of the fields is starred, otherwise one of them must. */
  predicate DayRule(starred: bool, dayOfMonth: bool, dayOfWeek: bool) {
    if starred then dayOfMonth && dayOfWeek else dayOfMonth || dayOfWeek
  }

  predicate DayNamed(s: string, p: nat, tm: Tm)
    requires p <= |s|
  {
    DayRule(Starred(s, p, 2) || Starred(s, p, 4),
            WordNames(Field(s, p, 2), DOM, tm.mday),
            WordNames(Field(s, p, 4), DOW, tm.wday) || (tm.wday == 0 && WordNames(Field(s, p, 4), DOW, 7)))
  }

  /** What a crontab line says about a time: the minute, the hour and the month are named, and so
      are the two kinds of day: both of them if one of the two fields begins with a star, otherwise
      at least one. Sunday goes by 0 and by 7. */
  predicate LineNames(s: string, p: nat, tm: Tm)
    requires p <= |s|
  {
    && WordNames(Field(s, p, 0), MINUTE, tm.min)
    && WordNames(Field(s, p, 1), HOUR, tm.hour)
    && WordNames(Field(s, p, 3), MONTH, tm.mon + 1)
    && DayNamed(s, p, tm)
  }

  ghost function FieldVerdict(s: string, p: nat, k: nat, b: Bounds): Verdict
    requires p <= |s|
  {
    var q := WordAt(s, p, k);
    var verdict := ListVerdict(ListAt(s, q).0, b, Narrow(LookAt(s, ListAt(s, q).1)).Ch?);
    if verdict == Good && Narrow(LookAt(s, WordAt(s, p, k + 1))) == Eof then Bad else verdict
  }

  function BaseOf(k: nat): nat {
    if k == 0 then MINUTE_AT else if k == 1 then HOUR_AT else if k == 2 then DOM_AT
    else if k == 3 then MONTH_AT else DOW_AT
  }

  function BoundsOf(k: nat): Bounds {
    if k == 0 then MINUTE else if k == 1 then HOUR else if k == 2 then DOM
    else if k == 3 then MONTH else DOW
  }

  /** What becomes of the `k`-th field, and where that leaves the reader. */
  ghost function KthVerdict(s: string, p: nat, k: nat): Verdict
    requires p <= |s|
  {
    FieldVerdict(s, p, k, BoundsOf(k))
  }

  ghost function KthStop(s: string, p: nat, k: nat): nat
    requires p <= |s|
  {
    FieldStop(s, WordAt(s, p, k), BoundsOf(k))
  }

  /** The first field of a line that is not good, or the last one. */
  ghost function Decisive(s: string, p: nat): (k: nat)
    requires p <= |s|
    ensures k < 5
  {
    if KthVerdict(s, p, 0) != Good then 0 else if KthVerdict(s, p, 1) != Good then 1
    else if KthVerdict(s, p, 2) != Good then 2 else if KthVerdict(s, p, 3) != Good then 3 else 4
  }

  /** What becomes of the five fields of a line, compiled from left to right. */
  ghost function LineVerdict(s: string, p: nat): Verdict
    requires p <= |s|
  {
    KthVerdict(s, p, Decisive(s, p))
  }

  /** Where compiling the fields leaves the reader. */
  ghost function LineStop(s: string, p: nat): nat
    requires p <= |s|
  {
    KthStop(s, p, Decisive(s, p))
  }

  // ---------------------------------------------------------------- compiled evaluation

  /** The flags word of an entry. */
  datatype Flags = Flags(domStar: bool, dowStar: bool, whenReboot: bool)

  /** The test that `cron_tick` makes. */
  predicate Matches(bytes: seq<bv8>, flags: Flags, tm: Tm)
    requires |bytes| == RECORD_SIZE && ValidTm(tm)
  {
    var minute, hour, dom, month, dow := tm.min - 0, tm.hour - 0, tm.mday - 1, tm.mon + 1 - 1, tm.wday - 0;
    && BitTest(bytes, 8 * MINUTE_AT + minute)
    && BitTest(bytes, 8 * HOUR_AT + hour)
    && BitTest(bytes, 8 * MONTH_AT + month)
    && (if flags.domStar || flags.dowStar
        then BitTest(bytes, 8 * DOW_AT + dow) && BitTest(bytes, 8 * DOM_AT + dom)
        else BitTest(bytes, 8 * DOW_AT + dow) || BitTest(bytes, 8 * DOM_AT + dom))
  }

  // ---------------------------------------------------------------- compiling the five fields

  ghost predicate FieldCompiled(bytes: seq<bv8>, base: nat, b: Bounds, s: string, p: nat, k: nat)
    requires p <= |s|
  {
    FieldSet(bytes, base, b, WordList(Field(s, p, k)))
  }

  /** One call of `get_list` on the `k`-th field. */
  method CompileField(f: CrontabFile, a: array<bv8>, base: nat, b: Bounds, ch: Look, ghost p: nat, ghost k: nat)
    returns (next: Look, hang: bool)
    requires f.Valid() && p <= |f.text|
    requires ch == LookAt(f.text, WordAt(f.text, p, k)) && f.pos == After(f.text, WordAt(f.text, p, k))
    requires b.low <= b.high && base + (b.high - b.low + 1) / 8 < a.Length
    modifies f, a
    ensures f.Valid() && f.pos >= old(f.pos)
    ensures f.pos == FieldStop(f.text, WordAt(f.text, p, k), b)
    ensures hang <==> FieldVerdict(f.text, p, k, b) == Hang
    ensures next.Ch? <==> FieldVerdict(f.text, p, k, b) == Good
    ensures next.Ch? ==>
              && next == LookAt(f.text, WordAt(f.text, p, k + 1)) && f.pos == After(f.text, WordAt(f.text, p, k + 1))
              && FieldCompiled(a[..], base, b, f.text, p, k)
    ensures !BitTest(a[..], ExtraBit(base, b))
    ensures SameOutside(old(a[..]), a[..], base, b)
  {
    FieldIsWord(f.text, WordAt(f.text, p, k));
    next, hang := GetList(f, a, base, b, ch, WordAt(f.text, p, k));
  }

  /** A record as it is allocated. */
  ghost predicate Blank(bytes: seq<bv8>) {
    && |bytes| == RECORD_SIZE
    && forall n: nat :: n < 8 * RECORD_SIZE ==> !BitTest(bytes, n)
  }

  predicate InFields(n: nat, k: nat) {
    exists j: nat {:trigger BaseOf(j)} :: j < k && Own(n, BaseOf(j), BoundsOf(j))
  }

  /** Every bit outside the fields before the `k`-th is clear. */
  ghost predicate RestClear(bytes: seq<bv8>, k: nat) {
    forall n: nat :: n < 8 * |bytes| && !InFields(n, k) ==> !BitTest(bytes, n)
  }

  /** The fields before the `k`-th hold what their words denote, and all other bits are clear. */
  ghost predicate Compiled(bytes: seq<bv8>, s: string, p: nat, k: nat)
    requires p <= |s|
  {
    && |bytes| == RECORD_SIZE
    && (k > 0 ==> FieldCompiled(bytes, MINUTE_AT, MINUTE, s, p, 0))
    && (k > 1 ==> FieldCompiled(bytes, HOUR_AT, HOUR, s, p, 1))
    && (k > 2 ==> FieldCompiled(bytes, DOM_AT, DOM, s, p, 2))
    && (k > 3 ==> FieldCompiled(bytes, MONTH_AT, MONTH, s, p, 3))
    && (k > 4 ==> FieldCompiled(bytes, DOW_AT, DOW, s, p, 4))
    && RestClear(bytes, k)
  }

  lemma RestStaysClear(was: seq<bv8>, now: seq<bv8>, k: nat)
    requires k < 5 && RestClear(was, k) && SameOutside(was, now, BaseOf(k), BoundsOf(k))
    requires ExtraBit(BaseOf(k), BoundsOf(k)) < 8 * |now| && !BitTest(now, ExtraBit(BaseOf(k), BoundsOf(k)))
    ensures RestClear(now, k + 1)
  {
    forall n: nat | n < 8 * |now| && !InFields(n, k + 1) ensures !BitTest(now, n) {
      assert !Own(n, BaseOf(k), BoundsOf(k));
      assert !InFields(n, k);
    }
  }

  lemma DomExtraIsClear(was: seq<bv8>)
    requires |was| == RECORD_SIZE && RestClear(was, 5)
    ensures !BitTest(was, ExtraBit(DOM_AT, DOM))
  {
    assert !InFields(ExtraBit(DOM_AT, DOM), 5);
  }

  /** Compiling the `k`-th field, which clears one bit too many, does not touch an earlier one. */
  lemma EarlierFieldKept(was: seq<bv8>, now: seq<bv8>, s: string, p: nat, j: nat, k: nat)
    requires p <= |s| && j < k < 5
    requires FieldCompiled(was, BaseOf(j), BoundsOf(j), s, p, j)
    requires SameOutside(was, now, BaseOf(k), BoundsOf(k))
    ensures FieldCompiled(now, BaseOf(j), BoundsOf(j), s, p, j)
  {
    FieldKept(was, now, BaseOf(j), BoundsOf(j), WordList(Field(s, p, j)), BaseOf(k), BoundsOf(k));
  }

  lemma CompiledGrows(was: seq<bv8>, now: seq<bv8>, s: string, p: nat, k: nat)
    requires p <= |s| && k < 5 && Compiled(was, s, p, k)
    requires FieldCompiled(now, BaseOf(k), BoundsOf(k), s, p, k) && SameOutside(was, now, BaseOf(k), BoundsOf(k))
    requires !BitTest(now, ExtraBit(BaseOf(k), BoundsOf(k)))
    ensures Compiled(now, s, p, k + 1)
  {
    RestStaysClear(was, now, k);
    if k > 0 { EarlierFieldKept(was, now, s, p, 0, k); }
    if k > 1 { EarlierFieldKept(was, now, s, p, 1, k); }
    if k > 2 { EarlierFieldKept(was, now, s, p, 2, k); }
    if k > 3 { EarlierFieldKept(was, now, s, p, 3, k); }
  }

  /** The `k`-th call of `get_list`, with the bit string and the bounds that the source gives it. */
  method CompileNext(f: CrontabFile, a: array<bv8>, k: nat, ch: Look, ghost p: nat)
    returns (next: Look, hang: bool)
    requires f.Valid() && p <= |f.text| && k < 5
    requires ch == LookAt(f.text, WordAt(f.text, p, k)) && f.pos == After(f.text, WordAt(f.text, p, k))
    requires Compiled(a[..], f.text, p, k)
    modifies f, a
    ensures f.Valid() && f.pos >= old(f.pos)
    ensures f.pos == KthStop(f.text, p, k)
    ensures hang <==> KthVerdict(f.text, p, k) == Hang
    ensures next.Ch? <==> KthVerdict(f.text, p, k) == Good
    ensures next.Ch? ==>
              && next == LookAt(f.text, WordAt(f.text, p, k + 1)) && f.pos == After(f.text, WordAt(f.text, p, k + 1))
              && Compiled(a[..], f.text, p, k + 1)
  {
    assert a.Length == |a[..]| == RECORD_SIZE;
    ghost var was := a[..];
    next, hang := CompileField(f, a, BaseOf(k), BoundsOf(k), ch, p, k);
    if next.Ch? {
      CompiledGrows(was, a[..], f.text, p, k);
    }
  }

  /** The five fields in order, with the star flags (entry.c, the branch for textual fields). */
  method CompileLine(f: CrontabFile, a: array<bv8>, ch: Look, ghost p: nat)
    returns (next: Look, flags: Flags, hang: bool)
    requires f.Valid() && p <= |f.text| && Blank(a[..])
    requires ch == LookAt(f.text, p) && f.pos == After(f.text, p)
    modifies f, a
    ensures f.Valid() && f.pos >= old(f.pos) && f.pos == LineStop(f.text, p)
    ensures (hang <==> LineVerdict(f.text, p) == Hang) && (next.Ch? <==> LineVerdict(f.text, p) == Good)
    ensures next.Ch? ==>
              && next == LookAt(f.text, WordAt(f.text, p, 5)) && f.pos == After(f.text, WordAt(f.text, p, 5))
              && flags == Flags(Starred(f.text, p, 2), Starred(f.text, p, 4), false)
              && Compiled(a[..], f.text, p, 5)
  {
    flags := Flags(false, false, false);
    next, hang := CompileNext(f, a, 0, ch, p);
    if next == Eof {
      return;
    }
    next, hang := CompileNext(f, a, 1, next, p);
    if next == Eof {
      return;
    }
    if next == Ch('*') {
      flags := flags.(domStar := true);
    }
    next, hang := CompileNext(f, a, 2, next, p);
    if next == Eof {
      return;
    }
    next, hang := CompileNext(f, a, 3, next, p);
    if next == Eof {
      return;
    }
    if next == Ch('*') {
      flags := flags.(dowStar := true);
    }
    next, hang := CompileNext(f, a, 4, next, p);
  }

  // ---------------------------------------------------------------- Sunday

  /** Day 0 and day 7 are made the same: either of them sets both. */
  method MergeSundays(a: array<bv8>)
    requires a.Length == RECORD_SIZE
    modifies a
    ensures forall n: nat :: n < 8 * RECORD_SIZE ==>
              (BitTest(a[..], n) <==>
               if n == 8 * DOW_AT || n == 8 * DOW_AT + 7
               then old(BitTest(a[..], 8 * DOW_AT) || BitTest(a[..], 8 * DOW_AT + 7))
               else old(BitTest(a[..], n)))
  {
    if BitTest(a[..], 8 * DOW_AT) || BitTest(a[..], 8 * DOW_AT + 7) {
      BitSet(a, DOW_AT, 0);
      BitSet(a, DOW_AT, 7);
    }
  }

  ghost predicate SundaysMerged(was: seq<bv8>, now: seq<bv8>)
  {
    && |was| == |now| == RECORD_SIZE
    && forall n: nat :: n < 8 * RECORD_SIZE ==>
         (BitTest(now, n) <==>
          if n == 8 * DOW_AT || n == 8 * DOW_AT + 7
          then BitTest(was, 8 * DOW_AT) || BitTest(was, 8 * DOW_AT + 7)
          else BitTest(was, n))
  }

  lemma MergedDetermines(was: seq<bv8>, a: seq<bv8>, b: seq<bv8>)
    requires SundaysMerged(was, a) && SundaysMerged(was, b)
    ensures a == b
  {
    SameBits(a, b);
  }

  /** Outside the two Sundays, a bit of the record says whether the word names its value. */
  lemma FieldBit(was: seq<bv8>, now: seq<bv8>, base: nat, b: Bounds, word: string, v: nat)
    requires SundaysMerged(was, now) && FieldSet(was, base, b, WordList(word)) && b.low <= v <= b.high
    requires base < DOW_AT || (v != 0 && v != 7)
    requires base == DOW_AT ==> b == DOW
    requires base < DOW_AT ==> 8 * base + b.high - b.low < 8 * DOW_AT
    ensures 8 * base + v - b.low < 8 * RECORD_SIZE
    ensures BitTest(now, 8 * base + v - b.low) <==> WordNames(word, b, v)
  {
    var n := 8 * base + v - b.low;
    assert BitTest(was, n) <==> ListDenotes(WordList(word), b, v);
    assert BitTest(now, n) <==> BitTest(was, n);
  }

  lemma SundayBit(was: seq<bv8>, now: seq<bv8>, word: string)
    requires SundaysMerged(was, now) && FieldSet(was, DOW_AT, DOW, WordList(word))
    ensures BitTest(now, 8 * DOW_AT) <==> WordNames(word, DOW, 0) || WordNames(word, DOW, 7)
  {
    assert BitTest(was, 8 * DOW_AT + 0 - DOW.low) <==> WordNames(word, DOW, 0);
    assert BitTest(was, 8 * DOW_AT + 7 - DOW.low) <==> WordNames(word, DOW, 7);
  }

  lemma DayOfWeekBit(was: seq<bv8>, now: seq<bv8>, word: string, wday: nat)
    requires SundaysMerged(was, now) && FieldSet(was, DOW_AT, DOW, WordList(word)) && wday <= 6
    ensures BitTest(now, 8 * DOW_AT + wday) <==>
            WordNames(word, DOW, wday) || (wday == 0 && WordNames(word, DOW, 7))
  {
    if wday == 0 {
      SundayBit(was, now, word);
    } else {
      FieldBit(was, now, DOW_AT, DOW, word, wday);
    }
  }

  /** What the compiled record holds, before Sundays are merged. */
  lemma CompiledFields(was: seq<bv8>, s: string, p: nat)
    requires p <= |s| && Compiled(was, s, p, 5)
    ensures FieldSet(was, MINUTE_AT, MINUTE, WordList(Field(s, p, 0)))
    ensures FieldSet(was, HOUR_AT, HOUR, WordList(Field(s, p, 1)))
    ensures FieldSet(was, DOM_AT, DOM, WordList(Field(s, p, 2))) && !BitTest(was, ExtraBit(DOM_AT, DOM))
    ensures FieldSet(was, MONTH_AT, MONTH, WordList(Field(s, p, 3)))
    ensures FieldSet(was, DOW_AT, DOW, WordList(Field(s, p, 4)))
  {
    DomExtraIsClear(was);
  }

  lemma SameField(a: seq<bv8>, b: seq<bv8>, base: nat, bounds: Bounds, items: seq<Item>, n: nat)
    requires FieldSet(a, base, bounds, items) && FieldSet(b, base, bounds, items) && Own(n, base, bounds)
    requires n < 8 * |a| && n < 8 * |b|
    ensures BitTest(a, n) <==> BitTest(b, n)
  {
    var v: nat := n - 8 * base + bounds.low;
    assert BitTest(a, 8 * base + v - bounds.low) <==> ListDenotes(items, bounds, v);
    assert BitTest(b, 8 * base + v - bounds.low) <==> ListDenotes(items, bounds, v);
  }

  lemma KthFieldSet(was: seq<bv8>, s: string, p: nat, j: nat)
    requires p <= |s| && j < 5 && Compiled(was, s, p, 5)
    ensures |was| == RECORD_SIZE && FieldSet(was, BaseOf(j), BoundsOf(j), WordList(Field(s, p, j)))
  {
    if j == 0 {} else if j == 1 {} else if j == 2 {} else if j == 3 {} else {}
  }

  lemma SameKthField(a: seq<bv8>, b: seq<bv8>, s: string, p: nat, j: nat, n: nat)
    requires p <= |s| && j < 5 && Compiled(a, s, p, 5) && Compiled(b, s, p, 5)
    requires Own(n, BaseOf(j), BoundsOf(j)) && n < 8 * RECORD_SIZE
    ensures BitTest(a, n) <==> BitTest(b, n)
  {
    KthFieldSet(a, s, p, j);
    KthFieldSet(b, s, p, j);
    SameField(a, b, BaseOf(j), BoundsOf(j), WordList(Field(s, p, j)), n);
  }

  /** The text determines the record that is compiled from it, down to the unused bits. */
  lemma CompiledDetermines(a: seq<bv8>, b: seq<bv8>, s: string, p: nat)
    requires p <= |s| && Compiled(a, s, p, 5) && Compiled(b, s, p, 5)
    ensures a == b
  {
    forall n: nat | n < 8 * RECORD_SIZE ensures BitTest(a, n) <==> BitTest(b, n) {
      if InFields(n, 5) {
        var j: nat :| j < 5 && Own(n, BaseOf(j), BoundsOf(j));
        SameKthField(a, b, s, p, j, n);
      }
    }
    SameBits(a, b);
  }

  /** The record, as `Matches` reads it, says of each field what the word says. */
  ghost predicate BitsAgree(now: seq<bv8>, s: string, p: nat, tm: Tm)
    requires p <= |s| && |now| == RECORD_SIZE && ValidTm(tm)
  {
    && (BitTest(now, 8 * MINUTE_AT + tm.min) <==> WordNames(Field(s, p, 0), MINUTE, tm.min))
    && (BitTest(now, 8 * HOUR_AT + tm.hour) <==> WordNames(Field(s, p, 1), HOUR, tm.hour))
    && (BitTest(now, 8 * DOM_AT + tm.mday - 1) <==> WordNames(Field(s, p, 2), DOM, tm.mday))
    && (BitTest(now, 8 * MONTH_AT + tm.mon) <==> WordNames(Field(s, p, 3), MONTH, tm.mon + 1))
    && (BitTest(now, 8 * DOW_AT + tm.wday) <==>
        WordNames(Field(s, p, 4), DOW, tm.wday) || (tm.wday == 0 && WordNames(Field(s, p, 4), DOW, 7)))
  }

  lemma TimeWordBits(was: seq<bv8>, now: seq<bv8>, minute: string, hour: string, month: string, tm: Tm)
    requires SundaysMerged(was, now) && ValidTm(tm)
    requires FieldSet(was, MINUTE_AT, MINUTE, WordList(minute)) && FieldSet(was, HOUR_AT, HOUR, WordList(hour))
    requires FieldSet(was, MONTH_AT, MONTH, WordList(month))
    ensures BitTest(now, 8 * MINUTE_AT + tm.min) <==> WordNames(minute, MINUTE, tm.min)
    ensures BitTest(now, 8 * HOUR_AT + tm.hour) <==> WordNames(hour, HOUR, tm.hour)
    ensures BitTest(now, 8 * MONTH_AT + tm.mon) <==> WordNames(month, MONTH, tm.mon + 1)
  {
    FieldBit(was, now, MINUTE_AT, MINUTE, minute, tm.min);
    FieldBit(was, now, HOUR_AT, HOUR, hour, tm.hour);
    FieldBit(was, now, MONTH_AT, MONTH, month, tm.mon + 1);
  }

  lemma DayWordBits(was: seq<bv8>, now: seq<bv8>, dom: string, dow: string, tm: Tm)
    requires SundaysMerged(was, now) && ValidTm(tm)
    requires FieldSet(was, DOM_AT, DOM, WordList(dom)) && FieldSet(was, DOW_AT, DOW, WordList(dow))
    ensures BitTest(now, 8 * DOM_AT + tm.mday - 1) <==> WordNames(dom, DOM, tm.mday)
    ensures BitTest(now, 8 * DOW_AT + tm.wday) <==>
            WordNames(dow, DOW, tm.wday) || (tm.wday == 0 && WordNames(dow, DOW, 7))
  {
    FieldBit(was, now, DOM_AT, DOM, dom, tm.mday);
    DayOfWeekBit(was, now, dow, tm.wday);
  }

  lemma CompiledBitsAgree(was: seq<bv8>, now: seq<bv8>, s: string, p: nat, tm: Tm)
    requires p <= |s| && Compiled(was, s, p, 5) && SundaysMerged(was, now) && ValidTm(tm)
    ensures BitsAgree(now, s, p, tm)
  {
    CompiledFields(was, s, p);
    TimeWordBits(was, now, Field(s, p, 0), Field(s, p, 1), Field(s, p, 3), tm);
    DayWordBits(was, now, Field(s, p, 2), Field(s, p, 4), tm);
  }

  lemma AgreementMatches(now: seq<bv8>, flags: Flags, s: string, p: nat, tm: Tm)
    requires p <= |s| && |now| == RECORD_SIZE && ValidTm(tm) && BitsAgree(now, s, p, tm)
    requires flags == Flags(Starred(s, p, 2), Starred(s, p, 4), false)
    ensures Matches(now, flags, tm) <==> LineNames(s, p, tm)
  {}

  /** Compilation preserves meaning: whatever the five words of a line are, the packed record that
      they compile to matches a time exactly when the words name it. */
  lemma CompiledLineMatches(was: seq<bv8>, now: seq<bv8>, flags: Flags, s: string, p: nat, tm: Tm)
    requires p <= |s| && Compiled(was, s, p, 5) && SundaysMerged(was, now) && ValidTm(tm)
    requires flags == Flags(Starred(s, p, 2), Starred(s, p, 4), false)
    ensures Matches(now, flags, tm) <==> LineNames(s, p, tm)
  {
    CompiledBitsAgree(was, now, s, p, tm);
    AgreementMatches(now, flags, s, p, tm);
  }
}
