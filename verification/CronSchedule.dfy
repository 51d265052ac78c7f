/** What a crontab line means, in plain numbers: every schedule, printed as a line, is accepted and runs at
    its times and at no others. */
module CronSchedule {
  import opened Common
  import opened CronText
  import opened CronSyntax
  import opened CronFields
  import opened CronWords
  import opened CronRecord
  import opened CronEntry

  // ---------------------------------------------------------------- schedules

  /** A number, or a name in any case. */
  datatype Term = Number(n: nat) | Name(i: nat, text: string)

  datatype Part =
    | Every
    | EveryBy(step: nat)
    | One(at: Term)
    | FromTo(from: Term, to: Term)
    | FromToBy(from: Term, to: Term, step: nat)

  /** The parts of the minutes, hours, days of the month, months and days of the week. */
  datatype Schedule = Schedule(fields: seq<seq<Part>>)

  const LOWS := [0, 0, 1, 1, 0]
  const HIGHS := [59, 23, 31, 12, 7]
  const MONTHS := ["jan", "feb", "mar", "apr", "may", "jun", "jul", "aug", "sep", "oct", "nov", "dec"]
  const DAYS := ["sun", "mon", "tue", "wed", "thu", "fri", "sat"]

  function NamesOf(k: nat): seq<string> {
    if k == 3 then MONTHS else if k == 4 then DAYS else []
  }

  /** The letter `small`, or its capital. */
  predicate SameLetter(c: char, small: char) {
    c == small || c as int + 32 == small as int
  }

  predicate InAnyCase(text: string, name: string) {
    |text| == |name| && forall j :: 0 <= j < |name| ==> SameLetter(text[j], name[j])
  }

  predicate TermOk(t: Term, k: nat) {
    match t
    case Number(n) => n < 100
    case Name(i, text) => i < |NamesOf(k)| && InAnyCase(text, NamesOf(k)[i])
  }

  function TermValue(t: Term, k: nat): nat
    requires k < 5
  {
    match t
    case Number(n) => n
    case Name(i, _) => LOWS[k] + i
  }

  predicate InField(v: nat, k: nat)
    requires k < 5
  {
    LOWS[k] <= v <= HIGHS[k]
  }

  predicate StepFits(step: nat) { 0 < step && |Decimal(step)| < 100 }

  predicate PartOk(part: Part, k: nat)
    requires k < 5
  {
    match part
    case Every => true
    case EveryBy(step) => StepFits(step)
    case One(t) => TermOk(t, k) && InField(TermValue(t, k), k)
    case FromTo(a, b) => TermOk(a, k) && TermOk(b, k) && InField(TermValue(a, k), k) && InField(TermValue(b, k), k)
    case FromToBy(a, b, step) =>
      && TermOk(a, k) && TermOk(b, k) && InField(TermValue(a, k), k) && InField(TermValue(b, k), k)
      && StepFits(step)
  }

  /** Whether the part names the value `v`. */
  predicate PartHolds(part: Part, k: nat, v: nat)
    requires k < 5 && PartOk(part, k)
  {
    match part
    case Every => LOWS[k] <= v <= HIGHS[k]
    case EveryBy(step) => LOWS[k] <= v <= HIGHS[k] && (v - LOWS[k]) % step == 0
    case One(t) => v == TermValue(t, k)
    case FromTo(a, b) => TermValue(a, k) <= v <= TermValue(b, k)
    case FromToBy(a, b, step) => TermValue(a, k) <= v <= TermValue(b, k) && (v - TermValue(a, k)) % step == 0
  }

  predicate FieldOk(parts: seq<Part>, k: nat)
    requires k < 5
  {
    parts != [] && forall i :: 0 <= i < |parts| ==> PartOk(parts[i], k)
  }

  predicate FieldHolds(parts: seq<Part>, k: nat, v: nat)
    requires k < 5 && FieldOk(parts, k)
  {
    exists i :: 0 <= i < |parts| && PartHolds(parts[i], k, v)
  }

  predicate StarFirst(parts: seq<Part>)
    requires parts != []
  {
    parts[0].Every? || parts[0].EveryBy?
  }

  predicate ScheduleOk(sch: Schedule) {
    |sch.fields| == 5 && forall k :: 0 <= k < 5 ==> FieldOk(sch.fields[k], k)
  }

  /** When a schedule runs: the minute, the hour and the month fit, and so do the two kinds of day, both if
      one of their fields begins with a star and otherwise at least one. Sunday is 0 and 7. */
  predicate Runs(sch: Schedule, tm: Tm)
    requires ScheduleOk(sch) && ValidTm(tm)
  {
    var dom := FieldHolds(sch.fields[2], 2, tm.mday);
    var dow := FieldHolds(sch.fields[4], 4, tm.wday) || (tm.wday == 0 && FieldHolds(sch.fields[4], 4, 7));
    && FieldHolds(sch.fields[0], 0, tm.min) && FieldHolds(sch.fields[1], 1, tm.hour)
    && FieldHolds(sch.fields[3], 3, tm.mon + 1)
    && (if StarFirst(sch.fields[2]) || StarFirst(sch.fields[4]) then dom && dow else dom || dow)
  }

  // ---------------------------------------------------------------- their text

  function TermText(t: Term): string {
    match t
    case Number(n) => Decimal(n)
    case Name(_, text) => text
  }

  function PartText(part: Part): string {
    match part
    case Every => "*"
    case EveryBy(step) => "*" + ("/" + Decimal(step))
    case One(t) => TermText(t)
    case FromTo(a, b) => TermText(a) + ("-" + TermText(b))
    case FromToBy(a, b, step) => TermText(a) + ("-" + (TermText(b) + ("/" + Decimal(step))))
  }

  function FieldText(parts: seq<Part>): string
    requires parts != []
  {
    if |parts| == 1 then PartText(parts[0]) else PartText(parts[0]) + ("," + FieldText(parts[1..]))
  }

  /** The fields from the `k`-th on, each followed by its blanks, and then `rest`. */
  function TextFrom(sch: Schedule, blanks: seq<string>, rest: string, k: nat): string
    requires ScheduleOk(sch) && |blanks| == 5 && k <= 5
    decreases 5 - k
  {
    if k == 5 then rest else FieldText(sch.fields[k]) + (blanks[k] + TextFrom(sch, blanks, rest, k + 1))
  }

  // ---------------------------------------------------------------- terms

  lemma BoundsAre(k: nat)
    requires k < 5
    ensures BoundsOf(k).low == LOWS[k] && BoundsOf(k).high == HIGHS[k]
    ensures |BoundsOf(k).names| >= |NamesOf(k)|
  {}

  lemma DigitsAreAlnum(t: string)
    requires AllDigits(t)
    ensures IsNumber(t)
  {
    forall i | 0 <= i < |t| ensures IsAlnum(t[i]) {
      assert IsDigit(t[i]);
    }
  }

  /** Names begin with letters, so no number is one. */
  predicate Lettered(names: seq<string>) {
    forall i :: 0 <= i < |names| ==> names[i] != "" && 'A' <= names[i][0] <= 'Z'
  }

  lemma NoDigitIsName(names: seq<string>, t: string)
    requires Lettered(names) && AllDigits(t)
    ensures NameIndex(names, t) == |names|
  {
    forall i | 0 <= i < |names| ensures !SameName(names[i], t) {
      assert t != "" ==> IsDigit(t[0]);
      assert 'a' <= Lower(names[i][0]) <= 'z';
    }
  }

  lemma FieldNamesLettered(k: nat)
    ensures Lettered(BoundsOf(k).names)
  {}

  lemma PlainNumberReads(n: nat, low: nat, names: seq<string>)
    requires Lettered(names) && |Decimal(n)| < 100
    ensures NumberValue(Decimal(n), low, names) == Some(n) && IsNumber(Decimal(n))
  {
    NoDigitIsName(names, Decimal(n));
    DecimalReads(n);
    DigitsAreAlnum(Decimal(n));
  }

  /** The table of a field, in small letters. */
  lemma TableIs(k: nat, i: nat)
    requires k < 5 && i < |NamesOf(k)|
    ensures i < |BoundsOf(k).names| && |BoundsOf(k).names[i]| == 3 == |NamesOf(k)[i]|
    ensures forall j :: 0 <= j < 3 ==>
            Lower(BoundsOf(k).names[i][j]) == NamesOf(k)[i][j] && 'a' <= NamesOf(k)[i][j] <= 'z'
  {}

  lemma TableDiffers(k: nat, i: nat, i': nat)
    requires k < 5 && i < i' < |NamesOf(k)|
    ensures exists j :: 0 <= j < 3 && NamesOf(k)[i][j] != NamesOf(k)[i'][j]
  {
    var a, b := NamesOf(k)[i], NamesOf(k)[i'];
    assert a[0] != b[0] || a[1] != b[1] || a[2] != b[2];
  }

  /** `small` is the beginning of a table of three-letter names, in small letters. */
  ghost predicate SmallOf(names: seq<string>, small: seq<string>) {
    && |small| <= |names|
    && forall n :: 0 <= n < |small| ==> |names[n]| == 3 == |small[n]| && Lowered(names[n], small[n])
  }

  ghost predicate Lowered(t: string, small: string) {
    |t| == |small| && forall j :: 0 <= j < |t| ==> Lower(t[j]) == small[j]
  }

  lemma NameIsFirst(names: seq<string>, small: seq<string>, i: nat, text: string)
    requires SmallOf(names, small) && i < |small| && Lowered(text, small[i])
    requires forall n :: 0 <= n < i ==> small[n] != small[i]
    ensures NameIndex(names, text) == i
  {
    assert SameName(names[i], text);
    forall n | 0 <= n < i ensures !SameName(names[n], text) {
      var j :| 0 <= j < 3 && small[n][j] != small[i][j];
      assert Lower(names[n][j]) != Lower(text[j]);
    }
  }

  lemma TableSmall(k: nat)
    requires k < 5
    ensures SmallOf(BoundsOf(k).names, NamesOf(k))
  {
    forall n | 0 <= n < |NamesOf(k)| ensures Lowered(BoundsOf(k).names[n], NamesOf(k)[n]) {
      TableIs(k, n);
    }
  }

  predicate SmallLetters(t: string) {
    forall j :: 0 <= j < |t| ==> 'a' <= t[j] <= 'z'
  }

  lemma TableLetters(k: nat, i: nat)
    requires k < 5 && i < |NamesOf(k)|
    ensures SmallLetters(NamesOf(k)[i])
  {
    TableIs(k, i);
  }

  lemma CaseLowered(text: string, small: string)
    requires InAnyCase(text, small) && SmallLetters(small)
    ensures Lowered(text, small) && IsNumber(text)
  {
    forall j | 0 <= j < |text| ensures Lower(text[j]) == small[j] && IsAlnum(text[j]) {
      assert SameLetter(text[j], small[j]);
    }
  }

  ghost predicate FirstIn(table: seq<string>, i: nat) {
    i < |table| && forall n :: 0 <= n < i ==> table[n] != table[i]
  }

  lemma TableApart(k: nat, i: nat)
    requires k < 5 && i < |NamesOf(k)|
    ensures FirstIn(NamesOf(k), i)
  {
    forall n | 0 <= n < i ensures NamesOf(k)[n] != NamesOf(k)[i] {
      TableDiffers(k, n, i);
    }
  }

  lemma NameStandsIn(names: seq<string>, table: seq<string>, i: nat, text: string)
    requires SmallOf(names, table) && FirstIn(table, i) && InAnyCase(text, table[i])
    requires SmallLetters(table[i])
    ensures NameIndex(names, text) == i < |names| && IsNumber(text) && |text| == 3
  {
    CaseLowered(text, table[i]);
    NameIsFirst(names, table, i, text);
  }

  lemma NameStands(k: nat, i: nat, text: string)
    requires k < 5 && i < |NamesOf(k)| && InAnyCase(text, NamesOf(k)[i])
    ensures NameIndex(BoundsOf(k).names, text) == i < |BoundsOf(k).names| && IsNumber(text) && |text| == 3
  {
    var names, table := BoundsOf(k).names, NamesOf(k);
    TableLetters(k, i);
    TableSmall(k);
    TableApart(k, i);
    NameStandsIn(names, table, i, text);
  }

  /** What a term is read as. */
  lemma TermReads(t: Term, k: nat)
    requires k < 5 && TermOk(t, k)
    ensures NumberValue(TermText(t), BoundsOf(k).low, BoundsOf(k).names) == Some(TermValue(t, k))
    ensures IsNumber(TermText(t))
  {
    BoundsAre(k);
    match t
    case Number(n) =>
      ShortDecimal(n);
      FieldNamesLettered(k);
      PlainNumberReads(n, BoundsOf(k).low, BoundsOf(k).names);
    case Name(i, text) => NameStands(k, i, text);
  }

  lemma ShortDecimal(n: nat)
    requires n < 100
    ensures |Decimal(n)| < 100
  {
    if n >= 10 {
      assert Decimal(n) == Decimal(n / 10) + [Digit(n % 10)];
    }
  }

  // ---------------------------------------------------------------- parts

  function StepOf(step: nat): Step { Step(Decimal(step)) }

  /** The syntax of a part. */
  function ItemOf(part: Part): Item {
    match part
    case Every => Star(NoStep)
    case EveryBy(step) => Star(StepOf(step))
    case One(t) => Single(TermText(t))
    case FromTo(a, b) => Range(TermText(a), TermText(b), NoStep)
    case FromToBy(a, b, step) => Range(TermText(a), TermText(b), StepOf(step))
  }

  lemma PlainStepReads(step: nat)
    requires StepFits(step)
    ensures StepValue(StepOf(step)) == Some(step) && PlainStep(StepOf(step))
  {
    PlainNumberReads(step, 0, []);
  }

  lemma RangeSpan(a: Term, b: Term, step: Step, n: nat, k: nat)
    requires k < 5 && TermOk(a, k) && TermOk(b, k) && StepValue(step) == Some(n) && PlainStep(step)
    ensures ItemOk(Range(TermText(a), TermText(b), step))
    ensures SpanOf(Range(TermText(a), TermText(b), step), BoundsOf(k)) ==
            Some(Span(TermValue(a, k), TermValue(b, k), n))
  {
    TermReads(a, k);
    TermReads(b, k);
  }

  /** The span of a part in plain numbers. */
  lemma PartSpan(part: Part, k: nat)
    requires k < 5 && PartOk(part, k)
    ensures ItemOk(ItemOf(part)) && Print(ItemOf(part)) == PartText(part)
    ensures SpanOf(ItemOf(part), BoundsOf(k)) == Some(
              match part
              case Every => Span(LOWS[k], HIGHS[k], 1)
              case EveryBy(step) => Span(LOWS[k], HIGHS[k], step)
              case One(t) => Span(TermValue(t, k), TermValue(t, k), 1)
              case FromTo(a, b) => Span(TermValue(a, k), TermValue(b, k), 1)
              case FromToBy(a, b, step) => Span(TermValue(a, k), TermValue(b, k), step))
  {
    BoundsAre(k);
    match part
    case Every =>
    case EveryBy(step) => PlainStepReads(step);
    case One(t) => TermReads(t, k);
    case FromTo(a, b) => RangeSpan(a, b, NoStep, 1, k);
    case FromToBy(a, b, step) =>
      PlainStepReads(step);
      RangeSpan(a, b, StepOf(step), step, k);
  }

  lemma SpanIsGood(span: Span, b: Bounds)
    requires b.low <= span.first <= b.high && b.low <= span.last <= b.high && span.step > 0
    ensures SpanVerdict(span, b) == Good
  {}

  /** A part is accepted. */
  lemma PartIsGood(part: Part, k: nat)
    requires k < 5 && PartOk(part, k)
    ensures ItemVerdict(ItemOf(part), BoundsOf(k)) == Good
  {
    BoundsAre(k);
    PartSpan(part, k);
    SpanIsGood(SpanOf(ItemOf(part), BoundsOf(k)).value, BoundsOf(k));
  }

  lemma UnitStep(first: nat, last: nat, v: nat)
    ensures InSpan(v, Span(first, last, 1)) <==> first <= v <= last
  {}

  lemma SteppedSpan(first: nat, last: nat, step: nat, v: nat)
    requires step > 0
    ensures InSpan(v, Span(first, last, step)) <==> first <= v <= last && (v - first) % step == 0
  {}

  /** And it denotes what it says. */
  lemma PartDenotes(part: Part, k: nat, v: nat)
    requires k < 5 && PartOk(part, k)
    ensures Denotes(ItemOf(part), BoundsOf(k), v) <==> PartHolds(part, k, v)
  {
    PartSpan(part, k);
    match part
    case Every => UnitStep(LOWS[k], HIGHS[k], v);
    case EveryBy(step) => SteppedSpan(LOWS[k], HIGHS[k], step, v);
    case One(t) => UnitStep(TermValue(t, k), TermValue(t, k), v);
    case FromTo(a, b) => UnitStep(TermValue(a, k), TermValue(b, k), v);
    case FromToBy(a, b, step) => SteppedSpan(TermValue(a, k), TermValue(b, k), step, v);
  }

  predicate IsName(t: string, k: nat) {
    exists i :: 0 <= i < |NamesOf(k)| && InAnyCase(t, NamesOf(k)[i])
  }

  lemma LoweredInCase(text: string, small: string)
    requires Lowered(text, small) && SmallLetters(small)
    ensures InAnyCase(text, small)
  {
    forall j | 0 <= j < |small| ensures SameLetter(text[j], small[j]) {
      assert Lower(text[j]) == small[j];
    }
  }

  /** The tables hold no other names: that of the days ends with its first. */
  lemma TableIndex(k: nat, i: nat)
    requires k < 5 && i < |BoundsOf(k).names|
    ensures i < |NamesOf(k)| || (i == 7 && |NamesOf(k)| == 7 && BoundsOf(k).names[i] == BoundsOf(k).names[0])
  {}

  lemma NameIsInTable(t: string, k: nat)
    requires k < 5 && NameIndex(BoundsOf(k).names, t) < |BoundsOf(k).names|
    ensures IsName(t, k)
  {
    var i := NameIndex(BoundsOf(k).names, t);
    TableIndex(k, i);
    var n := if i < |NamesOf(k)| then i else 0;
    TableSmall(k);
    TableLetters(k, n);
    var name, small := BoundsOf(k).names[n], NamesOf(k)[n];
    assert SameName(name, t) && Lowered(name, small);
    assert Lowered(t, small);
    LoweredInCase(t, small);
  }

  lemma SingleNamed(t: string, k: nat)
    requires k < 5 && IsName(t, k)
    ensures ItemVerdict(Single(t), BoundsOf(k)) == Good && |t| == 3
  {
    var i :| 0 <= i < |NamesOf(k)| && InAnyCase(t, NamesOf(k)[i]);
    NameStands(k, i, t);
    TermReads(Name(i, t), k);
    BoundsAre(k);
    NameFits(k, i);
    SingleSpan(LOWS[k] + i, BoundsOf(k));
  }

  lemma NameFits(k: nat, i: nat)
    requires k < 5 && i < |NamesOf(k)|
    ensures InField(LOWS[k] + i, k)
  {}

  lemma SingleNumber(t: string, b: Bounds)
    requires Lettered(b.names) && AllDigits(t) && |t| < 100
    ensures ItemVerdict(Single(t), b) == if b.low <= Atoi(t) <= b.high then Good else Bad
  {
    NoDigitIsName(b.names, t);
    SingleSpan(Atoi(t), b);
  }

  lemma SingleDigits(t: string, k: nat)
    requires k < 5 && AllDigits(t) && |t| < 100
    ensures ItemVerdict(Single(t), BoundsOf(k)) == Good <==> InField(Atoi(t), k)
  {
    var b := BoundsOf(k);
    BoundsAre(k);
    FieldNamesLettered(k);
    SingleNumber(t, b);
  }

  lemma SingleOther(t: string, k: nat)
    requires k < 5 && (|t| >= 100 || (!IsName(t, k) && !AllDigits(t)))
    ensures ItemVerdict(Single(t), BoundsOf(k)) == Bad
  {
    if NameIndex(BoundsOf(k).names, t) < |BoundsOf(k).names| && |t| < 100 {
      NameIsInTable(t, k);
    }
  }

  /** A single word is accepted exactly if it is short enough and either a name of the field or a number
      within its bounds. */
  lemma SingleIsGood(t: string, k: nat)
    requires k < 5 && IsNumber(t)
    ensures ItemVerdict(Single(t), BoundsOf(k)) == Good
            <==> |t| < 100 && (IsName(t, k) || (AllDigits(t) && InField(Atoi(t), k)))
  {
    if IsName(t, k) {
      SingleNamed(t, k);
    } else if AllDigits(t) && |t| < 100 {
      SingleDigits(t, k);
    } else {
      SingleOther(t, k);
    }
  }

  lemma SingleSpan(n: nat, b: Bounds)
    ensures SpanVerdict(Span(n, n, 1), b) == if b.low <= n <= b.high then Good else Bad
  {}

  // ---------------------------------------------------------------- fields

  function ItemsOf(parts: seq<Part>): (items: seq<Item>)
    ensures |items| == |parts| && forall i :: 0 <= i < |parts| ==> items[i] == ItemOf(parts[i])
  {
    if parts == [] then [] else [ItemOf(parts[0])] + ItemsOf(parts[1..])
  }

  lemma {:induction false} FieldPrints(parts: seq<Part>, k: nat)
    requires k < 5 && FieldOk(parts, k)
    ensures ItemsOk(ItemsOf(parts)) && PrintList(ItemsOf(parts)) == FieldText(parts)
    decreases |parts|
  {
    PartSpan(parts[0], k);
    assert ItemsOf(parts)[1..] == ItemsOf(parts[1..]);
    if |parts| > 1 {
      FieldPrints(parts[1..], k);
    }
  }

  lemma {:induction false} FieldIsGood(parts: seq<Part>, k: nat)
    requires k < 5 && FieldOk(parts, k)
    ensures ListVerdict(ItemsOf(parts), BoundsOf(k), true) == Good
    decreases |parts|
  {
    PartIsGood(parts[0], k);
    assert ItemsOf(parts)[1..] == ItemsOf(parts[1..]);
    if |parts| > 1 {
      FieldIsGood(parts[1..], k);
    }
  }

  lemma {:induction false} FieldDenotes(parts: seq<Part>, k: nat, v: nat)
    requires k < 5 && FieldOk(parts, k)
    ensures ListDenotes(ItemsOf(parts), BoundsOf(k), v) <==> FieldHolds(parts, k, v)
    decreases |parts|
  {
    var items, rest := ItemsOf(parts), parts[1..];
    PartDenotes(parts[0], k, v);
    assert items[1..] == ItemsOf(rest);
    if rest != [] {
      FieldDenotes(rest, k, v);
    }
    if FieldHolds(parts, k, v) {
      var i :| 0 <= i < |parts| && PartHolds(parts[i], k, v);
      assert i > 0 ==> rest[i - 1] == parts[i];
    }
    if rest != [] && FieldHolds(rest, k, v) {
      var i :| 0 <= i < |rest| && PartHolds(rest[i], k, v);
      assert parts[i + 1] == rest[i];
    }
  }

  /** The characters of a field: no blank, no newline, and no character that would end it. */
  predicate FieldChar(c: char) { IsAlnum(c) || c == '*' || c == '-' || c == '/' || c == ',' }

  predicate FieldChars(t: string) {
    t != "" && forall i :: 0 <= i < |t| ==> FieldChar(t[i])
  }

  lemma CharsJoin(a: string, c: char, b: string)
    requires FieldChars(a) && FieldChar(c) && FieldChars(b)
    ensures FieldChars(a + ([c] + b))
  {}

  lemma NumberChars(t: string)
    requires IsNumber(t) && t != ""
    ensures FieldChars(t)
  {}

  lemma TermChars(t: Term, k: nat)
    requires k < 5 && TermOk(t, k)
    ensures FieldChars(TermText(t)) && IsAlnum(TermText(t)[0])
  {
    TermReads(t, k);
    if t.Name? {
      NameStands(k, t.i, t.text);
    }
    NumberChars(TermText(t));
  }

  lemma StepChars(step: nat)
    requires StepFits(step)
    ensures FieldChars(Decimal(step))
  {
    PlainNumberReads(step, 0, []);
    NumberChars(Decimal(step));
  }

  lemma PartChars(part: Part, k: nat)
    requires k < 5 && PartOk(part, k)
    ensures FieldChars(PartText(part)) && (PartText(part)[0] == '*' <==> part.Every? || part.EveryBy?)
    ensures PartText(part)[0] == '*' || IsAlnum(PartText(part)[0])
  {
    match part
    case Every =>
    case EveryBy(step) =>
      StepChars(step);
      CharsJoin("*", '/', Decimal(step));
    case One(t) => TermChars(t, k);
    case FromTo(a, b) =>
      TermChars(a, k);
      TermChars(b, k);
      CharsJoin(TermText(a), '-', TermText(b));
    case FromToBy(a, b, step) =>
      TermChars(a, k);
      TermChars(b, k);
      StepChars(step);
      CharsJoin(TermText(b), '/', Decimal(step));
      CharsJoin(TermText(a), '-', TermText(b) + ("/" + Decimal(step)));
  }

  lemma {:induction false} FieldTextChars(parts: seq<Part>, k: nat)
    requires k < 5 && FieldOk(parts, k)
    ensures FieldChars(FieldText(parts)) && (FieldText(parts)[0] == '*' <==> StarFirst(parts))
    ensures FieldText(parts)[0] == '*' || IsAlnum(FieldText(parts)[0])
    decreases |parts|
  {
    PartChars(parts[0], k);
    if |parts| > 1 {
      FieldTextChars(parts[1..], k);
      CharsJoin(PartText(parts[0]), ',', FieldText(parts[1..]));
    }
  }

  // ---------------------------------------------------------------- lines

  predicate AreBlanks(t: string) {
    t != "" && forall i :: 0 <= i < |t| ==> t[i] == ' ' || t[i] == '\t'
  }

  /** What stands after the last blank: something that can be read and is no blank. */
  predicate RestOk(rest: string) {
    rest != "" && rest[0] != ' ' && rest[0] != '\t' && rest[0] != BYTE_FF
  }

  ghost predicate ScheduledLineOk(sch: Schedule, blanks: seq<string>, rest: string) {
    && ScheduleOk(sch) && |blanks| == 5 && RestOk(rest)
    && forall k :: 0 <= k < 5 ==> AreBlanks(blanks[k])
  }

  lemma WithinSplit(a: string, b: string, s: string, p: nat)
    requires Within(a + b, s, p)
    ensures Within(a, s, p) && Within(b, s, p + |a|)
  {
    forall i | 0 <= i < |a| ensures s[p + i] == a[i] { assert s[p + i] == (a + b)[i]; }
    forall i | 0 <= i < |b| ensures s[p + |a| + i] == b[i] { assert s[p + (|a| + i)] == (a + b)[|a| + i]; }
  }

  /** A word, its blanks, and the character after them. */
  lemma WordStands(s: string, q: nat, word: string, blanks: string, next: nat)
    requires FieldChars(word) && AreBlanks(blanks) && Within(word, s, q) && Within(blanks, s, q + |word|)
    requires next == q + |word| + |blanks| < |s| && s[next] != ' ' && s[next] != '\t'
    ensures Word(s, q) == word && NextWord(s, q) == next && s[q + |word|] == blanks[0]
  {
    forall i | q <= i < q + |word| ensures InRun(s[i], Nonblanks) { assert s[q + (i - q)] == word[i - q]; }
    assert s[q + |word| + 0] == blanks[0];
    RunEndUnique(s, q, Nonblanks, q + |word|);
    assert s[q..q + |word|] == word;
    forall i | q + |word| <= i < next ensures InRun(s[i], Blanks) {
      assert s[q + |word| + (i - (q + |word|))] == blanks[i - (q + |word|)];
    }
    RunEndUnique(s, q + |word|, Blanks, next);
  }

  /** What the text from field `k` on begins with. */
  lemma TextBegins(sch: Schedule, blanks: seq<string>, rest: string, k: nat)
    requires ScheduledLineOk(sch, blanks, rest) && k <= 5
    ensures var t := TextFrom(sch, blanks, rest, k); t != "" && t[0] != ' ' && t[0] != '\t' && t[0] != BYTE_FF
    ensures k < 5 ==> TextFrom(sch, blanks, rest, k)[0] == FieldText(sch.fields[k])[0]
  {
    if k < 5 {
      FieldTextChars(sch.fields[k], k);
    }
  }

  /** Field `k` stands at `q`. */
  ghost predicate FieldAt(sch: Schedule, s: string, q: nat, k: nat)
    requires ScheduleOk(sch) && k < 5 && q <= |s|
  {
    && Word(s, q) == FieldText(sch.fields[k]) && NextWord(s, q) < |s|
    && Narrow(LookAt(s, NextWord(s, q))).Ch? && Narrow(LookAt(s, q + |FieldText(sch.fields[k])|)).Ch?
  }

  lemma FieldStandsAs(sch: Schedule, s: string, q: nat, k: nat, word: string, gap: string, tail: string, next: nat)
    requires ScheduleOk(sch) && k < 5 && word == FieldText(sch.fields[k]) && AreBlanks(gap) && RestOk(tail)
    requires Within(word + (gap + tail), s, q) && next == q + |word| + |gap|
    ensures q <= |s| && FieldAt(sch, s, q, k) && NextWord(s, q) == next && Within(tail, s, next)
  {
    WithinSplit(word, gap + tail, s, q);
    WithinSplit(gap, tail, s, q + |word|);
    FieldTextChars(sch.fields[k], k);
    assert s[next + 0] == tail[0];
    WordStands(s, q, word, gap, next);
  }

  lemma FieldStands(sch: Schedule, blanks: seq<string>, rest: string, s: string, q: nat, k: nat)
    requires ScheduledLineOk(sch, blanks, rest) && k < 5 && Within(TextFrom(sch, blanks, rest, k), s, q)
    ensures FieldAt(sch, s, q, k) && Within(TextFrom(sch, blanks, rest, k + 1), s, NextWord(s, q))
    ensures NextWord(s, q) + |TextFrom(sch, blanks, rest, k + 1)| == q + |TextFrom(sch, blanks, rest, k)|
  {
    var word, gap, tail := FieldText(sch.fields[k]), blanks[k], TextFrom(sch, blanks, rest, k + 1);
    TextBegins(sch, blanks, rest, k + 1);
    FieldStandsAs(sch, s, q, k, word, gap, tail, q + |word| + |gap|);
  }

  /** The list of a field, read from its word alone. */
  lemma FieldListReads(parts: seq<Part>, k: nat)
    requires k < 5 && FieldOk(parts, k)
    ensures ListAt(FieldText(parts), 0).0 == ItemsOf(parts) && ListAt(FieldText(parts), 0).1 == |FieldText(parts)|
  {
    var t := FieldText(parts);
    FieldPrints(parts, k);
    assert Within(t, t, 0);
    PrintedListReads(ItemsOf(parts), t, t, 0);
  }

  // What a field that stands at `q` means.

  lemma FieldListAt(parts: seq<Part>, s: string, q: nat, k: nat, end: nat)
    requires k < 5 && FieldOk(parts, k) && q <= |s| && Word(s, q) == FieldText(parts) && end == q + |FieldText(parts)|
    ensures ListAt(s, q).0 == ItemsOf(parts) && ListAt(s, q).1 == end
  {
    FieldListReads(parts, k);
    WordListReads(s, q);
  }

  lemma ReadableIsGood(parts: seq<Part>, k: nat, items: seq<Item>, readable: bool)
    requires k < 5 && FieldOk(parts, k) && items == ItemsOf(parts) && readable
    ensures ListVerdict(items, BoundsOf(k), readable) == Good
  {
    FieldIsGood(parts, k);
  }

  lemma FieldAtIsGood(sch: Schedule, s: string, q: nat, k: nat)
    requires ScheduleOk(sch) && k < 5 && q <= |s| && FieldAt(sch, s, q, k)
    ensures ListVerdict(ListAt(s, q).0, BoundsOf(k), Narrow(LookAt(s, ListAt(s, q).1)).Ch?) == Good
  {
    var items, end := ListAt(s, q).0, ListAt(s, q).1;
    var readable := Narrow(LookAt(s, end)).Ch?;
    FieldListAt(sch.fields[k], s, q, k, q + |FieldText(sch.fields[k])|);
    ReadableIsGood(sch.fields[k], k, items, readable);
  }

  lemma FieldAtNames(sch: Schedule, s: string, q: nat, k: nat, v: nat)
    requires ScheduleOk(sch) && k < 5 && q <= |s| && FieldAt(sch, s, q, k)
    ensures WordNames(Word(s, q), BoundsOf(k), v) <==> FieldHolds(sch.fields[k], k, v)
  {
    FieldListReads(sch.fields[k], k);
    FieldDenotes(sch.fields[k], k, v);
  }

  lemma FieldAtStar(sch: Schedule, s: string, q: nat, k: nat)
    requires ScheduleOk(sch) && k < 5 && q <= |s| && FieldAt(sch, s, q, k)
    ensures LookAt(s, q) == Ch('*') <==> StarFirst(sch.fields[k])
  {
    FieldTextChars(sch.fields[k], k);
    assert s[q] == Word(s, q)[0];
  }

  /** Where field `k` of a line at `p` begins. */
  lemma {:induction false} LineStands(sch: Schedule, blanks: seq<string>, rest: string, s: string, p: nat, k: nat)
    requires ScheduledLineOk(sch, blanks, rest) && k <= 5 && p <= |s| && Within(TextFrom(sch, blanks, rest, 0), s, p)
    ensures Within(TextFrom(sch, blanks, rest, k), s, WordAt(s, p, k))
    ensures WordAt(s, p, k) + |TextFrom(sch, blanks, rest, k)| == p + |TextFrom(sch, blanks, rest, 0)|
    ensures k > 0 ==> FieldAt(sch, s, WordAt(s, p, k - 1), k - 1)
  {
    if k > 0 {
      var j := k - 1;
      var q := WordAt(s, p, j);
      LineStands(sch, blanks, rest, s, p, j);
      FieldStands(sch, blanks, rest, s, q, j);
      assert WordAt(s, p, k) == NextWord(s, q);
    }
  }

  /** What field `k` of the line means. */
  ghost predicate FieldMeans(sch: Schedule, s: string, p: nat, k: nat)
    requires ScheduleOk(sch) && k < 5 && p <= |s|
  {
    && KthVerdict(s, p, k) == Good && (Starred(s, p, k) <==> StarFirst(sch.fields[k]))
    && forall v: nat :: WordNames(Field(s, p, k), BoundsOf(k), v) <==> FieldHolds(sch.fields[k], k, v)
  }

  lemma FieldAtMeans(sch: Schedule, s: string, p: nat, k: nat)
    requires ScheduleOk(sch) && k < 5 && p <= |s| && FieldAt(sch, s, WordAt(s, p, k), k)
    ensures FieldMeans(sch, s, p, k)
  {
    var q := WordAt(s, p, k);
    FieldAtIsGood(sch, s, q, k);
    FieldAtStar(sch, s, q, k);
    forall v: nat ensures WordNames(Field(s, p, k), BoundsOf(k), v) <==> FieldHolds(sch.fields[k], k, v) {
      FieldAtNames(sch, s, q, k, v);
    }
  }

  lemma LineFieldMeans(sch: Schedule, blanks: seq<string>, rest: string, s: string, p: nat, k: nat)
    requires ScheduledLineOk(sch, blanks, rest) && k < 5 && p <= |s| && Within(TextFrom(sch, blanks, rest, 0), s, p)
    ensures FieldMeans(sch, s, p, k)
  {
    LineStands(sch, blanks, rest, s, p, k + 1);
    FieldAtMeans(sch, s, p, k);
  }

  lemma RunsAsMeant(sch: Schedule, s: string, p: nat, tm: Tm)
    requires ScheduleOk(sch) && p <= |s| && ValidTm(tm) && forall k :: 0 <= k < 5 ==> FieldMeans(sch, s, p, k)
    ensures LineNames(s, p, tm) <==> Runs(sch, tm)
  {
    assert FieldMeans(sch, s, p, 0) && FieldMeans(sch, s, p, 1) && FieldMeans(sch, s, p, 2);
    assert FieldMeans(sch, s, p, 3) && FieldMeans(sch, s, p, 4);
  }

  lemma AllMeantIsGood(sch: Schedule, s: string, p: nat)
    requires ScheduleOk(sch) && p <= |s| && forall k :: 0 <= k < 5 ==> FieldMeans(sch, s, p, k)
    ensures LineVerdict(s, p) == Good
  {
    assert FieldMeans(sch, s, p, 0) && FieldMeans(sch, s, p, 1) && FieldMeans(sch, s, p, 2);
    assert FieldMeans(sch, s, p, 3) && FieldMeans(sch, s, p, 4);
  }

  lemma LineBegins(sch: Schedule, blanks: seq<string>, rest: string, s: string, p: nat)
    requires ScheduledLineOk(sch, blanks, rest) && Within(TextFrom(sch, blanks, rest, 0), s, p)
    ensures p < |s| && (s[p] == '*' || IsAlnum(s[p]))
  {
    TextBegins(sch, blanks, rest, 0);
    FieldTextChars(sch.fields[0], 0);
    assert s[p + 0] == TextFrom(sch, blanks, rest, 0)[0];
  }

  lemma LineMeans(sch: Schedule, blanks: seq<string>, rest: string, s: string, p: nat)
    requires ScheduledLineOk(sch, blanks, rest) && p <= |s| && Within(TextFrom(sch, blanks, rest, 0), s, p)
    ensures LineVerdict(s, p) == Good && Within(rest, s, WordAt(s, p, 5))
    ensures WordAt(s, p, 5) + |rest| == p + |TextFrom(sch, blanks, rest, 0)|
    ensures forall tm | ValidTm(tm) :: LineNames(s, p, tm) <==> Runs(sch, tm)
  {
    forall k | 0 <= k < 5 ensures FieldMeans(sch, s, p, k) {
      LineFieldMeans(sch, blanks, rest, s, p, k);
    }
    AllMeantIsGood(sch, s, p);
    LineStands(sch, blanks, rest, s, p, 5);
    forall tm | ValidTm(tm) ensures LineNames(s, p, tm) <==> Runs(sch, tm) {
      RunsAsMeant(sch, s, p, tm);
    }
  }

  /** Every schedule, printed as a line, with whatever blanks and whatever follows, is accepted, and the line
      names exactly the times at which the schedule runs. */
  lemma ScheduleRuns(sch: Schedule, blanks: seq<string>, rest: string, s: string, p: nat)
    requires ScheduledLineOk(sch, blanks, rest) && Within(TextFrom(sch, blanks, rest, 0), s, p)
    ensures p < |s| && s[p] != '@' && TimeOk(s, p) && Within(rest, s, TailStart(s, p))
    ensures TailStart(s, p) + |rest| == p + |TextFrom(sch, blanks, rest, 0)|
    ensures forall tm | ValidTm(tm) :: EntryNames(s, p, tm) <==> Runs(sch, tm)
  {
    LineBegins(sch, blanks, rest, s, p);
    LineMeans(sch, blanks, rest, s, p);
  }
}
