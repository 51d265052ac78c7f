/** The time-field compiler of entry.c (`get_list`, `get_range`, `get_number`, `set_element`),
    proved against the set of numbers that a field's syntax tree denotes. */
module CronFields {
  import opened Common
  import opened BitString
  import opened CronText
  import opened CronSyntax

  const MAX_TEMPSTR := 100

  /** A field's range of values and the names of its values; no names where the source passes
      a null pointer. */
  datatype Bounds = Bounds(low: nat, high: nat, names: seq<string>)

  const MONTH_NAMES := ["Jan", "Feb", "Mar", "Apr", "May", "Jun", "Jul", "Aug", "Sep", "Oct", "Nov", "Dec"]
  const DOW_NAMES := ["Sun", "Mon", "Tue", "Wed", "Thu", "Fri", "Sat", "Sun"]

  const MINUTE := Bounds(0, 59, [])
  const HOUR := Bounds(0, 23, [])
  const DOM := Bounds(1, 31, [])
  const MONTH := Bounds(1, 12, MONTH_NAMES)
  const DOW := Bounds(0, 7, DOW_NAMES)

  // ---------------------------------------------------------------- what a field denotes

  function Lower(c: char): char {
    if 'A' <= c <= 'Z' then (c as int + 32) as char else c
  }

  predicate SameName(a: string, b: string) {
    |a| == |b| && forall i :: 0 <= i < |a| ==> Lower(a[i]) == Lower(b[i])
  }

  /** The first name that equals `t` up to case, or the number of names. */
  function NameIndex(names: seq<string>, t: string): (i: nat)
    ensures i <= |names|
    ensures i < |names| ==> SameName(names[i], t)
    ensures forall j :: 0 <= j < i ==> !SameName(names[j], t)
  {
    if names == [] || SameName(names[0], t) then 0 else 1 + NameIndex(names[1..], t)
  }

  predicate AllDigits(t: string) {
    forall i :: 0 <= i < |t| ==> IsDigit(t[i])
  }

  lemma DigitsGrow(t: string, c: char)
    ensures AllDigits(t + [c]) <==> AllDigits(t) && IsDigit(c)
  {
    if AllDigits(t + [c]) {
      assert (t + [c])[|t|] == c;
      assert forall i :: 0 <= i < |t| ==> t[i] == (t + [c])[i];
    }
  }

  function Atoi(t: string): nat
    requires AllDigits(t)
  {
    if t == "" then 0 else 10 * Atoi(t[..|t| - 1]) + (t[|t| - 1] as int - '0' as int)
  }

  // Decimal numbers, as they are printed.

  function Digit(d: nat): (c: char)
    requires d < 10
    ensures IsDigit(c) && c as int - '0' as int == d
  {
    (d + '0' as int) as char
  }

  function Decimal(n: nat): (s: string)
    ensures s != "" && AllDigits(s)
    decreases n
  {
    if n < 10 then [Digit(n)]
    else
      DigitsGrow(Decimal(n / 10), Digit(n % 10));
      Decimal(n / 10) + [Digit(n % 10)]
  }

  lemma {:induction false} DecimalReads(n: nat)
    ensures Atoi(Decimal(n)) == n
    decreases n
  {
    if n < 10 {
      assert Decimal(n)[..0] == "";
    } else {
      DecimalReads(n / 10);
      assert Decimal(n)[..|Decimal(n)| - 1] == Decimal(n / 10);
    }
  }

  /** The last digit is the ones, what precedes it the tens. */
  lemma DecimalIs(n: nat)
    ensures n < 10 ==> Decimal(n) == ["0123456789"[n]]
    ensures n >= 10 ==> Decimal(n) == Decimal(n / 10) + ["0123456789"[n % 10]]
  {
    var digits := "0123456789";
    assert forall d :: 0 <= d < 10 ==> digits[d] as int == d + '0' as int;
  }

  /** The value of a run of letters and digits: a name, or a decimal number of fewer than
      MAX_TEMPSTR digits. The empty run is the number 0. */
  function NumberValue(t: string, low: nat, names: seq<string>): Option<nat> {
    var i := NameIndex(names, t);
    if |t| >= MAX_TEMPSTR then None
    else if i < |names| then Some(i + low)
    else if AllDigits(t) then Some(Atoi(t))
    else None
  }

  function StepValue(step: Step): Option<nat> {
    match step
    case NoStep => Some(1)
    case Step(size) => NumberValue(size, 0, [])
  }

  /** The arithmetic progression that an item stands for. */
  datatype Span = Span(first: nat, last: nat, step: nat)

  function SpanOf(item: Item, b: Bounds): Option<Span> {
    match item
    case Star(step) =>
      (match StepValue(step)
       case None => None
       case Some(k) => Some(Span(b.low, b.high, k)))
    case Single(number) =>
      (match NumberValue(number, b.low, b.names)
       case None => None
       case Some(n) => Some(Span(n, n, 1)))
    case Range(first, last, step) =>
      (match (NumberValue(first, b.low, b.names), NumberValue(last, b.low, b.names), StepValue(step))
       case (Some(m), Some(n), Some(k)) => Some(Span(m, n, k))
       case _ => None)
  }

  predicate InSpan(v: int, span: Span) {
    span.first <= v <= span.last && span.step > 0 && (v - span.first) % span.step == 0
  }

  /** Whether item `item` of a field with bounds `b` names the value `v`. */
  predicate Denotes(item: Item, b: Bounds, v: int) {
    var span := SpanOf(item, b);
    span.Some? && InSpan(v, span.value)
  }

  predicate ListDenotes(items: seq<Item>, b: Bounds, v: int) {
    items != [] && (Denotes(items[0], b, v) || ListDenotes(items[1..], b, v))
  }

  /** What becomes of an item: it is compiled, it is rejected, or the compiler loops on it. */
  datatype Verdict = Good | Bad | Hang

  ghost predicate SpanFits(span: Span, b: Bounds) {
    forall v :: InSpan(v, span) ==> b.low <= v <= b.high
  }

  ghost function SpanVerdict(span: Span, b: Bounds): Verdict {
    if span.first > span.last then Good
    else if !(b.low <= span.first <= b.high) then Bad
    else if span.step == 0 then Hang
    else if SpanFits(span, b) then Good else Bad
  }

  ghost function ItemVerdict(item: Item, b: Bounds): Verdict {
    match SpanOf(item, b)
    case None => Bad
    case Some(span) => SpanVerdict(span, b)
  }

  /** The items of a list are compiled from left to right; `readable` says whether the character
      after the list is one, and not the end of the file. */
  ghost function ListVerdict(items: seq<Item>, b: Bounds, readable: bool): Verdict
    requires |items| > 0
  {
    if |items| == 1 then (if readable then ItemVerdict(items[0], b) else Bad)
    else if ItemVerdict(items[0], b) != Good then ItemVerdict(items[0], b)
    else ListVerdict(items[1..], b, readable)
  }

  // ---------------------------------------------------------------- the compiler

  /** Bits of the field at byte `base` that may be written when its list is compiled. */
  predicate Own(n: int, base: nat, b: Bounds) {
    8 * base <= n <= 8 * base + b.high - b.low
  }

  /** Where reading a number leaves the reader: one past the run, or where the run gets too long. */
  function NumberStop(s: string, p: nat): (pos: nat)
    requires p <= |s|
    ensures p <= pos <= |s|
  {
    var end := RunEnd(s, p, Alnums);
    if end - p >= MAX_TEMPSTR then p + MAX_TEMPSTR else After(s, end)
  }

  lemma SliceGrows(s: string, p: nat, q: nat)
    requires p <= q < |s|
    ensures s[p..q + 1] == s[p..q] + [s[q]]
  {}

  method GetNumber(f: CrontabFile, low: nat, names: seq<string>, ch: Look, ghost p: nat)
    returns (next: Look, num: nat)
    requires f.Valid() && p <= |f.text|
    requires ch == LookAt(f.text, p) && f.pos == After(f.text, p)
    modifies f
    ensures f.Valid() && f.pos >= old(f.pos)
    ensures var end := RunEnd(f.text, p, Alnums);
            && (next.Ch? <==> NumberValue(NumberAt(f.text, p), low, names).Some? && Narrow(LookAt(f.text, end)).Ch?)
            && (next.Ch? ==> NumberValue(NumberAt(f.text, p), low, names) == Some(num)
                             && next == LookAt(f.text, end) && f.pos == After(f.text, end))
    ensures f.pos == NumberStop(f.text, p)
  {
    ghost var text, end := f.text, RunEnd(f.text, p, Alnums);
    var temp, allDigits := "", true;
    next, num := ch, 0;
    ghost var q := p;
    while next.Ch? && IsAlnum(next.c)
      invariant f.Valid() && p <= q <= |text| && f.pos >= old(f.pos)
      invariant end == RunEnd(text, q, Alnums)
      invariant next == LookAt(text, q) && f.pos == After(text, q)
      invariant temp == text[p..q] && |temp| < MAX_TEMPSTR
      invariant allDigits == AllDigits(temp)
      decreases |text| - q
    {
      if |temp| + 1 >= MAX_TEMPSTR {
        assert end > q;
        return Eof, 0;
      }
      DigitsGrow(temp, next.c);
      SliceGrows(text, p, q);
      temp := temp + [next.c];
      if !IsDigit(next.c) {
        allDigits := false;
      }
      next := f.GetChar();
      q := q + 1;
    }
    assert q == end;
    var i := 0;
    while i < |names|
      invariant 0 <= i <= |names|
      invariant forall j :: 0 <= j < i ==> !SameName(names[j], temp)
    {
      if SameName(names[i], temp) {
        return Narrow(next), i + low;
      }
      i := i + 1;
    }
    if allDigits {
      return Narrow(next), Atoi(temp);
    }
    return Eof, 0;
  }

  method SetElement(a: array<bv8>, base: nat, low: nat, high: nat, number: nat) returns (ok: bool)
    requires low <= high && base + (high - low) / 8 < a.Length
    modifies a
    ensures ok == (low <= number <= high)
    ensures forall n: nat :: n < 8 * a.Length ==>
              (BitTest(a[..], n) <==> old(BitTest(a[..], n)) || (ok && n == 8 * base + number - low))
  {
    if number < low || number > high {
      return false;
    }
    BitSet(a, base, number - low);
    return true;
  }

  /** Stepping over a span: the numbers of the span below `i` are exactly those stepped on. */
  ghost predicate StepsOn(i: nat, span: Span) {
    span.first <= i && span.step > 0 && (i - span.first) % span.step == 0
  }

  lemma NextStep(i: nat, span: Span)
    requires StepsOn(i, span)
    ensures StepsOn(i + span.step, span)
    ensures forall v :: i < v < i + span.step ==> !InSpan(v, span)
  {
    ModShift(i - span.first, span.step);
    forall v | i < v < i + span.step ensures !InSpan(v, span) {
      var x := i - span.first;
      ModUnique(v - span.first, span.step, x / span.step, v - i);
    }
  }

  lemma MulMonotone(x: int, y: int, k: nat)
    requires x <= y
    ensures x * k <= y * k
  {
    assert y * k == x * k + (y - x) * k;
  }

  lemma ModUnique(x: nat, k: nat, q: nat, r: nat)
    requires k > 0 && r < k && x == q * k + r
    ensures x % k == r
  {
    if x / k < q {
      MulMonotone(x / k + 1, q, k);
    } else if q < x / k {
      MulMonotone(q + 1, x / k, k);
    }
  }

  lemma ModShift(x: nat, k: nat)
    requires k > 0
    ensures (x + k) % k == x % k
  {
    ModUnique(x + k, k, x / k + 1, x % k);
  }

  /** After `rounds` rounds of a step from `first`, all of them within bounds, the compiler is at `i`. */
  ghost predicate Stepped(rounds: nat, i: nat, span: Span, b: Bounds) {
    i == span.first + rounds * span.step && (rounds > 0 ==> b.low <= span.first)
  }

  lemma SteppedOn(rounds: nat, i: nat, span: Span, b: Bounds)
    requires Stepped(rounds, i, span, b) && b.low <= i <= b.high && span.step > 0
    ensures Stepped(rounds + 1, i + span.step, span, b)
    ensures rounds <= (b.high - b.low) / span.step
  {
    var width := b.high - b.low;
    assert (rounds + 1) * span.step == rounds * span.step + span.step;
    if width / span.step < rounds {
      MulMonotone(width / span.step + 1, rounds, span.step);
    }
  }

  /** Only bits of the field itself differ. */
  ghost predicate KeptOutside(was: seq<bv8>, now: seq<bv8>, base: nat, b: Bounds) {
    |now| == |was| && forall n: nat :: n < 8 * |now| && !Own(n, base, b) ==> (BitTest(now, n) <==> BitTest(was, n))
  }

  lemma KeptTrans(was: seq<bv8>, mid: seq<bv8>, now: seq<bv8>, base: nat, b: Bounds)
    requires KeptOutside(was, mid, base, b) && KeptOutside(mid, now, base, b)
    ensures KeptOutside(was, now, base, b)
  {}

  /** `now` is `was` with the bits of the numbers of the span below `i` set as well. */
  ghost predicate SpanSet(was: seq<bv8>, now: seq<bv8>, base: nat, b: Bounds, span: Span, i: int) {
    && |now| == |was|
    && forall n: nat :: n < 8 * |now| ==>
         (BitTest(now, n) <==>
          BitTest(was, n) || (n - 8 * base + b.low < i && InSpan(n - 8 * base + b.low, span)))
  }

  lemma SpanSetStep(was: seq<bv8>, mid: seq<bv8>, now: seq<bv8>, base: nat, b: Bounds, span: Span, i: nat)
    requires SpanSet(was, mid, base, b, span, i) && |now| == |mid| && b.low <= i && StepsOn(i, span) && i <= span.last
    requires forall n: nat :: n < 8 * |now| ==> (BitTest(now, n) <==> BitTest(mid, n) || n == 8 * base + i - b.low)
    ensures SpanSet(was, now, base, b, span, i + span.step)
  {
    NextStep(i, span);
  }

  lemma SpanSetEnds(was: seq<bv8>, now: seq<bv8>, base: nat, b: Bounds, span: Span, i: nat)
    requires SpanSet(was, now, base, b, span, i) && i > span.last
    ensures forall n: nat :: n < 8 * |now| ==>
              (BitTest(now, n) <==> BitTest(was, n) || InSpan(n - 8 * base + b.low, span))
  {}

  /** One number of a span. */
  method SetNext(a: array<bv8>, base: nat, b: Bounds, span: Span, i: nat, ghost was: seq<bv8>) returns (ok: bool)
    requires b.low <= b.high && base + (b.high - b.low) / 8 < a.Length && i <= span.last
    requires span.step > 0 ==> StepsOn(i, span)
    requires SpanSet(was, a[..], base, b, span, i) && KeptOutside(was, a[..], base, b)
    modifies a
    ensures ok == (b.low <= i <= b.high) && KeptOutside(was, a[..], base, b)
    ensures ok && span.step > 0 ==> SpanSet(was, a[..], base, b, span, i + span.step)
  {
    ghost var mid := a[..];
    ok := SetElement(a, base, b.low, b.high, i);
    if ok && span.step > 0 {
      SpanSetStep(was, mid, a[..], base, b, span, i);
    }
  }

  /** The numbers of the span below `i` are within bounds. */
  ghost predicate FitsBelow(i: nat, span: Span, b: Bounds) {
    forall v :: InSpan(v, span) && v < i ==> b.low <= v <= b.high
  }

  lemma FitsOn(i: nat, span: Span, b: Bounds)
    requires StepsOn(i, span) && FitsBelow(i, span, b) && b.low <= i <= b.high
    ensures StepsOn(i + span.step, span) && FitsBelow(i + span.step, span, b)
  {
    NextStep(i, span);
  }

  lemma SpanGood(i: nat, span: Span, b: Bounds)
    requires FitsBelow(i, span, b) && span.last < i && span.first <= i && (i == span.first || StepsOn(i, span))
    ensures SpanVerdict(span, b) == Good
  {
    assert span.step > 0 && span.first <= span.last ==> InSpan(span.first, span);
  }

  lemma SpanBad(i: nat, span: Span, b: Bounds)
    requires i <= span.last && !(b.low <= i <= b.high) && (i == span.first || StepsOn(i, span))
    ensures SpanVerdict(span, b) == Bad
  {
    assert span.step > 0 ==> InSpan(i, span);
  }

  /** Sets the bits of a span, in few rounds. A zero step would never leave its first number: that is the
      answer `hang`. */
  method SetSpan(a: array<bv8>, base: nat, b: Bounds, span: Span) returns (ok: bool, hang: bool, ghost rounds: nat)
    requires b.low <= b.high && base + (b.high - b.low) / 8 < a.Length
    modifies a
    ensures span.step > 0 ==> rounds <= (b.high - b.low) / span.step + 2
    ensures hang <==> SpanVerdict(span, b) == Hang
    ensures ok <==> SpanVerdict(span, b) == Good
    ensures ok ==> forall n: nat :: n < 8 * a.Length ==>
              (BitTest(a[..], n) <==> old(BitTest(a[..], n)) || InSpan(n - 8 * base + b.low, span))
    ensures KeptOutside(old(a[..]), a[..], base, b)
  {
    ghost var was := a[..];
    var i := span.first;
    rounds := 0;
    while i <= span.last
      invariant span.first <= i && Stepped(rounds, i, span, b)
      invariant span.step > 0 ==> StepsOn(i, span) && rounds <= (b.high - b.low) / span.step + 1
      invariant i == span.first || StepsOn(i, span)
      invariant FitsBelow(i, span, b) && SpanSet(was, a[..], base, b, span, i) && KeptOutside(was, a[..], base, b)
      decreases span.last - i
    {
      var inRange := SetNext(a, base, b, span, i, was);
      if !inRange {
        SpanBad(i, span, b);
        return false, false, rounds + 1;
      }
      if span.step == 0 {
        return false, true, 1;
      }
      SteppedOn(rounds, i, span, b);
      FitsOn(i, span, b);
      i := i + span.step;
      rounds := rounds + 1;
    }
    SpanGood(i, span, b);
    SpanSetEnds(was, a[..], base, b, span, i);
    return true, false, rounds;
  }

  function StepStop(s: string, p: nat): (pos: nat)
    requires p <= |s|
    ensures p <= pos <= |s|
  {
    if p < |s| && s[p] == '/' then NumberStop(s, p + 1) else After(s, p)
  }

  /** Where reading an item leaves the reader, whether or not it can be read. */
  function ItemStop(s: string, p: nat, b: Bounds): (pos: nat)
    requires p <= |s|
    ensures p <= pos <= |s|
  {
    if p < |s| && s[p] == '*' then StepStop(s, p + 1)
    else
      var q := RunEnd(s, p, Alnums);
      if NumberValue(NumberAt(s, p), b.low, b.names) == None || LookAt(s, q) != Ch('-') then NumberStop(s, p)
      else
        var r := RunEnd(s, q + 1, Alnums);
        if NumberValue(NumberAt(s, q + 1), b.low, b.names) == None || Narrow(LookAt(s, r)) == Eof
        then NumberStop(s, q + 1)
        else StepStop(s, r)
  }

  /** What reading the step at `p` comes to. */
  ghost predicate StepDone(s: string, p: nat, pos: nat, next: Look, num: nat)
    requires p <= |s|
  {
    var (step, end) := StepAt(s, p);
    && (Narrow(next).Ch? <==> StepValue(step).Some? && Narrow(LookAt(s, end)).Ch?)
    && (next.Ch? ==> StepValue(step) == Some(num) && next == LookAt(s, end) && pos == After(s, end))
    && (next == Ch(BYTE_FF) ==> num == 1)
    && pos == StepStop(s, p)
  }

  /** The optional step, whose number is not an element of the field: no names, no offset. */
  method ReadStep(f: CrontabFile, ch: Look, ghost p: nat) returns (next: Look, num: nat)
    requires f.Valid() && p < |f.text|
    requires ch == LookAt(f.text, p) && f.pos == After(f.text, p)
    modifies f
    ensures f.Valid() && f.pos >= old(f.pos) && StepDone(f.text, p, f.pos, next, num)
  {
    next, num := ch, 1;
    if next == Ch('/') {
      next := f.GetChar();
      if next == Eof {
        return;
      }
      next, num := GetNumber(f, 0, [], next, p + 1);
    }
  }

  /** Reads one item up to its bounds and step. `single` says that it is a number by itself. */
  method ReadItem(f: CrontabFile, b: Bounds, ch: Look, ghost p: nat)
    returns (next: Look, span: Span, single: bool)
    requires f.Valid() && p <= |f.text|
    requires ch == LookAt(f.text, p) && f.pos == After(f.text, p)
    modifies f
    ensures f.Valid() && f.pos >= old(f.pos)
    ensures ItemDone(f.text, p, b, f.pos, next, span, single)
  {
    ghost var text := f.text;
    span, single := Span(b.low, b.high, 1), false;
    if ch == Ch('*') {
      next := f.GetChar();
      if next == Eof {
        return;
      }
      var k;
      next, k := ReadStep(f, next, p + 1);
      span := span.(step := k);
    } else {
      next, span, single := ReadNumbers(f, b, ch, p);
    }
  }

  /** What reading the item at `p` comes to. */
  ghost predicate ItemDone(s: string, p: nat, b: Bounds, pos: nat, next: Look, span: Span, single: bool)
    requires p <= |s|
  {
    var (item, end) := ItemAt(s, p);
    && (Narrow(next).Ch? <==> SpanOf(item, b).Some? && Narrow(LookAt(s, end)).Ch?)
    && (next.Ch? ==>
        SpanOf(item, b) == Some(span) && single == item.Single? && next == LookAt(s, end) && pos == After(s, end))
    && (next == Ch(BYTE_FF) ==> span.step == 1)
    && pos == ItemStop(s, p, b)
  }

  method ReadNumbers(f: CrontabFile, b: Bounds, ch: Look, ghost p: nat)
    returns (next: Look, span: Span, single: bool)
    requires f.Valid() && p <= |f.text| && ch != Ch('*')
    requires ch == LookAt(f.text, p) && f.pos == After(f.text, p)
    modifies f
    ensures f.Valid() && f.pos >= old(f.pos)
    ensures ItemDone(f.text, p, b, f.pos, next, span, single)
  {
    ghost var q := RunEnd(f.text, p, Alnums);
    span, single := Span(0, 0, 1), false;
    var num1;
    next, num1 := GetNumber(f, b.low, b.names, ch, p);
    if next == Eof {
      return;
    }
    if next != Ch('-') {
      assert ItemAt(f.text, p) == (Single(NumberAt(f.text, p)), q);
      return next, Span(num1, num1, 1), true;
    }
    next, span := ReadUpper(f, b, num1, p, q);
  }

  /** The lower number `num1` of a range at `p` has been read, up to the dash at `q`. */
  ghost predicate AtDash(s: string, p: nat, q: nat, b: Bounds, num1: nat) {
    && p <= |s| && LookAt(s, p) != Ch('*') && q == RunEnd(s, p, Alnums) && LookAt(s, q) == Ch('-')
    && NumberValue(NumberAt(s, p), b.low, b.names) == Some(num1)
  }

  lemma RangeUpper(s: string, p: nat, q: nat, r: nat, b: Bounds, num1: nat)
    requires AtDash(s, p, q, b, num1) && r == RunEnd(s, q + 1, Alnums)
    ensures ItemAt(s, p) == (Range(NumberAt(s, p), NumberAt(s, q + 1), StepAt(s, r).0), StepAt(s, r).1)
    ensures ItemStop(s, p, b) ==
            if NumberValue(NumberAt(s, q + 1), b.low, b.names) == None || Narrow(LookAt(s, r)) == Eof
            then NumberStop(s, q + 1) else StepStop(s, r)
  {}

  lemma UpperFails(s: string, p: nat, q: nat, r: nat, b: Bounds, num1: nat, span: Span)
    requires AtDash(s, p, q, b, num1) && r == RunEnd(s, q + 1, Alnums)
    requires NumberValue(NumberAt(s, q + 1), b.low, b.names) == None || Narrow(LookAt(s, r)) == Eof
    ensures ItemDone(s, p, b, NumberStop(s, q + 1), Eof, span, false)
  {
    RangeUpper(s, p, q, r, b, num1);
  }

  lemma UpperReads(s: string, p: nat, q: nat, r: nat, b: Bounds, num1: nat, num2: nat, num3: nat, next: Look, pos: nat)
    requires AtDash(s, p, q, b, num1) && r == RunEnd(s, q + 1, Alnums) && StepDone(s, r, pos, next, num3)
    requires NumberValue(NumberAt(s, q + 1), b.low, b.names) == Some(num2) && Narrow(LookAt(s, r)).Ch?
    ensures ItemDone(s, p, b, pos, next, Span(num1, num2, num3), false)
  {
    RangeUpper(s, p, q, r, b, num1);
  }

  /** The rest of a range, from the dash on. */
  method ReadUpper(f: CrontabFile, b: Bounds, num1: nat, ghost p: nat, ghost q: nat) returns (next: Look, span: Span)
    requires f.Valid() && AtDash(f.text, p, q, b, num1) && f.pos == q + 1
    modifies f
    ensures f.Valid() && f.pos >= old(f.pos)
    ensures ItemDone(f.text, p, b, f.pos, next, span, false)
  {
    ghost var text, r := f.text, RunEnd(f.text, q + 1, Alnums);
    span := Span(0, 0, 1);
    next := f.GetChar();
    if next == Eof {
      UpperFails(text, p, q, r, b, num1, span);
      return;
    }
    var num2, num3;
    next, num2 := GetNumber(f, b.low, b.names, next, q + 1);
    if next == Eof {
      UpperFails(text, p, q, r, b, num1, span);
      return;
    }
    next, num3 := ReadStep(f, next, r);
    UpperReads(text, p, q, r, b, num1, num2, num3, next, f.pos);
    span := Span(num1, num2, num3);
  }

  /** `now` is `was` with the bits of the elements that `item` denotes set as well. */
  ghost predicate ItemCompiled(was: seq<bv8>, now: seq<bv8>, base: nat, b: Bounds, item: Item) {
    && |now| == |was|
    && forall n: nat :: n < 8 * |now| ==>
         (BitTest(now, n) <==> BitTest(was, n) || Denotes(item, b, n - 8 * base + b.low))
  }

  /** Sets the one bit of a single number, or the bits of a span. */
  method SetItem(a: array<bv8>, base: nat, b: Bounds, span: Span, single: bool) returns (ok: bool, hang: bool)
    requires b.low <= b.high && base + (b.high - b.low) / 8 < a.Length
    requires single ==> span.first == span.last && span.step == 1
    modifies a
    ensures hang <==> SpanVerdict(span, b) == Hang
    ensures ok <==> SpanVerdict(span, b) == Good
    ensures ok ==> forall n: nat :: n < 8 * a.Length ==>
              (BitTest(a[..], n) <==> old(BitTest(a[..], n)) || InSpan(n - 8 * base + b.low, span))
    ensures KeptOutside(old(a[..]), a[..], base, b)
  {
    if single {
      ok := SetElement(a, base, b.low, b.high, span.first);
      hang := false;
      assert InSpan(span.first, span);
    } else {
      ghost var rounds;
      ok, hang, rounds := SetSpan(a, base, b, span);
    }
  }

  /** What compiling the item at `p` comes to. */
  ghost predicate RangeDone(s: string, p: nat, pos: nat, next: Look, hang: bool, was: seq<bv8>, now: seq<bv8>,
                            base: nat, b: Bounds)
    requires p <= |s|
  {
    var (item, end) := ItemAt(s, p);
    var readable := Narrow(LookAt(s, end)).Ch?;
    && (hang <==> readable && ItemVerdict(item, b) == Hang)
    && (next.Ch? <==> readable && ItemVerdict(item, b) == Good)
    && (next.Ch? ==> next == LookAt(s, end) && pos == After(s, end) && ItemCompiled(was, now, base, b, item))
    && pos == ItemStop(s, p, b)
  }

  lemma ItemIsDone(s: string, p: nat, pos: nat, read: Look, span: Span, single: bool, ok: bool, hang: bool,
                   was: seq<bv8>, now: seq<bv8>, base: nat, b: Bounds)
    requires p <= |s| && ItemDone(s, p, b, pos, read, span, single) && read.Ch? && |now| == |was|
    requires hang <==> SpanVerdict(span, b) == Hang
    requires ok <==> SpanVerdict(span, b) == Good
    requires ok ==> forall n: nat :: n < 8 * |now| ==>
               (BitTest(now, n) <==> BitTest(was, n) || InSpan(n - 8 * base + b.low, span))
    ensures RangeDone(s, p, pos, if ok then Narrow(read) else Eof, hang, was, now, base, b)
  {}

  /** Compiles one item into the bit string at `base`. The look-ahead `ch` stands at `p`. */
  method GetRange(f: CrontabFile, a: array<bv8>, base: nat, b: Bounds, ch: Look, ghost p: nat)
    returns (next: Look, hang: bool)
    requires f.Valid() && p <= |f.text|
    requires ch == LookAt(f.text, p) && f.pos == After(f.text, p)
    requires b.low <= b.high && base + (b.high - b.low) / 8 < a.Length
    modifies f, a
    ensures f.Valid() && f.pos >= old(f.pos)
    ensures RangeDone(f.text, p, f.pos, next, hang, old(a[..]), a[..], base, b)
    ensures KeptOutside(old(a[..]), a[..], base, b)
  {
    var read, span, single;
    read, span, single := ReadItem(f, b, ch, p);
    if read == Eof {
      return Eof, false;
    }
    ghost var was := a[..];
    var ok;
    ok, hang := SetItem(a, base, b, span, single);
    next := if ok then Narrow(read) else Eof;
    ItemIsDone(f.text, p, f.pos, read, span, single, ok, hang, was, a[..], base, b);
  }

  // ---------------------------------------------------------------- one whole field

  /** Where reading a list leaves the reader: past the first item that is not followed by a comma, or
      where the first item is rejected that is not good. */
  ghost function ListStop(s: string, p: nat, b: Bounds): (pos: nat)
    requires p <= |s|
    decreases |s| - p
  {
    var stop := ItemAt(s, p).1;
    if ItemVerdict(ItemAt(s, p).0, b) == Good && LookAt(s, stop) == Ch(',') then ListStop(s, stop + 1, b)
    else ItemStop(s, p, b)
  }

  /** Where reading a field leaves the reader. */
  ghost function FieldStop(s: string, p: nat, b: Bounds): (pos: nat)
    requires p <= |s|
  {
    var (items, end) := ListAt(s, p);
    if ListVerdict(items, b, Narrow(LookAt(s, end)).Ch?) == Good then After(s, NextField(s, p)) else ListStop(s, p, b)
  }

  /** Where the next field begins: past the rest of this field's word and the blanks after it. */
  function NextField(s: string, p: nat): (q: nat)
    requires p <= |s|
    ensures p <= q <= |s|
  {
    RunEnd(s, RunEnd(s, ListAt(s, p).1, Nonblanks), Blanks)
  }

  /** The bits of the record that `get_list` clears: one more than the field has. */
  predicate Cleared(n: int, base: nat, b: Bounds) {
    8 * base <= n <= 8 * base + (b.high - b.low + 1)
  }

  /** The one bit too many, which stays clear. */
  function ExtraBit(base: nat, b: Bounds): nat
    requires b.low <= b.high
  {
    8 * base + (b.high - b.low + 1)
  }

  /** From `p`, the items `items` are still to be read, up to `end`. */
  ghost predicate Remain(s: string, p: nat, items: seq<Item>, end: nat) {
    p <= |s| && items == ListAt(s, p).0 && end == ListAt(s, p).1
  }

  lemma RemainStep(s: string, p: nat, items: seq<Item>, end: nat)
    requires Remain(s, p, items, end)
    ensures |items| > 0 && items[0] == ItemAt(s, p).0
    ensures var stop := ItemAt(s, p).1;
            if LookAt(s, stop) == Ch(',') then |items| > 1 && Remain(s, stop + 1, items[1..], end)
            else items == [items[0]] && stop == end
  {
    ListUnfolds(s, p);
    var stop := ItemAt(s, p).1;
    if LookAt(s, stop) == Ch(',') {
      assert ([ItemAt(s, p).0] + ListAt(s, stop + 1).0)[1..] == ListAt(s, stop + 1).0;
    }
  }

  /** `now` is `was` with the bits of the elements that `items` denotes set as well. */
  ghost predicate ListCompiled(was: seq<bv8>, now: seq<bv8>, base: nat, b: Bounds, items: seq<Item>) {
    && |now| == |was|
    && forall n: nat :: n < 8 * |now| ==>
         (BitTest(now, n) <==> BitTest(was, n) || ListDenotes(items, b, n - 8 * base + b.low))
  }

  /** The same, once the items `rest` of `items` are still to be compiled. */
  ghost predicate PartCompiled(was: seq<bv8>, now: seq<bv8>, base: nat, b: Bounds, items: seq<Item>, rest: seq<Item>) {
    && |now| == |was|
    && forall n: nat :: n < 8 * |now| ==>
         (BitTest(now, n) || ListDenotes(rest, b, n - 8 * base + b.low)
          <==> BitTest(was, n) || ListDenotes(items, b, n - 8 * base + b.low))
  }

  lemma PendingStep(was: seq<bv8>, mid: seq<bv8>, now: seq<bv8>, base: nat, b: Bounds, items: seq<Item>,
                    rest: seq<Item>)
    requires rest != [] && PartCompiled(was, mid, base, b, items, rest) && ItemCompiled(mid, now, base, b, rest[0])
    ensures PartCompiled(was, now, base, b, items, rest[1..])
    ensures |rest| == 1 ==> ListCompiled(was, now, base, b, items)
  {}

  /** From `q` on, `items` of the list `all` at `p` are still to be read; what becomes of them, and where
      that leaves the reader, is what becomes of the whole list. */
  ghost predicate Leads(s: string, p: nat, q: nat, all: seq<Item>, items: seq<Item>, end: nat, b: Bounds,
                        readable: bool) {
    && p <= |s| && |all| > 0 && |items| > 0 && Remain(s, q, items, end) && ListStop(s, q, b) == ListStop(s, p, b)
    && ListVerdict(all, b, readable) == ListVerdict(items, b, readable)
  }

  lemma LeadsOn(s: string, p: nat, q: nat, all: seq<Item>, items: seq<Item>, end: nat, b: Bounds, readable: bool,
                stop: nat)
    requires Leads(s, p, q, all, items, end, b, readable) && stop == ItemAt(s, q).1
    requires LookAt(s, stop) == Ch(',') && ItemVerdict(items[0], b) == Good
    ensures |items| > 1 && Leads(s, p, stop + 1, all, items[1..], end, b, readable)
  {
    RemainStep(s, q, items, end);
  }

  lemma LeadsNoFurther(s: string, p: nat, q: nat, all: seq<Item>, items: seq<Item>, end: nat, b: Bounds,
                       readable: bool, stop: nat)
    requires Leads(s, p, q, all, items, end, b, readable) && stop == ItemAt(s, q).1 && items[0] == ItemAt(s, q).0
    requires LookAt(s, stop) != Ch(',') || ItemVerdict(items[0], b) != Good
    ensures ListStop(s, p, b) == ItemStop(s, q, b)
    ensures if LookAt(s, stop) == Ch(',') then ListVerdict(all, b, readable) == ItemVerdict(items[0], b)
            else end == stop && |items| == 1
                 && ListVerdict(all, b, readable) == if readable then ItemVerdict(items[0], b) else Bad
  {
    RemainStep(s, q, items, end);
  }

  lemma LeadsStarts(s: string, p: nat, all: seq<Item>, end: nat, b: Bounds, readable: bool)
    requires p <= |s| && all == ListAt(s, p).0 && end == ListAt(s, p).1
    ensures Leads(s, p, p, all, all, end, b, readable)
  {}

  /** What the whole list, read from `p`, comes to. */
  ghost predicate ListDone(s: string, p: nat, pos: nat, next: Look, hang: bool, was: seq<bv8>, now: seq<bv8>,
                           base: nat, b: Bounds)
    requires p <= |s|
  {
    var (items, end) := ListAt(s, p);
    var verdict := ListVerdict(items, b, Narrow(LookAt(s, end)).Ch?);
    && (hang <==> verdict == Hang)
    && (next.Ch? <==> verdict == Good)
    && (next.Ch? ==> next == LookAt(s, end) && pos == After(s, end) && ListCompiled(was, now, base, b, items))
    && pos == ListStop(s, p, b)
  }

  /** The items of `items` before `rest` are compiled, and nothing else has changed. */
  ghost predicate Compiling(was: seq<bv8>, now: seq<bv8>, base: nat, b: Bounds, items: seq<Item>, rest: seq<Item>) {
    PartCompiled(was, now, base, b, items, rest) && KeptOutside(was, now, base, b)
  }

  /** An item that a comma follows. */
  lemma RangeGoesOn(s: string, p: nat, q: nat, all: seq<Item>, items: seq<Item>, end: nat, readable: bool, pos: nat,
                    next: Look, hang: bool, was: seq<bv8>, mid: seq<bv8>, now: seq<bv8>, base: nat, b: Bounds)
    requires Leads(s, p, q, all, items, end, b, readable) && Compiling(was, mid, base, b, all, items)
    requires RangeDone(s, q, pos, next, hang, mid, now, base, b) && KeptOutside(mid, now, base, b)
    requires !hang && next == Ch(',')
    ensures q < pos <= |s| && |items| > 1 && Leads(s, p, pos, all, items[1..], end, b, readable)
    ensures Compiling(was, now, base, b, all, items[1..])
  {
    RemainStep(s, q, items, end);
    KeptTrans(was, mid, now, base, b);
    PendingStep(was, mid, now, base, b, all, items);
    LeadsOn(s, p, q, all, items, end, b, readable, ItemAt(s, q).1);
  }

  /** The last item, or one that fails. */
  lemma RangeIsLast(s: string, p: nat, q: nat, all: seq<Item>, items: seq<Item>, end: nat, readable: bool, pos: nat,
                    next: Look, hang: bool, was: seq<bv8>, mid: seq<bv8>, now: seq<bv8>, base: nat, b: Bounds)
    requires p <= |s| && all == ListAt(s, p).0 && end == ListAt(s, p).1 && readable == Narrow(LookAt(s, end)).Ch?
    requires Leads(s, p, q, all, items, end, b, readable) && Compiling(was, mid, base, b, all, items)
    requires RangeDone(s, q, pos, next, hang, mid, now, base, b) && KeptOutside(mid, now, base, b)
    requires hang || next != Ch(',')
    ensures ListDone(s, p, pos, next, hang, was, now, base, b) && KeptOutside(was, now, base, b)
  {
    RemainStep(s, q, items, end);
    KeptTrans(was, mid, now, base, b);
    LeadsNoFurther(s, p, q, all, items, end, b, readable, ItemAt(s, q).1);
    if next.Ch? {
      PendingStep(was, mid, now, base, b, all, items);
    }
  }

  /** One round of the loop of `get_list`; `more` if a comma follows, and then the reader is past it. */
  method NextRange(f: CrontabFile, a: array<bv8>, base: nat, b: Bounds, ch: Look, ghost p: nat, ghost q: nat,
                   ghost all: seq<Item>, ghost items: seq<Item>, ghost end: nat, ghost readable: bool,
                     ghost was: seq<bv8>)
    returns (next: Look, hang: bool, more: bool, ghost q': nat)
    requires f.Valid() && p <= |f.text| && all == ListAt(f.text, p).0 && end == ListAt(f.text, p).1
    requires readable == Narrow(LookAt(f.text, end)).Ch? && Leads(f.text, p, q, all, items, end, b, readable)
    requires ch == LookAt(f.text, q) && f.pos == After(f.text, q)
    requires b.low <= b.high && base + (b.high - b.low) / 8 < a.Length
    requires Compiling(was, a[..], base, b, all, items)
    modifies f, a
    ensures f.Valid() && f.pos >= old(f.pos)
    ensures more ==> q < q' && |items| > 1 && Leads(f.text, p, q', all, items[1..], end, b, readable)
    ensures more ==> Compiling(was, a[..], base, b, all, items[1..])
    ensures more ==> q' <= |f.text| && next == LookAt(f.text, q') && f.pos == After(f.text, q')
    ensures !more ==> ListDone(f.text, p, f.pos, next, hang, was, a[..], base, b) && KeptOutside(was, a[..], base, b)
  {
    ghost var mid := a[..];
    next, hang := GetRange(f, a, base, b, ch, q);
    more, q' := !hang && next == Ch(','), f.pos;
    if more {
      RangeGoesOn(f.text, p, q, all, items, end, readable, f.pos, next, hang, was, mid, a[..], base, b);
      next := f.GetChar();
    } else {
      RangeIsLast(f.text, p, q, all, items, end, readable, f.pos, next, hang, was, mid, a[..], base, b);
    }
  }

  /** The loop of `get_list`: item after item, as long as a comma follows. */
  method GetRanges(f: CrontabFile, a: array<bv8>, base: nat, b: Bounds, ch: Look, ghost p: nat)
    returns (next: Look, hang: bool)
    requires f.Valid() && p <= |f.text|
    requires ch == LookAt(f.text, p) && f.pos == After(f.text, p)
    requires b.low <= b.high && base + (b.high - b.low) / 8 < a.Length
    modifies f, a
    ensures f.Valid() && f.pos >= old(f.pos)
    ensures ListDone(f.text, p, f.pos, next, hang, old(a[..]), a[..], base, b)
    ensures KeptOutside(old(a[..]), a[..], base, b)
  {
    ghost var text := f.text;
    ghost var all, end := ListAt(text, p).0, ListAt(text, p).1;
    ghost var readable := Narrow(LookAt(text, end)).Ch?;
    next, hang := ch, false;
    ghost var q, items := p, all;
    ghost var was := a[..];
    LeadsStarts(text, p, all, end, b, readable);
    while true
      invariant f.Valid() && f.pos >= old(f.pos)
      invariant p <= q <= |text| && Leads(text, p, q, all, items, end, b, readable)
      invariant next == LookAt(text, q) && f.pos == After(text, q) && Compiling(was, a[..], base, b, all, items)
      decreases |text| - q
    {
      var more;
      next, hang, more, q := NextRange(f, a, base, b, next, p, q, all, items, end, readable, was);
      if !more {
        return;
      }
      items := items[1..];
    }
  }

  /** Two records agree on all bits but those that compiling the field at `base` may change. */
  ghost predicate SameOutside(was: seq<bv8>, now: seq<bv8>, base: nat, b: Bounds) {
    && |now| == |was|
    && forall n: nat :: n < 8 * |now| && !Cleared(n, base, b) ==> (BitTest(now, n) <==> BitTest(was, n))
  }

  /** The bit string at `base` holds exactly the elements that `items` denotes. */
  ghost predicate FieldSet(bytes: seq<bv8>, base: nat, b: Bounds, items: seq<Item>) {
    && b.low <= b.high && base + (b.high - b.low) / 8 < |bytes|
    && forall v: nat :: b.low <= v <= b.high ==>
         (BitTest(bytes, 8 * base + v - b.low) <==> ListDenotes(items, b, v))
  }

  /** Compiling a field leaves every field alone that ends before it begins, and every field that
      begins after the one bit too many that it clears. */
  lemma FieldKept(was: seq<bv8>, now: seq<bv8>, base: nat, b: Bounds, items: seq<Item>, base': nat, b': Bounds)
    requires FieldSet(was, base, b, items) && SameOutside(was, now, base', b')
    requires 8 * base + b.high - b.low < 8 * base' || 8 * base' + b'.high - b'.low + 1 < 8 * base
    ensures FieldSet(now, base, b, items)
  {}

  method GetList(f: CrontabFile, a: array<bv8>, base: nat, b: Bounds, ch: Look, ghost p: nat)
    returns (next: Look, hang: bool)
    requires f.Valid() && p <= |f.text|
    requires ch == LookAt(f.text, p) && f.pos == After(f.text, p)
    requires b.low <= b.high && base + (b.high - b.low + 1) / 8 < a.Length
    modifies f, a
    ensures f.Valid() && f.pos >= old(f.pos)
    ensures var (items, end) := ListAt(f.text, p);
            var verdict := ListVerdict(items, b, Narrow(LookAt(f.text, end)).Ch?);
            && (hang <==> verdict == Hang)
            && (next.Ch? <==> verdict == Good && Narrow(LookAt(f.text, NextField(f.text, p))).Ch?)
            && (next.Ch? ==>
                next == LookAt(f.text, NextField(f.text, p)) && f.pos == After(f.text, NextField(f.text, p)))
            && (next.Ch? ==> FieldSet(a[..], base, b, items))
    ensures f.pos == FieldStop(f.text, p, b)
    ensures !BitTest(a[..], ExtraBit(base, b))
    ensures SameOutside(old(a[..]), a[..], base, b)
  {
    BitNclear(a, base, 0, b.high - b.low + 1);
    assert !Own(ExtraBit(base, b), base, b);
    next, hang := GetRanges(f, a, base, b, ch, p);
    if next.Ch? {
      ghost var end := ListAt(f.text, p).1;
      next := f.SkipRun(Nonblanks, next, end);
      next := f.SkipRun(Blanks, next, RunEnd(f.text, end, Nonblanks));
    }
    next := Narrow(next);
  }
}
