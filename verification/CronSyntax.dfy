/** The grammar of one time field (crontab.5 and the comments of entry.c):
    list = item {"," item};  item = "*" [step] | number | number "-" number [step];
    step = "/" number;  number = a possibly empty run of letters and digits.
    Reading and printing are inverse to each other, so a field's text and its syntax tree
    determine one another. */
module CronSyntax {
  import opened CronText

  datatype Step = NoStep | Step(size: string)

  datatype Item =
    | Star(step: Step)
    | Single(number: string)
    | Range(first: string, last: string, step: Step)

  // ---------------------------------------------------------------- reading

  function NumberAt(s: string, p: nat): string
    requires p <= |s|
  {
    s[p..RunEnd(s, p, Alnums)]
  }

  function StepAt(s: string, p: nat): (r: (Step, nat))
    requires p <= |s|
    ensures p <= r.1 <= |s|
  {
    if p < |s| && s[p] == '/' then (Step(NumberAt(s, p + 1)), RunEnd(s, p + 1, Alnums)) else (NoStep, p)
  }

  function ItemAt(s: string, p: nat): (r: (Item, nat))
    requires p <= |s|
    ensures p <= r.1 <= |s|
  {
    if p < |s| && s[p] == '*' then
      var (step, end) := StepAt(s, p + 1);
      (Star(step), end)
    else
      var q := RunEnd(s, p, Alnums);
      if q < |s| && s[q] == '-' then
        var r := RunEnd(s, q + 1, Alnums);
        var (step, end) := StepAt(s, r);
        (Range(s[p..q], s[q + 1..r], step), end)
      else
        (Single(s[p..q]), q)
  }

  function ListAt(s: string, p: nat): (r: (seq<Item>, nat))
    requires p <= |s|
    ensures p <= r.1 <= |s|
    ensures |r.0| > 0
    decreases |s| - p
  {
    var (item, end) := ItemAt(s, p);
    if end < |s| && s[end] == ',' then
      var (items, last) := ListAt(s, end + 1);
      ([item] + items, last)
    else
      ([item], end)
  }

  // ---------------------------------------------------------------- spelling

  predicate IsNumber(t: string) {
    forall i :: 0 <= i < |t| ==> IsAlnum(t[i])
  }

  /** The characters from `p` to `end` spell the run `t` of letters and digits. */
  predicate SpellsNumber(s: string, p: nat, t: string, end: nat) {
    p <= end <= |s| && s[p..end] == t && IsNumber(t)
  }

  predicate SpellsStep(s: string, p: nat, step: Step, end: nat) {
    match step
    case NoStep => p == end <= |s|
    case Step(size) => p < |s| && s[p] == '/' && SpellsNumber(s, p + 1, size, end)
  }

  predicate SpellsItem(s: string, p: nat, item: Item, end: nat) {
    match item
    case Star(step) => p < |s| && s[p] == '*' && SpellsStep(s, p + 1, step, end)
    case Single(number) => SpellsNumber(s, p, number, end)
    case Range(first, last, step) =>
      var q := p + |first|;
      var r := q + 1 + |last|;
      && SpellsNumber(s, p, first, q) && q < |s| && s[q] == '-'
      && SpellsNumber(s, q + 1, last, r) && SpellsStep(s, r, step, end)
  }

  function StepLength(step: Step): nat {
    match step
    case NoStep => 0
    case Step(size) => 1 + |size|
  }

  function ItemLength(item: Item): nat {
    match item
    case Star(step) => 1 + StepLength(step)
    case Single(number) => |number|
    case Range(first, last, step) => |first| + 1 + |last| + StepLength(step)
  }

  predicate SpellsList(s: string, p: nat, items: seq<Item>, end: nat)
    decreases |items|
  {
    if |items| == 0 then false
    else if |items| == 1 then SpellsItem(s, p, items[0], end)
    else
      var comma := p + ItemLength(items[0]);
      && SpellsItem(s, p, items[0], comma) && comma < |s| && s[comma] == ','
      && SpellsList(s, comma + 1, items[1..], end)
  }

  function Last(items: seq<Item>): Item
    requires |items| > 0
  {
    items[|items| - 1]
  }

  /** Whether a character right after an item would be read as part of it. */
  predicate Extends(item: Item, c: char) {
    match item
    case Star(step) => if step.NoStep? then c == '/' else IsAlnum(c)
    case Single(number) => IsAlnum(c) || c == '-' || (number == "" && c == '*')
    case Range(_, _, step) => IsAlnum(c) || (step.NoStep? && c == '/')
  }

  /** The character at `end`, if there is one, does not extend the item. */
  predicate Ends(s: string, end: nat, item: Item) {
    end < |s| ==> !Extends(item, s[end])
  }

  /** Nor does it make a list longer that ends with the item. */
  predicate EndsList(s: string, end: nat, item: Item) {
    Ends(s, end, item) && (end < |s| ==> s[end] != ',')
  }

  // ---------------------------------------------------------------- what is read is spelled

  lemma NumberIsSpelled(s: string, p: nat)
    requires p <= |s|
    ensures SpellsNumber(s, p, NumberAt(s, p), RunEnd(s, p, Alnums))
    ensures var end := RunEnd(s, p, Alnums); end < |s| ==> !IsAlnum(s[end])
  {
    RunEndStops(s, p, Alnums);
  }

  lemma StepIsSpelled(s: string, p: nat)
    requires p <= |s|
    ensures SpellsStep(s, p, StepAt(s, p).0, StepAt(s, p).1)
    ensures var (step, end) := StepAt(s, p);
            end < |s| ==> if step.NoStep? then s[end] != '/' else !IsAlnum(s[end])
  {
    if p < |s| && s[p] == '/' {
      NumberIsSpelled(s, p + 1);
    }
  }

  lemma ItemIsSpelled(s: string, p: nat)
    requires p <= |s|
    ensures SpellsItem(s, p, ItemAt(s, p).0, ItemAt(s, p).1)
    ensures Ends(s, ItemAt(s, p).1, ItemAt(s, p).0)
  {
    if p < |s| && s[p] == '*' {
      StepIsSpelled(s, p + 1);
    } else {
      var q := RunEnd(s, p, Alnums);
      NumberIsSpelled(s, p);
      if q < |s| && s[q] == '-' {
        RangeIsSpelled(s, p, q, RunEnd(s, q + 1, Alnums));
      }
    }
  }

  lemma RangeIsSpelled(s: string, p: nat, q: nat, r: nat)
    requires p <= q < |s| && q == RunEnd(s, p, Alnums) && s[p] != '*' && s[q] == '-' && r == RunEnd(s, q + 1, Alnums)
    ensures ItemAt(s, p).0.Range?
    ensures SpellsItem(s, p, ItemAt(s, p).0, ItemAt(s, p).1)
    ensures Ends(s, ItemAt(s, p).1, ItemAt(s, p).0)
  {
    var first, last, step := s[p..q], s[q + 1..r], StepAt(s, r).0;
    NumberIsSpelled(s, p);
    NumberIsSpelled(s, q + 1);
    StepIsSpelled(s, r);
    RangeUnfolds(s, p, q, r);
    assert q == p + |first| && r == q + 1 + |last|;
    assert SpellsItem(s, p, Range(first, last, step), StepAt(s, r).1);
  }

  lemma RangeUnfolds(s: string, p: nat, q: nat, r: nat)
    requires p <= q < |s| && q == RunEnd(s, p, Alnums) && s[p] != '*' && s[q] == '-' && r == RunEnd(s, q + 1, Alnums)
    ensures ItemAt(s, p).0 == Range(s[p..q], s[q + 1..r], StepAt(s, r).0)
    ensures ItemAt(s, p).1 == StepAt(s, r).1
  {}

  lemma SpelledItemLength(s: string, p: nat, item: Item, end: nat)
    requires SpellsItem(s, p, item, end)
    ensures end == p + ItemLength(item) <= |s|
  {}

  /** A list is its first item, followed by the list after the comma if there is one. */
  lemma ListUnfolds(s: string, p: nat)
    requires p <= |s|
    ensures var stop := ItemAt(s, p).1;
            if LookAt(s, stop) == Ch(',')
            then ListAt(s, p).0 == [ItemAt(s, p).0] + ListAt(s, stop + 1).0 && ListAt(s, p).1 == ListAt(s, stop + 1).1
            else ListAt(s, p).0 == [ItemAt(s, p).0] && ListAt(s, p).1 == stop
  {}

  lemma SpelledJoin(s: string, p: nat, item: Item, comma: nat, rest: seq<Item>, end: nat, items: seq<Item>)
    requires items == [item] + rest && SpellsItem(s, p, item, comma) && comma < |s| && s[comma] == ','
    requires |rest| > 0 && SpellsList(s, comma + 1, rest, end)
    ensures SpellsList(s, p, items, end) && Last(items) == Last(rest)
  {
    SpelledItemLength(s, p, item, comma);
    assert items[1..] == rest;
  }

  lemma SpelledOne(s: string, p: nat, item: Item, stop: nat, items: seq<Item>)
    requires items == [item] && p <= |s| && SpellsItem(s, p, item, stop) && stop <= |s| && Ends(s, stop, item)
    requires LookAt(s, stop) != Ch(',')
    ensures SpellsList(s, p, items, stop) && EndsList(s, stop, Last(items))
  {}

  lemma ListGoesOn(s: string, p: nat, items: seq<Item>, item: Item, stop: nat, rest: seq<Item>, end: nat)
    requires p <= |s| && item == ItemAt(s, p).0 && stop == ItemAt(s, p).1 && LookAt(s, stop) == Ch(',')
    requires rest == ListAt(s, stop + 1).0 && end == ListAt(s, stop + 1).1 && items == [item] + rest
    ensures items == ListAt(s, p).0 && end == ListAt(s, p).1
  {
    ListUnfolds(s, p);
  }

  lemma {:induction false} ReadIsSpelled(s: string, p: nat) returns (items: seq<Item>, end: nat)
    requires p <= |s|
    ensures items == ListAt(s, p).0 && end == ListAt(s, p).1
    ensures SpellsList(s, p, items, end) && |items| > 0 && EndsList(s, end, Last(items))
    decreases |s| - p
  {
    ItemIsSpelled(s, p);
    var item, stop := ItemAt(s, p).0, ItemAt(s, p).1;
    if LookAt(s, stop) == Ch(',') {
      var rest;
      rest, end := ReadIsSpelled(s, stop + 1);
      items := [item] + rest;
      ListGoesOn(s, p, items, item, stop, rest, end);
      SpelledJoin(s, p, item, stop, rest, end, items);
    } else {
      items, end := [item], stop;
      ListUnfolds(s, p);
      SpelledOne(s, p, item, stop, items);
    }
  }

  /** The text that was read spells the list that was read, which could not be read any further. */
  lemma ListIsSpelled(s: string, p: nat)
    requires p <= |s|
    ensures SpellsList(s, p, ListAt(s, p).0, ListAt(s, p).1)
    ensures EndsList(s, ListAt(s, p).1, Last(ListAt(s, p).0))
  {
    var items, end := ReadIsSpelled(s, p);
  }

  // ---------------------------------------------------------------- what is spelled is read

  lemma NumberReads(s: string, p: nat, t: string, end: nat)
    requires SpellsNumber(s, p, t, end) && (end < |s| ==> !IsAlnum(s[end]))
    ensures RunEnd(s, p, Alnums) == end && NumberAt(s, p) == t
  {
    forall i | p <= i < end ensures InRun(s[i], Alnums) { assert s[i] == t[i - p]; }
    RunEndUnique(s, p, Alnums, end);
  }

  lemma StepReads(s: string, p: nat, step: Step, end: nat)
    requires SpellsStep(s, p, step, end)
    requires end < |s| ==> if step.NoStep? then s[end] != '/' else !IsAlnum(s[end])
    ensures StepAt(s, p).0 == step && StepAt(s, p).1 == end
  {
    if step.Step? {
      NumberReads(s, p + 1, step.size, end);
    }
  }

  lemma ItemReads(s: string, p: nat, item: Item, end: nat)
    requires SpellsItem(s, p, item, end) && Ends(s, end, item)
    ensures ItemAt(s, p).0 == item && ItemAt(s, p).1 == end
  {
    match item
    case Star(step) => StepReads(s, p + 1, step, end);
    case Single(number) =>
      NumberReads(s, p, number, end);
      NumberStarts(s, p, number, end);
    case Range(first, last, step) => RangeReads(s, p, first, last, step, end);
  }

  /** A run of letters and digits does not begin with a star; an empty one is followed by none. */
  lemma NumberStarts(s: string, p: nat, t: string, end: nat)
    requires SpellsNumber(s, p, t, end) && (t == "" && end < |s| ==> s[end] != '*')
    ensures p < |s| ==> s[p] != '*'
  {
    if t != "" {
      assert s[p] == t[0];
    }
  }

  lemma RangeReads(s: string, p: nat, first: string, last: string, step: Step, end: nat)
    requires SpellsItem(s, p, Range(first, last, step), end) && Ends(s, end, Range(first, last, step))
    ensures ItemAt(s, p).0 == Range(first, last, step) && ItemAt(s, p).1 == end
  {
    var q := p + |first|;
    var r := q + 1 + |last|;
    NumberReads(s, p, first, q);
    NumberStarts(s, p, first, q);
    NumberReads(s, q + 1, last, r);
    StepReads(s, r, step, end);
    RangeUnfolds(s, p, q, r);
  }

  lemma SpelledSplit(s: string, p: nat, items: seq<Item>, rest: seq<Item>, end: nat)
    requires |items| > 1 && SpellsList(s, p, items, end) && rest == items[1..]
    ensures var comma := p + ItemLength(items[0]);
            SpellsItem(s, p, items[0], comma) && comma < |s| && s[comma] == ',' && SpellsList(s, comma + 1, rest, end)
    ensures Last(items) == Last(rest)
  {}

  /** The spelling of a list determines the list: whatever follows it, if that does not make it
      longer, reading gives the list back. */
  lemma {:induction false} ListReads(s: string, p: nat, items: seq<Item>, end: nat)
    requires SpellsList(s, p, items, end) && EndsList(s, end, Last(items))
    ensures ListAt(s, p).0 == items && ListAt(s, p).1 == end
    decreases |items|
  {
    if |items| == 1 {
      OneItemReads(s, p, items, end);
    } else {
      var comma, rest := p + ItemLength(items[0]), items[1..];
      SpelledSplit(s, p, items, rest, end);
      ListReads(s, comma + 1, rest, end);
      CommaReads(s, p, items, rest, comma, end);
    }
  }

  lemma OneItemReads(s: string, p: nat, items: seq<Item>, end: nat)
    requires |items| == 1 && SpellsItem(s, p, items[0], end) && EndsList(s, end, items[0])
    ensures ListAt(s, p).0 == items && ListAt(s, p).1 == end
  {
    ItemReads(s, p, items[0], end);
    ListUnfolds(s, p);
    assert items == [items[0]];
  }

  lemma CommaReads(s: string, p: nat, items: seq<Item>, rest: seq<Item>, comma: nat, end: nat)
    requires |items| > 1 && SpellsItem(s, p, items[0], comma) && comma < |s| && s[comma] == ',' && rest == items[1..]
    requires ListAt(s, comma + 1).0 == rest && ListAt(s, comma + 1).1 == end
    ensures ListAt(s, p).0 == items && ListAt(s, p).1 == end
  {
    ItemReads(s, p, items[0], comma);
    assert items == [items[0]] + rest;
    ListGoesOn(s, p, items, items[0], comma, rest, end);
  }

  // ---------------------------------------------------------------- spelling inside a larger text

  /** `w` stands in `s` at `p`. */
  ghost predicate Within(w: string, s: string, p: nat) {
    p + |w| <= |s| && forall i :: 0 <= i < |w| ==> s[p + i] == w[i]
  }

  lemma NumberWithin(w: string, s: string, p: nat, i: nat, t: string, j: nat, from: nat, to: nat)
    requires Within(w, s, p) && SpellsNumber(w, i, t, j) && from == p + i && to == p + j
    ensures SpellsNumber(s, from, t, to)
  {
    assert s[from..to] == w[i..j];
  }

  lemma StepWithin(w: string, s: string, p: nat, i: nat, step: Step, j: nat, from: nat, to: nat)
    requires Within(w, s, p) && SpellsStep(w, i, step, j) && from == p + i && to == p + j
    ensures SpellsStep(s, from, step, to)
  {
    if step.Step? {
      assert s[p + i] == w[i];
      NumberWithin(w, s, p, i + 1, step.size, j, from + 1, to);
    }
  }

  lemma ItemWithin(w: string, s: string, p: nat, i: nat, item: Item, j: nat, from: nat, to: nat)
    requires Within(w, s, p) && SpellsItem(w, i, item, j) && from == p + i && to == p + j
    ensures SpellsItem(s, from, item, to)
  {
    match item
    case Star(step) =>
      assert s[p + i] == w[i];
      StepWithin(w, s, p, i + 1, step, j, from + 1, to);
    case Single(number) =>
      NumberWithin(w, s, p, i, number, j, from, to);
    case Range(first, last, step) =>
      var q, q' := i + |first|, from + |first|;
      assert s[p + q] == w[q];
      NumberWithin(w, s, p, i, first, q, from, q');
      NumberWithin(w, s, p, q + 1, last, q + 1 + |last|, q' + 1, q' + 1 + |last|);
      StepWithin(w, s, p, q + 1 + |last|, step, j, q' + 1 + |last|, to);
  }

  lemma SpelledWhole(s: string, p: nat, items: seq<Item>, comma: nat, rest: seq<Item>, end: nat)
    requires |items| > 1 && rest == items[1..] && comma == p + ItemLength(items[0])
    requires SpellsItem(s, p, items[0], comma) && comma < |s| && s[comma] == ',' && SpellsList(s, comma + 1, rest, end)
    ensures SpellsList(s, p, items, end)
  {}

  lemma SpelledAlone(s: string, p: nat, items: seq<Item>, end: nat)
    requires |items| == 1 && SpellsItem(s, p, items[0], end)
    ensures SpellsList(s, p, items, end)
  {}

  lemma CharWithin(w: string, s: string, p: nat, i: nat)
    requires Within(w, s, p) && i < |w|
    ensures p + i < |s| && s[p + i] == w[i]
  {}

  /** So is an item with the comma after it. */
  lemma HeadWithin(w: string, s: string, p: nat, i: nat, item: Item, comma: nat, from: nat, comma': nat)
    requires Within(w, s, p) && SpellsItem(w, i, item, comma) && comma < |w| && w[comma] == ','
    requires from == p + i && comma' == p + comma
    ensures SpellsItem(s, from, item, comma') && comma' < |s| && s[comma'] == ','
  {
    ItemWithin(w, s, p, i, item, comma, from, comma');
    CharWithin(w, s, p, comma);
  }

  lemma FirstWithin(w: string, s: string, p: nat, i: nat, items: seq<Item>, rest: seq<Item>, j: nat, comma: nat,
                    from: nat, comma': nat)
    requires Within(w, s, p) && |items| > 1 && rest == items[1..] && SpellsList(w, i, items, j)
    requires from == p + i && comma == i + ItemLength(items[0]) && comma' == p + comma
    ensures SpellsList(w, comma + 1, rest, j)
    ensures SpellsItem(s, from, items[0], comma') && comma' < |s| && s[comma'] == ','
  {
    SpelledSplit(w, i, items, rest, j);
    HeadWithin(w, s, p, i, items[0], comma, from, comma');
  }

  /** A list is spelled the same wherever its text stands. */
  lemma {:induction false} ListWithin(w: string, s: string, p: nat, i: nat, items: seq<Item>, j: nat, from: nat,
                                      to: nat)
    requires Within(w, s, p) && SpellsList(w, i, items, j) && from == p + i && to == p + j
    ensures SpellsList(s, from, items, to)
    decreases |items|
  {
    if |items| == 1 {
      ItemWithin(w, s, p, i, items[0], j, from, to);
      SpelledAlone(s, from, items, to);
    } else {
      var rest := items[1..];
      var comma, comma' := i + ItemLength(items[0]), from + ItemLength(items[0]);
      FirstWithin(w, s, p, i, items, rest, j, comma, from, comma');
      ListWithin(w, s, p, comma + 1, rest, j, comma' + 1, to);
      SpelledWhole(s, from, items, comma', rest, to);
    }
  }

  // ---------------------------------------------------------------- printing

  function PrintStep(step: Step): string {
    match step
    case NoStep => ""
    case Step(size) => "/" + size
  }

  function Print(item: Item): string {
    match item
    case Star(step) => "*" + PrintStep(step)
    case Single(number) => number
    case Range(first, last, step) => first + ("-" + (last + PrintStep(step)))
  }

  function PrintList(items: seq<Item>): string
    requires |items| > 0
  {
    if |items| == 1 then Print(items[0]) else Print(items[0]) + ("," + PrintList(items[1..]))
  }

  predicate PlainStep(step: Step) { step.Step? ==> IsNumber(step.size) }

  predicate ItemOk(item: Item) {
    match item
    case Star(step) => PlainStep(step)
    case Single(number) => IsNumber(number)
    case Range(first, last, step) => IsNumber(first) && IsNumber(last) && PlainStep(step)
  }

  predicate ItemsOk(items: seq<Item>) {
    items == [] || (ItemOk(items[0]) && ItemsOk(items[1..]))
  }

  lemma NumberPrints(t: string)
    requires IsNumber(t)
    ensures SpellsNumber(t, 0, t, |t|)
  {
    assert t[0..|t|] == t;
  }

  lemma WithinParts(t: string, u: string)
    ensures Within(t, t + u, 0) && Within(u, t + u, |t|)
  {}

  /** The parts of `t`, a mark, `u`. */
  lemma WithinMarked(t: string, c: char, u: string)
    ensures var all := t + ([c] + u);
            |all| == |t| + 1 + |u| && all[|t|] == c && Within(t, all, 0) && Within(u, all, |t| + 1)
  {}

  lemma WithinTrans(u: string, t: string, s: string, i: nat, p: nat)
    requires Within(u, t, i) && Within(t, s, p)
    ensures Within(u, s, p + i)
  {
    forall k | 0 <= k < |u| ensures s[p + i + k] == u[k] {
      assert s[p + (i + k)] == t[i + k];
    }
  }

  lemma StepPrints(step: Step)
    requires PlainStep(step)
    ensures SpellsStep(PrintStep(step), 0, step, |PrintStep(step)|)
  {
    if step.Step? {
      NumberPrints(step.size);
      WithinParts("/", step.size);
      NumberWithin(step.size, PrintStep(step), 1, 0, step.size, |step.size|, 1, |PrintStep(step)|);
    }
  }

  lemma RangePrints(first: string, last: string, step: Step)
    requires ItemOk(Range(first, last, step))
    ensures SpellsItem(Print(Range(first, last, step)), 0, Range(first, last, step), |Print(Range(first, last, step))|)
  {
    var q := |first| + 1;
    var tail := last + PrintStep(step);
    var t := first + (['-'] + tail);
    WithinMarked(first, '-', tail);
    WithinParts(last, PrintStep(step));
    WithinTrans(last, tail, t, 0, q);
    WithinTrans(PrintStep(step), tail, t, |last|, q);
    RangeJoins(first, last, step, t, 0, q);
    assert t == Print(Range(first, last, step));
  }

  lemma RangeJoins(first: string, last: string, step: Step, t: string, start: nat, q: nat)
    requires ItemOk(Range(first, last, step)) && start == 0 && q == |first| + 1 && |t| == q + |last| + |PrintStep(step)|
    requires Within(first, t, start) && t[|first|] == '-' && Within(last, t, q)
    requires Within(PrintStep(step), t, q + |last|)
    ensures SpellsItem(t, start, Range(first, last, step), |t|)
  {
    NumberPrints(first);
    NumberPrints(last);
    StepPrints(step);
    NumberWithin(first, t, start, start, first, |first|, start, |first|);
    NumberWithin(last, t, q, start, last, |last|, q, q + |last|);
    StepWithin(PrintStep(step), t, q + |last|, start, step, |PrintStep(step)|, q + |last|, |t|);
  }

  lemma ItemPrints(item: Item, start: nat)
    requires ItemOk(item) && start == 0
    ensures SpellsItem(Print(item), start, item, |Print(item)|)
  {
    match item
    case Star(step) =>
      StepPrints(step);
      WithinParts("*", PrintStep(step));
      StepWithin(PrintStep(step), Print(item), 1, 0, step, |PrintStep(step)|, 1, |Print(item)|);
    case Single(number) => NumberPrints(number);
    case Range(first, last, step) => RangePrints(first, last, step);
  }

  lemma {:induction false} ListPrints(items: seq<Item>, t: string, start: nat, end: nat)
    requires |items| > 0 && ItemsOk(items) && t == PrintList(items) && start == 0 && end == |t|
    ensures SpellsList(t, start, items, end)
    decreases |items|
  {
    var item, rest := items[0], items[1..];
    ItemPrints(item, start);
    if |items| > 1 {
      var head, tail := Print(item), PrintList(rest);
      ListPrints(rest, tail, start, |tail|);
      WithinMarked(head, ',', tail);
      JoinWithin(items, rest, head, tail, t, start, |head|, end);
    }
  }

  lemma JoinWithin(items: seq<Item>, rest: seq<Item>, head: string, tail: string, t: string, start: nat, comma: nat,
                   end: nat)
    requires start == 0 && comma == |head| && end == |t| == comma + 1 + |tail|
    requires |items| > 1 && rest == items[1..]
    requires SpellsItem(head, start, items[0], comma) && SpellsList(tail, start, rest, |tail|)
    requires Within(head, t, start) && t[comma] == ',' && Within(tail, t, comma + 1)
    ensures SpellsList(t, start, items, end)
  {
    ItemWithin(head, t, start, start, items[0], comma, start, comma);
    ListWithin(tail, t, comma + 1, start, rest, |tail|, comma + 1, end);
    SpelledItemLength(t, start, items[0], comma);
    SpelledWhole(t, start, items, comma, rest, end);
  }

  lemma SpelledReads(items: seq<Item>, t: string, start: nat, s: string, p: nat, end: nat)
    requires |items| > 0 && start == 0 && SpellsList(t, start, items, |t|) && Within(t, s, p)
    requires end == p + |t| && EndsList(s, end, Last(items))
    ensures ListAt(s, p).0 == items && ListAt(s, p).1 == end
  {
    ListWithin(t, s, p, start, items, |t|, p, end);
    ListReads(s, p, items, end);
  }

  /** Round trip: the printed form `t` of any list reads back as that list, in any text that does
      not continue it. */
  lemma PrintedListReads(items: seq<Item>, t: string, s: string, p: nat)
    requires |items| > 0 && ItemsOk(items) && t == PrintList(items) && Within(t, s, p)
    requires EndsList(s, p + |t|, Last(items))
    ensures ListAt(s, p).0 == items && ListAt(s, p).1 == p + |t|
  {
    var start: nat := 0;
    ListPrints(items, t, start, |t|);
    SpelledReads(items, t, start, s, p, p + |t|);
  }
}
