/** What a rejected entry leaves unread (entry.c): when the rest of its line is skipped, and when it is
    read as another line. */
module CronRejection {
  import opened Common
  import opened CronText
  import opened CronSyntax
  import opened CronFields
  import opened CronWords
  import opened CronRecord
  import opened CronEntry

  function EndOfLine(s: string, p: nat): (end: nat)
    requires p <= |s|
    ensures p <= end <= |s|
  {
    RunEnd(s, p, Until("\n"))
  }

  /** `q` lies on the line of `p`, or at its end. */
  predicate OnLine(s: string, p: nat, q: nat)
    requires p <= |s|
  {
    p <= q <= EndOfLine(s, p)
  }

  lemma EndOfLineStops(s: string, p: nat)
    requires p <= |s|
    ensures forall i :: p <= i < EndOfLine(s, p) ==> s[i] != '\n'
    ensures EndOfLine(s, p) < |s| ==> s[EndOfLine(s, p)] == '\n'
  {
    RunEndStops(s, p, Until("\n"));
    forall i | p <= i < EndOfLine(s, p) ensures s[i] != '\n' {
      assert InRun(s[i], Until("\n"));
    }
  }

  /** Every kind of run that the field compiler reads ends where the line does. */
  lemma {:induction false} RunOnLine(s: string, p: nat, q: nat, run: CharClass)
    requires p <= |s| && OnLine(s, p, q) && !run.Until?
    ensures OnLine(s, p, RunEnd(s, q, run))
    decreases |s| - q
  {
    EndOfLineStops(s, p);
    if q < |s| && InRun(s[q], run) {
      RunOnLine(s, p, q + 1, run);
    }
  }

  lemma NextWordOnLine(s: string, p: nat, q: nat)
    requires p <= |s| && OnLine(s, p, q)
    ensures OnLine(s, p, NextWord(s, q))
  {
    RunOnLine(s, p, q, Nonblanks);
    RunOnLine(s, p, RunEnd(s, q, Nonblanks), Blanks);
  }

  lemma {:induction false} WordAtOnLine(s: string, p: nat, k: nat)
    requires p <= |s|
    ensures OnLine(s, p, WordAt(s, p, k))
  {
    if k > 0 {
      WordAtOnLine(s, p, k - 1);
      NextWordOnLine(s, p, WordAt(s, p, k - 1));
    }
  }

  // ---------------------------------------------------------------- in words of the line

  /** How many characters of a number are read before the last one that is looked at: all of it, unless it
      is too long. */
  function NumberRead(number: string): (n: nat)
    ensures n <= |number|
  {
    if |number| >= MAX_TEMPSTR then MAX_TEMPSTR - 1 else |number|
  }

  function StepRead(step: Step): nat {
    if step.Step? then 1 + NumberRead(step.size) else 0
  }

  /** The same of an item: it is read as far as its first number that is rejected. */
  function ItemRead(item: Item, b: Bounds): nat {
    match item
    case Star(step) => 1 + StepRead(step)
    case Single(number) => NumberRead(number)
    case Range(first, last, step) =>
      if NumberValue(first, b.low, b.names) == None then NumberRead(first)
      else if NumberValue(last, b.low, b.names) == None then |first| + 1 + NumberRead(last)
      else |first| + 1 + |last| + StepRead(step)
  }

  /** The same of a list: it is read up to and with its first item that is not good. */
  ghost function ListRead(items: seq<Item>, b: Bounds): nat {
    if items == [] then 0
    else if |items| > 1 && ItemVerdict(items[0], b) == Good
    then ItemLength(items[0]) + 1 + ListRead(items[1..], b)
    else ItemRead(items[0], b)
  }

  // In these, `x` is where the look-ahead stands in the end.

  lemma NumberStopRead(s: string, p: nat, x: nat)
    requires p <= |s| && x == p + NumberRead(NumberAt(s, p))
    ensures NumberStop(s, p) == After(s, x)
  {}

  lemma StepStopRead(s: string, p: nat, x: nat)
    requires p <= |s| && x == p + StepRead(StepAt(s, p).0)
    ensures StepStop(s, p) == After(s, x) && x <= StepAt(s, p).1
  {
    if p < |s| && s[p] == '/' {
      NumberStopRead(s, p + 1, x);
    }
  }

  lemma StarStopRead(s: string, p: nat, b: Bounds, x: nat)
    requires p < |s| && s[p] == '*' && x == p + ItemRead(ItemAt(s, p).0, b)
    ensures ItemStop(s, p, b) == After(s, x) && x <= ItemAt(s, p).1
  {
    StepStopRead(s, p + 1, x);
  }

  lemma SingleStopRead(s: string, p: nat, b: Bounds, x: nat)
    requires p <= |s| && LookAt(s, p) != Ch('*') && LookAt(s, RunEnd(s, p, Alnums)) != Ch('-')
    requires x == p + ItemRead(ItemAt(s, p).0, b)
    ensures ItemStop(s, p, b) == After(s, x) && x <= ItemAt(s, p).1
  {
    NumberStopRead(s, p, x);
  }

  /** Where a range stops, number by number. */
  lemma RangeStops(s: string, p: nat, q: nat, r: nat, b: Bounds)
    requires p <= |s| && LookAt(s, p) != Ch('*') && q == RunEnd(s, p, Alnums) && LookAt(s, q) == Ch('-')
    requires r == RunEnd(s, q + 1, Alnums)
    ensures ItemAt(s, p) == (Range(NumberAt(s, p), NumberAt(s, q + 1), StepAt(s, r).0), StepAt(s, r).1)
    ensures ItemStop(s, p, b) ==
            if NumberValue(NumberAt(s, p), b.low, b.names) == None then NumberStop(s, p)
            else if NumberValue(NumberAt(s, q + 1), b.low, b.names) == None || Narrow(LookAt(s, r)) == Eof
            then NumberStop(s, q + 1)
            else StepStop(s, r)
  {}

  lemma RangeRead(first: string, last: string, step: Step, b: Bounds)
    ensures ItemRead(Range(first, last, step), b) ==
            if NumberValue(first, b.low, b.names) == None then NumberRead(first)
            else if NumberValue(last, b.low, b.names) == None then |first| + 1 + NumberRead(last)
            else |first| + 1 + |last| + StepRead(step)
    ensures NumberValue(last, b.low, b.names) != None ==> NumberRead(last) == |last|
  {}

  lemma RangeStopRead(s: string, p: nat, q: nat, r: nat, b: Bounds, x: nat)
    requires p <= |s| && LookAt(s, p) != Ch('*') && q == RunEnd(s, p, Alnums) && LookAt(s, q) == Ch('-')
    requires r == RunEnd(s, q + 1, Alnums) && x == p + ItemRead(ItemAt(s, p).0, b)
    ensures ItemStop(s, p, b) == After(s, x) && x <= ItemAt(s, p).1
  {
    RangeStops(s, p, q, r, b);
    RangeRead(NumberAt(s, p), NumberAt(s, q + 1), StepAt(s, r).0, b);
    if NumberValue(NumberAt(s, p), b.low, b.names) == None {
      NumberStopRead(s, p, x);
    } else if NumberValue(NumberAt(s, q + 1), b.low, b.names) == None || Narrow(LookAt(s, r)) == Eof {
      NumberStopRead(s, q + 1, x);
    } else {
      StepStopRead(s, r, x);
    }
  }

  lemma ItemStopRead(s: string, p: nat, b: Bounds, x: nat)
    requires p <= |s| && x == p + ItemRead(ItemAt(s, p).0, b)
    ensures ItemStop(s, p, b) == After(s, x) && x <= ItemAt(s, p).1
  {
    var q := RunEnd(s, p, Alnums);
    if p < |s| && s[p] == '*' {
      StarStopRead(s, p, b, x);
    } else if q < |s| && s[q] == '-' {
      RangeStopRead(s, p, q, RunEnd(s, q + 1, Alnums), b, x);
    } else {
      SingleStopRead(s, p, b, x);
    }
  }

  lemma ItemEnds(s: string, p: nat)
    requires p <= |s|
    ensures ItemAt(s, p).1 == p + ItemLength(ItemAt(s, p).0)
  {
    ItemIsSpelled(s, p);
    SpelledItemLength(s, p, ItemAt(s, p).0, ItemAt(s, p).1);
  }

  lemma ListReadOn(items: seq<Item>, rest: seq<Item>, b: Bounds)
    requires |items| > 1 && rest == items[1..] && ItemVerdict(items[0], b) == Good
    ensures ListRead(items, b) == ItemLength(items[0]) + 1 + ListRead(rest, b)
  {}

  lemma ListStopOn(s: string, p: nat, b: Bounds, stop: nat)
    requires p <= |s| && stop == ItemAt(s, p).1 && LookAt(s, stop) == Ch(',') && ItemVerdict(ItemAt(s, p).0, b) == Good
    ensures ListStop(s, p, b) == ListStop(s, stop + 1, b)
  {}

  /** An item after which a list goes on. */
  lemma ListGoesOnRead(s: string, p: nat, b: Bounds, items: seq<Item>, rest: seq<Item>, stop: nat)
    requires p <= |s| && |items| > 1 && items[0] == ItemAt(s, p).0 && stop == ItemAt(s, p).1 && rest == items[1..]
    requires LookAt(s, stop) == Ch(',') && ItemVerdict(items[0], b) == Good
    ensures ListStop(s, p, b) == ListStop(s, stop + 1, b)
    ensures p + ListRead(items, b) == stop + 1 + ListRead(rest, b)
  {
    ListReadOn(items, rest, b);
    ListStopOn(s, p, b, stop);
    ItemEnds(s, p);
  }

  /** The item that decides. */
  lemma ListEndsRead(s: string, p: nat, b: Bounds, items: seq<Item>, stop: nat)
    requires p <= |s| && items != [] && items[0] == ItemAt(s, p).0 && stop == ItemAt(s, p).1
    requires |items| == 1 <==> LookAt(s, stop) != Ch(',')
    requires LookAt(s, stop) != Ch(',') || ItemVerdict(items[0], b) != Good
    ensures ListStop(s, p, b) == ItemStop(s, p, b) && ListRead(items, b) == ItemRead(items[0], b)
  {}

  /** `items`, from `p` up to `end`, are read as far as their own text says. */
  ghost predicate ReadAlone(s: string, p: nat, b: Bounds, items: seq<Item>, end: nat)
    requires p <= |s|
  {
    var x := p + ListRead(items, b);
    ListStop(s, p, b) == After(s, x) && x <= end
  }

  lemma ReadAloneOn(s: string, p: nat, b: Bounds, items: seq<Item>, rest: seq<Item>, stop: nat, end: nat)
    requires p <= |s| && |items| > 1 && items[0] == ItemAt(s, p).0 && stop == ItemAt(s, p).1 && rest == items[1..]
    requires LookAt(s, stop) == Ch(',') && ItemVerdict(items[0], b) == Good && ReadAlone(s, stop + 1, b, rest, end)
    ensures ReadAlone(s, p, b, items, end)
  {
    ListGoesOnRead(s, p, b, items, rest, stop);
  }

  lemma ReadAloneHere(s: string, p: nat, b: Bounds, items: seq<Item>, stop: nat, end: nat)
    requires p <= |s| && items != [] && items[0] == ItemAt(s, p).0 && stop == ItemAt(s, p).1 <= end
    requires |items| == 1 <==> LookAt(s, stop) != Ch(',')
    requires LookAt(s, stop) != Ch(',') || ItemVerdict(items[0], b) != Good
    ensures ReadAlone(s, p, b, items, end)
  {
    ListEndsRead(s, p, b, items, stop);
    ItemStopRead(s, p, b, p + ItemRead(items[0], b));
  }

  /** What is read of a list depends on the list alone. */
  lemma {:induction false} ListStopRead(s: string, p: nat, b: Bounds, items: seq<Item>, end: nat)
    requires Remain(s, p, items, end)
    ensures ReadAlone(s, p, b, items, end)
    decreases |s| - p
  {
    var stop := ItemAt(s, p).1;
    RemainsOn(s, p, items, stop, end);
    if LookAt(s, stop) == Ch(',') && ItemVerdict(items[0], b) == Good {
      var rest := items[1..];
      ListStopRead(s, stop + 1, b, rest, end);
      ReadAloneOn(s, p, b, items, rest, stop, end);
    } else {
      ReadAloneHere(s, p, b, items, stop, end);
    }
  }

  lemma RemainsOn(s: string, p: nat, items: seq<Item>, stop: nat, end: nat)
    requires Remain(s, p, items, end) && stop == ItemAt(s, p).1
    ensures p <= stop <= end && items != [] && items[0] == ItemAt(s, p).0
    ensures |items| == 1 <==> LookAt(s, stop) != Ch(',')
    ensures |items| > 1 ==> Remain(s, stop + 1, items[1..], end)
  {
    ListUnfolds(s, p);
    RemainStep(s, p, items, end);
  }

  /** How many characters of a rejected word are read before the last one that is looked at. */
  ghost function WordRead(word: string, b: Bounds): nat {
    ListRead(WordList(word), b)
  }

  lemma WordStopRead(s: string, q: nat, word: string, b: Bounds, x: nat)
    requires q <= |s| && word == Word(s, q) && x == q + WordRead(word, b)
    ensures ListStop(s, q, b) == After(s, x) && x <= q + |word|
  {
    var items, end := ListAt(s, q).0, ListAt(s, q).1;
    WordListReads(s, q);
    ListStopRead(s, q, b, items, end);
  }

  /** The word of a field ends on its line, before a blank or with it. */
  lemma WordEndOnLine(s: string, p: nat, k: nat, q: nat, e: nat)
    requires p <= |s| && q == WordAt(s, p, k) && e == q + |Word(s, q)|
    ensures OnLine(s, p, q) && OnLine(s, p, e) && (e < |s| ==> IsBlank(s[e]) || s[e] == '\n')
  {
    WordAtOnLine(s, p, k);
    RunOnLine(s, p, q, Nonblanks);
    RunEndStops(s, q, Nonblanks);
  }

  /** At the end `e` of a word: the look-ahead at `x <= e` takes the rest of the line if and only if the word
      is the last of the line and was read to its end. */
  lemma SkippedAtWord(s: string, p: nat, e: nat, x: nat)
    requires p < |s| && OnLine(s, p, e) && p <= x <= e && (e < |s| ==> IsBlank(s[e]) || s[e] == '\n')
    ensures After(s, x) == LineSkipped(s, p) <==>
            (e + 1 >= |s| || s[e] == '\n') && (x == e || (e == |s| && x + 1 == e))
  {
    EndOfLineStops(s, p);
  }

  /** The line at `p` is rejected for its `k`-th time field, the first that is not good. */
  ghost predicate RejectedFor(s: string, p: nat, k: nat) {
    p < |s| && s[p] != '@' && !TimeOk(s, p) && k == Decisive(s, p)
  }

  lemma RejectedForList(s: string, p: nat, k: nat, q: nat, owner: Option<Passwd>, accounts: map<string, Passwd>)
    requires RejectedFor(s, p, k) && q == WordAt(s, p, k)
    ensures RejectEnd(s, p, owner, accounts) ==
            if ListVerdict(WordList(Word(s, q)), BoundsOf(k), ReadableAfter(s, q)) == Good then After(s, NextWord(s, q))
            else ListStop(s, q, BoundsOf(k))
    ensures ListVerdict(WordList(Word(s, q)), BoundsOf(k), ReadableAfter(s, q)) == Good ==>
              Narrow(LookAt(s, NextWord(s, q))) == Eof
  {
    FieldIsWord(s, q);
  }

  lemma SkippedAtUnreadable(s: string, p: nat, next: nat)
    requires p < |s| && OnLine(s, p, next) && Narrow(LookAt(s, next)) == Eof
    ensures After(s, next) == LineSkipped(s, p) <==> next + 1 >= |s|
  {
    EndOfLineStops(s, p);
  }

  /** If the list of the deciding field is rejected, the rest of the line is skipped if and only if its word
      is the last of the line and is read to its end: its first bad item ends the word, and within that
      item its first bad number does. */
  lemma RejectedListSkipsLine(s: string, p: nat, owner: Option<Passwd>, accounts: map<string, Passwd>,
                              k: nat, q: nat, word: string, e: nat)
    requires RejectedFor(s, p, k) && q == WordAt(s, p, k) && word == Word(s, q) && e == q + |word|
    requires ListVerdict(WordList(word), BoundsOf(k), ReadableAfter(s, q)) != Good
    ensures e <= |s|
    ensures RejectEnd(s, p, owner, accounts) == LineSkipped(s, p) <==>
            && (e + 1 >= |s| || s[e] == '\n')
            && (WordRead(word, BoundsOf(k)) == |word| || (e == |s| && WordRead(word, BoundsOf(k)) + 1 == |word|))
  {
    var x := q + WordRead(word, BoundsOf(k));
    RejectedForList(s, p, k, q, owner, accounts);
    WordStopRead(s, q, word, BoundsOf(k), x);
    WordEndOnLine(s, p, k, q, e);
    SkippedAtWord(s, p, e, x);
  }

  /** Whether the list at `q` is followed by a character that can be read. */
  predicate ReadableAfter(s: string, q: nat)
    requires q <= |s|
  {
    Narrow(LookAt(s, ListAt(s, q).1)).Ch?
  }

  /** If its list is good, only the character after the blanks is missing: the text ends there, or at the
      byte 0xff. */
  lemma UnreadableFieldSkipsLine(s: string, p: nat, owner: Option<Passwd>, accounts: map<string, Passwd>,
                                 k: nat, q: nat, next: nat)
    requires RejectedFor(s, p, k) && q == WordAt(s, p, k) && next == NextWord(s, q)
    requires ListVerdict(WordList(Word(s, q)), BoundsOf(k), ReadableAfter(s, q)) == Good
    ensures next < |s| ==> s[next] == BYTE_FF
    ensures RejectEnd(s, p, owner, accounts) == LineSkipped(s, p) <==> next + 1 >= |s|
  {
    RejectedForList(s, p, k, q, owner, accounts);
    WordAtOnLine(s, p, k);
    NextWordOnLine(s, p, q);
    SkippedAtUnreadable(s, p, next);
  }

  /** Where the look-ahead stands when the line is rejected, in both cases. */
  lemma RejectedOnLine(s: string, p: nat, owner: Option<Passwd>, accounts: map<string, Passwd>, k: nat, q: nat)
    returns (x: nat)
    requires RejectedFor(s, p, k) && q == WordAt(s, p, k)
    ensures OnLine(s, p, x) && RejectEnd(s, p, owner, accounts) == After(s, x)
  {
    RejectedForList(s, p, k, q, owner, accounts);
    WordEndOnLine(s, p, k, q, q + |Word(s, q)|);
    if ListVerdict(WordList(Word(s, q)), BoundsOf(k), ReadableAfter(s, q)) == Good {
      x := NextWord(s, q);
      NextWordOnLine(s, p, q);
    } else {
      x := q + WordRead(Word(s, q), BoundsOf(k));
      WordStopRead(s, q, Word(s, q), BoundsOf(k), x);
    }
  }

  /** Nothing behind the line is read, and a line with a rejected time field is skipped as a whole exactly if
      the reader stops behind its newline or at the end of the text. */
  lemma RejectedFieldsStop(s: string, p: nat, owner: Option<Passwd>, accounts: map<string, Passwd>)
    requires p < |s| && s[p] != '@' && !TimeOk(s, p)
    ensures p < RejectEnd(s, p, owner, accounts) <= LineSkipped(s, p)
    ensures RejectEnd(s, p, owner, accounts) == LineSkipped(s, p)
            <==> RejectEnd(s, p, owner, accounts) == |s| || s[RejectEnd(s, p, owner, accounts) - 1] == '\n'
  {
    var k := Decisive(s, p);
    var x := RejectedOnLine(s, p, owner, accounts, k, WordAt(s, p, k));
    EndOfLineStops(s, p);
  }

  /** So the rest of a line whose minute is rejected is read as a line of its own. */
  lemma RejectedLineIsReadOn(owner: Option<Passwd>, accounts: map<string, Passwd>)
    ensures var s := "a b\n"; RejectEnd(s, 0, owner, accounts) == 2 < LineSkipped(s, 0) == 4
  {
    var s, start: nat := "a b\n", 0;
    RunEndUnique(s, start, Alnums, 1);
    assert NumberAt(s, start) == "a" && ItemAt(s, start).0 == Single("a") && ItemAt(s, start).1 == 1;
    assert NumberValue("a", 0, []) == None by {
      assert !IsDigit("a"[0]);
    }
    ListUnfolds(s, start);
    assert ItemVerdict(Single("a"), MINUTE) == Bad;
    assert WordAt(s, start, 0) == start && FieldVerdict(s, start, 0, MINUTE) == Bad;
    assert NumberStop(s, start) == 2;
    forall i | 0 <= i < 3 ensures InRun(s[i], Until("\n")) {}
    RunEndUnique(s, start, Until("\n"), 3);
  }

  lemma SkippedFrom(s: string, p: nat, a: nat)
    requires p < |s| && p <= a <= |s|
    ensures LineSkipped(s, a) == LineSkipped(s, p) <==> '\n' !in s[p..if a == |s| then |s| - 1 else a]
  {
    var b := if a == |s| then |s| - 1 else a;
    EndOfLineStops(s, p);
    EndOfLineStops(s, a);
    if EndOfLine(s, p) < b {
      assert s[p..b][EndOfLine(s, p) - p] == '\n';
    } else {
      assert '\n' !in s[p..b];
      if a < |s| {
        RunEndUnique(s, p, Until("\n"), EndOfLine(s, a));
      }
    }
  }

  /** After a rejected shorthand, user or command the line is skipped if and only if no newline, but for
      one that ends the text, stands before the look-ahead: a user name is read up to a blank, over
      newlines. */
  lemma RejectedWordsSkipLine(s: string, p: nat, owner: Option<Passwd>, accounts: map<string, Passwd>, ahead: nat)
    requires p < |s| && (s[p] == '@' || TimeOk(s, p)) && ahead == AheadAt(s, p, owner, accounts)
    ensures p <= ahead <= |s|
    ensures RejectEnd(s, p, owner, accounts) == LineSkipped(s, p)
            <==> '\n' !in s[p..if ahead == |s| then |s| - 1 else ahead]
  {
    SkippedFrom(s, p, ahead);
  }
}
