/** Lines that end before all five fields are there (entry.c): an empty field is taken for the number 0, so that
    a line without its day of the week, and without a command, is accepted. */
module CronShortLine {
  import opened Common
  import opened CronText
  import opened CronSyntax
  import opened CronFields
  import opened CronWords
  import opened CronRecord
  import opened CronSchedule
  import opened Environment
  import opened CronEntry
  import opened CrontabLoader

  lemma NothingRuns(s: string, q: nat, run: CharClass)
    requires q < |s| && s[q] == '\n' && !InRun('\n', run)
    ensures RunEnd(s, q, run) == q
  {}

  /** At the end of the line a field is one empty number. */
  lemma EmptyList(s: string, q: nat)
    requires q < |s| && s[q] == '\n'
    ensures ListAt(s, q) == ([Single("")], q) && NextWord(s, q) == q
  {
    NothingRuns(s, q, Alnums);
    NothingRuns(s, q, Nonblanks);
    NothingRuns(s, q, Blanks);
    assert s[q..q] == "";
  }

  lemma EmptyWord()
    ensures WordList("") == [Single("")]
  {}

  lemma {:induction false} EmptyIsNoName(names: seq<string>)
    requires forall i :: 0 <= i < |names| ==> names[i] != ""
    ensures NameIndex(names, "") == |names|
  {
    if names != [] {
      assert !SameName(names[0], "");
      EmptyIsNoName(names[1..]);
    }
  }

  /** An empty number is 0. */
  lemma EmptyIsZero(low: nat, names: seq<string>)
    requires forall i :: 0 <= i < |names| ==> names[i] != ""
    ensures NumberValue("", low, names) == Some(0)
  {
    EmptyIsNoName(names);
  }

  lemma EmptyItem(b: Bounds, v: int)
    requires forall i :: 0 <= i < |b.names| ==> b.names[i] != ""
    ensures SpanOf(Single(""), b) == Some(Span(0, 0, 1)) && (Denotes(Single(""), b, v) <==> v == 0)
  {
    EmptyIsZero(b.low, b.names);
  }

  lemma EmptyVerdict(b: Bounds)
    requires (forall i :: 0 <= i < |b.names| ==> b.names[i] != "") && b.low <= b.high
    ensures ItemVerdict(Single(""), b) == if b.low == 0 then Good else Bad
  {
    EmptyItem(b, 0);
    assert InSpan(0, Span(0, 0, 1));
    forall v | InSpan(v, Span(0, 0, 1)) ensures v == 0 {}
  }

  lemma NamesAreSpelled(k: nat)
    requires k < 5
    ensures var b := BoundsOf(k);
            (forall i :: 0 <= i < |b.names| ==> b.names[i] != "") && b.low <= b.high
    ensures BoundsOf(k).low == if k == 2 || k == 3 then 1 else 0
  {}

  /** The line of `p` ends where its `k`-th word would begin. */
  ghost predicate EndsBefore(s: string, p: nat, k: nat) {
    p <= |s| && WordAt(s, p, k) < |s| && s[WordAt(s, p, k)] == '\n'
  }

  lemma {:induction false} WordsStay(s: string, p: nat, k: nat, j: nat)
    requires EndsBefore(s, p, k) && k <= j
    ensures WordAt(s, p, j) == WordAt(s, p, k)
    decreases j
  {
    if k < j {
      WordsStay(s, p, k, j - 1);
      EmptyList(s, WordAt(s, p, k));
    }
  }

  /** The day of the month and the month have no number 0. */
  lemma MissingField(s: string, p: nat, k: nat, j: nat)
    requires EndsBefore(s, p, k) && k <= j < 5
    ensures KthVerdict(s, p, j) == if j == 2 || j == 3 then Bad else Good
  {
    var q := WordAt(s, p, k);
    WordsStay(s, p, k, j);
    WordsStay(s, p, k, j + 1);
    EmptyList(s, q);
    NamesAreSpelled(j);
    EmptyVerdict(BoundsOf(j));
    MissingVerdict(s, p, j, q);
  }

  lemma MissingVerdict(s: string, p: nat, j: nat, q: nat)
    requires p <= |s| && q < |s| && s[q] == '\n' && WordAt(s, p, j) == WordAt(s, p, j + 1) == q
    requires ListAt(s, q) == ([Single("")], q)
    ensures KthVerdict(s, p, j) == ItemVerdict(Single(""), BoundsOf(j))
  {
    assert [Single("")] != [] && |[Single("")]| == 1;
  }

  ghost predicate IsGood(s: string, p: nat, k: nat)
    requires p <= |s|
  {
    KthVerdict(s, p, k) == Good
  }

  lemma AllGood(s: string, p: nat)
    requires p <= |s|
    ensures LineVerdict(s, p) == Good <==>
            && IsGood(s, p, 0) && IsGood(s, p, 1) && IsGood(s, p, 2) && IsGood(s, p, 3)
            && IsGood(s, p, 4)
  {
    var k := Decisive(s, p);
    assert LineVerdict(s, p) == KthVerdict(s, p, k);
  }

  /** A line with fewer than five words is accepted if and only if the day of the week alone is missing, and the
      other fields are good. */
  lemma ShortLineVerdict(s: string, p: nat, k: nat)
    requires EndsBefore(s, p, k) && k < 5
    ensures LineVerdict(s, p) == Good <==>
            k == 4 && IsGood(s, p, 0) && IsGood(s, p, 1) && IsGood(s, p, 2) && IsGood(s, p, 3)
  {
    AllGood(s, p);
    MissingField(s, p, k, 4);
    if k < 4 {
      MissingField(s, p, k, 3);
    }
  }

  // ---------------------------------------------------------------- printed lines

  /** Four fields from the `k`-th on, and then the end of the line. */
  function ShortText(sch: Schedule, blanks: seq<string>, k: nat): string
    requires ScheduleOk(sch) && |blanks| == 3 && k < 4
    decreases 4 - k
  {
    FieldText(sch.fields[k]) + (if k == 3 then "\n" else blanks[k] + ShortText(sch, blanks, k + 1))
  }

  /** The schedule has the Sunday for its fifth field. */
  ghost predicate OnSundays(sch: Schedule, blanks: seq<string>) {
    && ScheduleOk(sch) && sch.fields[4] == [One(Number(0))]
    && |blanks| == 3 && forall k :: 0 <= k < 3 ==> AreBlanks(blanks[k])
  }

  lemma ShortTextBegins(sch: Schedule, blanks: seq<string>, k: nat)
    requires OnSundays(sch, blanks) && k < 4
    ensures RestOk(ShortText(sch, blanks, k))
  {
    FieldTextChars(sch.fields[k], k);
  }

  lemma LastWordStands(sch: Schedule, s: string, q: nat, word: string, end: nat)
    requires ScheduleOk(sch) && word == FieldText(sch.fields[3]) && Within(word + "\n", s, q) && end == q + |word|
    ensures end < |s| && s[end] == '\n' && NextWord(s, q) == end && FieldAt(sch, s, q, 3)
  {
    FieldTextChars(sch.fields[3], 3);
    WithinSplit(word, "\n", s, q);
    assert s[end + 0] == "\n"[0];
    forall i | q <= i < end ensures InRun(s[i], Nonblanks) { assert s[q + (i - q)] == word[i - q]; }
    RunEndUnique(s, q, Nonblanks, end);
    RunEndUnique(s, end, Blanks, end);
    assert s[q..end] == word;
  }

  lemma {:induction false} ShortStands(sch: Schedule, blanks: seq<string>, s: string, p: nat, k: nat)
    requires OnSundays(sch, blanks) && k < 4 && p <= |s| && Within(ShortText(sch, blanks, 0), s, p)
    ensures Within(ShortText(sch, blanks, k), s, WordAt(s, p, k))
    ensures k > 0 ==> FieldAt(sch, s, WordAt(s, p, k - 1), k - 1)
  {
    if k > 0 {
      var j := k - 1;
      var q, word := WordAt(s, p, j), FieldText(sch.fields[j]);
      ShortStands(sch, blanks, s, p, j);
      ShortTextBegins(sch, blanks, k);
      FieldStandsAs(sch, s, q, j, word, blanks[j], ShortText(sch, blanks, k), q + |word| + |blanks[j]|);
      assert WordAt(s, p, k) == NextWord(s, q);
    }
  }

  lemma ShortEnds(sch: Schedule, blanks: seq<string>, s: string, p: nat)
    requires OnSundays(sch, blanks) && p <= |s| && Within(ShortText(sch, blanks, 0), s, p)
    ensures FieldAt(sch, s, WordAt(s, p, 3), 3) && EndsBefore(s, p, 4)
  {
    var q, word := WordAt(s, p, 3), FieldText(sch.fields[3]);
    ShortStands(sch, blanks, s, p, 3);
    LastWordStands(sch, s, q, word, q + |word|);
    assert WordAt(s, p, 4) == NextWord(s, q);
  }

  lemma ShortFieldAt(sch: Schedule, blanks: seq<string>, s: string, p: nat, k: nat)
    requires OnSundays(sch, blanks) && p <= |s| && Within(ShortText(sch, blanks, 0), s, p) && k < 4
    ensures FieldAt(sch, s, WordAt(s, p, k), k)
  {
    if k < 3 {
      ShortStands(sch, blanks, s, p, k + 1);
    } else {
      ShortEnds(sch, blanks, s, p);
    }
  }

  lemma SundayHolds(parts: seq<Part>, v: nat)
    requires parts == [One(Number(0))] && FieldOk(parts, 4)
    ensures FieldHolds(parts, 4, v) <==> v == 0
  {
    assert PartHolds(parts[0], 4, v) <==> v == 0;
  }

  /** The empty fifth word means Sunday. */
  lemma MissingMeans(sch: Schedule, s: string, p: nat, v: nat)
    requires ScheduleOk(sch) && sch.fields[4] == [One(Number(0))] && EndsBefore(s, p, 4)
    ensures WordNames(Field(s, p, 4), BoundsOf(4), v) <==> FieldHolds(sch.fields[4], 4, v)
  {
    var q := WordAt(s, p, 4);
    NothingRuns(s, q, Nonblanks);
    assert Field(s, p, 4) == "";
    EmptyWord();
    NamesAreSpelled(4);
    EmptyItem(BoundsOf(4), v);
    OneDenotes(Single(""), BoundsOf(4), v);
    SundayHolds(sch.fields[4], v);
  }

  lemma OneDenotes(item: Item, b: Bounds, v: int)
    ensures ListDenotes([item], b, v) <==> Denotes(item, b, v)
  {
    assert !ListDenotes([item][1..], b, v);
  }

  lemma ShortFieldMeans(sch: Schedule, blanks: seq<string>, s: string, p: nat, k: nat)
    requires OnSundays(sch, blanks) && p <= |s| && Within(ShortText(sch, blanks, 0), s, p) && k < 5
    ensures FieldMeans(sch, s, p, k)
  {
    ShortEnds(sch, blanks, s, p);
    if k < 4 {
      ShortFieldAt(sch, blanks, s, p, k);
      FieldAtMeans(sch, s, p, k);
    } else {
      MissingField(s, p, 4, 4);
      forall v: nat ensures WordNames(Field(s, p, 4), BoundsOf(4), v) <==> FieldHolds(sch.fields[4], 4, v) {
        MissingMeans(sch, s, p, v);
      }
    }
  }

  /** A line of four fields and nothing else is accepted as if its day of the week were Sunday. */
  lemma ShortLineRuns(sch: Schedule, blanks: seq<string>, s: string, p: nat, tm: Tm)
    requires OnSundays(sch, blanks) && p <= |s| && Within(ShortText(sch, blanks, 0), s, p) && ValidTm(tm)
    ensures LineVerdict(s, p) == Good && (LineNames(s, p, tm) <==> Runs(sch, tm))
  {
    forall k | 0 <= k < 5 ensures FieldMeans(sch, s, p, k) {
      ShortFieldMeans(sch, blanks, s, p, k);
    }
    AllMeantIsGood(sch, s, p);
    RunsAsMeant(sch, s, p, tm);
  }

  /** In a user's crontab it becomes an entry with an empty command. */
  lemma ShortLineIsEntry(sch: Schedule, blanks: seq<string>, s: string, p: nat, pw: Passwd,
                         accounts: map<string, Passwd>, tm: Tm)
    requires OnSundays(sch, blanks) && p < |s| && Within(ShortText(sch, blanks, 0), s, p) && ValidTm(tm)
    ensures TimeOk(s, p) && (EntryNames(s, p, tm) <==> Runs(sch, tm))
    ensures var tail := TailAt(s, TailStart(s, p), Some(pw), accounts);
            tail.Some? && tail.value.pw == pw && tail.value.cmd == ""
  {
    ShortBegins(sch, blanks, s, p);
    ShortLineRuns(sch, blanks, s, p, tm);
    ShortEnds(sch, blanks, s, p);
    WordsStay(s, p, 4, 5);
    NothingRuns(s, WordAt(s, p, 4), Until("\n" + [ZERO]));
  }

  lemma ShortBegins(sch: Schedule, blanks: seq<string>, s: string, p: nat)
    requires OnSundays(sch, blanks) && p < |s| && Within(ShortText(sch, blanks, 0), s, p)
    ensures s[p] != '@'
  {
    FieldTextChars(sch.fields[0], 0);
    assert s[p + 0] == ShortText(sch, blanks, 0)[0];
  }

  /** No equals sign, and nothing that ends a line, but for the end. */
  predicate OneLine(t: string) {
    && t != "" && t[|t| - 1] == '\n'
    && forall i :: 0 <= i < |t| - 1 ==> t[i] != '\n' && t[i] != ZERO && t[i] != '='
  }

  lemma OneLineGrows(a: string, b: string)
    requires OneLine(b) && forall i :: 0 <= i < |a| ==> FieldChar(a[i]) || a[i] == ' ' || a[i] == '\t'
    ensures OneLine(a + b)
  {}

  lemma {:induction false} ShortTextIsLine(sch: Schedule, blanks: seq<string>, k: nat)
    requires OnSundays(sch, blanks) && k < 4
    ensures OneLine(ShortText(sch, blanks, k))
    decreases 4 - k
  {
    FieldTextChars(sch.fields[k], k);
    if k == 3 {
      OneLineGrows(FieldText(sch.fields[k]), "\n");
    } else {
      ShortTextIsLine(sch, blanks, k + 1);
      OneLineGrows(blanks[k], ShortText(sch, blanks, k + 1));
      OneLineGrows(FieldText(sch.fields[k]), blanks[k] + ShortText(sch, blanks, k + 1));
    }
  }

  lemma LineIsNoSetting(s: string, pos: nat, p: nat, t: string)
    requires pos <= |s| && CommentsEnd(s, pos) == p && OneLine(t) && Within(t, s, p)
    ensures NextLine(s, pos).Some? && ParseSetting(NextLine(s, pos).value) == None
  {
    var end := p + |t| - 1;
    forall i | p <= i < end ensures s[i] != '=' && InRun(s[i], Until("\n" + [ZERO])) {
      assert s[p + (i - p)] == t[i - p];
    }
    assert s[p + (|t| - 1)] == t[|t| - 1];
    RunEndUnique(s, p, Until("\n" + [ZERO]), end);
    var line := NextLine(s, pos).value;
    forall i | 0 <= i < |line| ensures line[i] != '=' {
      assert line[i] == s[p + i];
    }
    assert '=' !in line;
  }

  /** The loader takes such a line of a user's crontab for an entry. */
  lemma ShortLineIsAccepted(sch: Schedule, blanks: seq<string>, s: string, pos: nat, pw: Passwd,
                            accounts: map<string, Passwd>)
    requires OnSundays(sch, blanks) && pos <= |s| && CommentsEnd(s, pos) < |s|
    requires Within(ShortText(sch, blanks, 0), s, CommentsEnd(s, pos))
    ensures RoundOk(s, Accept(pos), Some(pw), accounts)
  {
    var p := CommentsEnd(s, pos);
    ShortTextIsLine(sch, blanks, 0);
    LineIsNoSetting(s, pos, p, ShortText(sch, blanks, 0));
    ShortLineIsEntry(sch, blanks, s, p, pw, accounts, Tm(0, 0, 1, 0, 0));
    ShortLineRuns(sch, blanks, s, p, Tm(0, 0, 1, 0, 0));
  }
}
