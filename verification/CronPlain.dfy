/** Whole crontabs in plain terms: jobs, settings, comments and blank lines, printed one after the other, are
    loaded as just these jobs, each with the settings before it, and run at just their times. */
module CronPlain {
  import opened Common
  import opened CronText
  import opened CronSyntax
  import opened CronRecord
  import opened CronSchedule
  import opened Environment
  import opened CronEntry
  import opened CrontabLoader
  import opened CronLog

  datatype Line =
    | Job(sch: Schedule, blanks: seq<string>, user: string, command: string)
    | Setting(name: string, value: string)
    | Comment(indent: string, text: string)
    | Empty(indent: string)

  /** In a system crontab every job names its user. */
  function JobTail(line: Line, system: bool): string
    requires line.Job?
  {
    if system then line.user + (" " + line.command) else line.command
  }

  predicate PlainChar(c: char) { c != '\n' && c != ZERO }

  predicate PlainText(t: string) {
    forall i :: 0 <= i < |t| ==> PlainChar(t[i])
  }

  ghost predicate LineOk(line: Line, system: bool, accounts: map<string, Passwd>) {
    match line
    case Job(sch, blanks, user, command) =>
      && ScheduledLineOk(sch, blanks, JobTail(line, system)) && PlainText(command) && |command| < 1000
      && ((exists k :: 0 <= k < 4 && ' ' in blanks[k]) || '=' !in JobTail(line, system))
      && (system ==> user in accounts && |user| < 1000
                     && forall i :: 0 <= i < |user| ==> PlainChar(user[i]) && user[i] != ' ' && user[i] != '\t')
      && |LineText(line, system)| < 1000
    case Setting(name, value) =>
      && name != "" && name[0] != '#' && PlainText(name)
         && (forall c :: c in name ==> c != ' ' && c != '=' && c != '\t')
      && value != "" && PlainText(value) && '#' !in value && value[0] != '\'' && value[0] != '"'
      && !IsSpace(value[0]) && !IsSpace(value[|value| - 1]) && |LineText(line, system)| < 1000
    case Comment(indent, text) => (indent == "" || AreBlanks(indent)) && '\n' !in text
    case Empty(indent) => indent == "" || AreBlanks(indent)
  }

  function LineText(line: Line, system: bool): string
    requires line.Job? ==> ScheduleOk(line.sch) && |line.blanks| == 5
  {
    match line
    case Job(sch, blanks, user, command) => TextFrom(sch, blanks, JobTail(line, system), 0)
    case Setting(name, value) => name + "=" + value
    case Comment(indent, text) => indent + ("#" + text)
    case Empty(indent) => indent
  }

  ghost predicate LinesOk(lines: seq<Line>, system: bool, accounts: map<string, Passwd>) {
    forall i :: 0 <= i < |lines| ==> LineOk(lines[i], system, accounts)
  }

  predicate Printable(line: Line) {
    line.Job? ==> ScheduleOk(line.sch) && |line.blanks| == 5
  }

  predicate AllPrintable(lines: seq<Line>) {
    forall i :: 0 <= i < |lines| ==> Printable(lines[i])
  }

  function Text(lines: seq<Line>, system: bool): string
    requires AllPrintable(lines)
  {
    if lines == [] then ""
    else Text(lines[..|lines| - 1], system) + (LineText(lines[|lines| - 1], system) + "\n")
  }

  predicate Useful(line: Line) { line.Job? || line.Setting? }

  // ---------------------------------------------------------------- jobs and settings are told apart

  /** The fields before the `k`-th, each followed by its blanks. */
  function Fields(sch: Schedule, blanks: seq<string>, k: nat): string
    requires ScheduleOk(sch) && |blanks| == 5 && k <= 5
  {
    if k == 0 then "" else Fields(sch, blanks, k - 1) + (FieldText(sch.fields[k - 1]) + blanks[k - 1])
  }

  lemma {:induction false} FieldsThenText(sch: Schedule, blanks: seq<string>, rest: string, k: nat)
    requires ScheduleOk(sch) && |blanks| == 5 && k <= 5
    ensures TextFrom(sch, blanks, rest, 0) == Fields(sch, blanks, k) + TextFrom(sch, blanks, rest, k)
  {
    if k > 0 {
      FieldsThenText(sch, blanks, rest, k - 1);
      Associate(Fields(sch, blanks, k - 1), FieldText(sch.fields[k - 1]), blanks[k - 1],
                TextFrom(sch, blanks, rest, k));
    }
  }

  lemma Associate(a: string, b: string, c: string, d: string)
    ensures a + (b + (c + d)) == (a + (b + c)) + d
  {}

  /** No equals sign, no newline and no zero, before the command. */
  predicate HeadChar(c: char) { FieldChar(c) || c == ' ' || c == '\t' }

  predicate HeadText(t: string) {
    forall i :: 0 <= i < |t| ==> HeadChar(t[i])
  }

  lemma HeadJoins(a: string, b: string, c: string)
    requires HeadText(a) && FieldChars(b) && AreBlanks(c)
    ensures HeadText(a + (b + c))
    ensures ' ' in a + (b + c) <==> ' ' in a || ' ' in c
  {
    var t := a + (b + c);
    forall i | 0 <= i < |t| ensures HeadChar(t[i]) {
      assert t[i] == if i < |a| then a[i] else if i < |a| + |b| then b[i - |a|] else c[i - |a| - |b|];
    }
    assert ' ' !in b;
  }

  lemma {:induction false} FieldsAreHead(sch: Schedule, blanks: seq<string>, k: nat)
    requires ScheduleOk(sch) && |blanks| == 5 && k <= 5 && forall j :: 0 <= j < 5 ==> AreBlanks(blanks[j])
    ensures HeadText(Fields(sch, blanks, k))
    ensures ' ' in Fields(sch, blanks, k) <==> exists j :: 0 <= j < k && ' ' in blanks[j]
  {
    if k > 0 {
      FieldsAreHead(sch, blanks, k - 1);
      FieldTextChars(sch.fields[k - 1], k - 1);
      HeadJoins(Fields(sch, blanks, k - 1), FieldText(sch.fields[k - 1]), blanks[k - 1]);
    }
  }

  /** A space among the fields, and what follows is no setting. */
  lemma SpacedIsNoSetting(head: string, rest: string)
    requires HeadText(head) && ' ' in head && rest != "" && FieldChar(rest[0])
    ensures ParseSetting(head + rest) == None
  {
    var line := head + rest;
    var x :| 0 <= x < |head| && head[x] == ' ';
    var i := RunEnd(line, 0, Until(" ="));
    RunEndStops(line, 0, Until(" ="));
    assert line[x] == ' ';
    assert !InRun(line[x], Until(" ="));
    var j := SpaceEnd(line, i);
    SpaceRun(line, i);
    assert line[|head|] == rest[0];
    assert j <= |head|;
    assert line[j] == if j < |head| then head[j] else rest[0];
  }

  lemma NoEqualsIsNoSetting(line: string)
    requires '=' !in line
    ensures ParseSetting(line) == None
  {}

  lemma {:induction false} RunShifts(a: string, b: string, p: nat, run: CharClass)
    requires p <= |b|
    ensures RunEnd(a + b, |a| + p, run) == |a| + RunEnd(b, p, run)
    decreases |b| - p
  {
    if p < |b| {
      assert (a + b)[|a| + p] == b[p];
      if InRun(b[p], run) {
        RunShifts(a, b, p + 1, run);
      }
    }
  }

  lemma {:induction false} SpacesShift(a: string, b: string, p: nat)
    requires p <= |b|
    ensures SpaceEnd(a + b, |a| + p) == |a| + SpaceEnd(b, p)
    decreases |b| - p
  {
    if p < |b| {
      assert (a + b)[|a| + p] == b[p];
      if IsSpace(b[p]) {
        SpacesShift(a, b, p + 1);
      }
    }
  }

  lemma {:induction false} RunThrough(a: string, b: string, p: nat, run: CharClass)
    requires p <= |a| && forall i :: p <= i < |a| ==> InRun(a[i], run)
    ensures RunEnd(a + b, p, run) == |a| + RunEnd(b, 0, run)
    decreases |a| - p
  {
    if p == |a| {
      RunShifts(a, b, 0, run);
    } else {
      assert (a + b)[p] == a[p];
      RunThrough(a, b, p + 1, run);
    }
  }

  lemma NoEqualsSign(line: string, i: nat, j: nat)
    requires i == RunEnd(line, 0, Until(" =")) && j == SpaceEnd(line, i) && LookAt(line, j) != Ch('=')
    ensures ParseSetting(line) == None
  {}

  lemma EqualsSignAt(line: string, i: nat, j: nat, next: nat, k: nat, l: nat)
    requires i == RunEnd(line, 0, Until(" =")) && j == SpaceEnd(line, i) && LookAt(line, j) == Ch('=')
    requires next == j + 1 && k == SpaceEnd(line, next) && l == RunEnd(line, k, Until("\n#"))
    ensures ParseSetting(line).Some? <==> i > 0 && k < l
  {}

  lemma LookShifts(a: string, b: string, j: nat)
    ensures LookAt(a + b, |a| + j) == LookAt(b, j)
  {}

  /** Whether the value behind an equals sign is empty does not depend on what stands before the line. */
  lemma ValueShifts(head: string, rest: string, line: string, next: nat, k: nat, l: nat)
    requires line == head + rest && next <= |rest| && k == SpaceEnd(rest, next) && l == RunEnd(rest, k, Until("\n#"))
    ensures SpaceEnd(line, |head| + next) == |head| + k && RunEnd(line, |head| + k, Until("\n#")) == |head| + l
  {
    SpacesShift(head, rest, next);
    RunShifts(head, rest, k, Until("\n#"));
  }

  lemma EqualsSignShifts(head: string, rest: string, line: string, n: nat, i: nat, j: nat)
    requires line == head + rest && n == |head| && i == RunEnd(rest, 0, Until(" =")) > 0 && j == SpaceEnd(rest, i)
    requires RunEnd(line, 0, Until(" =")) == n + i && SpaceEnd(line, n + i) == n + j
    requires LookAt(rest, j) == Ch('=') == LookAt(line, n + j)
    ensures ParseSetting(line).Some? <==> ParseSetting(rest).Some?
  {
    var next := j + 1;
    var k := SpaceEnd(rest, next);
    var l := RunEnd(rest, k, Until("\n#"));
    ValueShifts(head, rest, line, next, k, l);
    EqualsSignAt(rest, i, j, next, k, l);
    EqualsSignMoved(line, n + i, n + j, n + k, n + l, k < l);
  }

  lemma EqualsSignMoved(line: string, i: nat, j: nat, k: nat, l: nat, valued: bool)
    requires 0 < i == RunEnd(line, 0, Until(" =")) && j == SpaceEnd(line, i) && LookAt(line, j) == Ch('=')
    requires k == SpaceEnd(line, j + 1) && l == RunEnd(line, k, Until("\n#")) && valued == (k < l)
    ensures ParseSetting(line).Some? <==> valued
  {
    EqualsSignAt(line, i, j, j + 1, k, l);
  }

  /** Without a space among the fields, what follows decides. */
  lemma UnspacedShifts(head: string, rest: string)
    requires HeadText(head) && ' ' !in head && rest != "" && FieldChar(rest[0])
    ensures ParseSetting(head + rest).Some? <==> ParseSetting(rest).Some?
  {
    var n := |head|;
    forall i | 0 <= i < n ensures InRun(head[i], Until(" =")) { assert head[i] in head; }
    RunThrough(head, rest, 0, Until(" ="));
    assert InRun(rest[0], Until(" ="));
    var i := RunEnd(rest, 0, Until(" ="));
    var j := SpaceEnd(rest, i);
    SpacesShift(head, rest, i);
    LookShifts(head, rest, j);
    if LookAt(rest, j) == Ch('=') {
      EqualsSignShifts(head, rest, head + rest, n, i, j);
    } else {
      NoEqualsSign(rest, i, j);
      NoEqualsSign(head + rest, n + i, n + j);
    }
  }

  /** A job line is taken for a setting if and only if there is no space among its first four fields and its
      last field and its command, by themselves, are one. */
  lemma JobIsSetting(sch: Schedule, blanks: seq<string>, rest: string)
    requires ScheduledLineOk(sch, blanks, rest)
    ensures ParseSetting(TextFrom(sch, blanks, rest, 0)).Some? <==>
            (forall k :: 0 <= k < 4 ==> ' ' !in blanks[k]) && ParseSetting(TextFrom(sch, blanks, rest, 4)).Some?
  {
    var head, last := Fields(sch, blanks, 4), TextFrom(sch, blanks, rest, 4);
    FieldsThenText(sch, blanks, rest, 4);
    FieldsAreHead(sch, blanks, 4);
    TextBegins(sch, blanks, rest, 4);
    FieldTextChars(sch.fields[4], 4);
    if ' ' in head {
      SpacedIsNoSetting(head, last);
    } else {
      UnspacedShifts(head, last);
    }
  }

  /** So a job is lost whose fields are parted by tabs and whose command sets a variable: `*` five times and
      `A=b`, parted by tabs, is a setting. */
  lemma TabbedJobIsSetting(value: string)
    requires value != "" && forall c :: c in value ==> c != '\n' && c != '#'
    requires !IsSpace(value[0]) && !IsSpace(value[|value| - 1]) && value[0] != '\'' && value[0] != '"'
    ensures var name := "*\t*\t*\t*\t*\tA"; ParseSetting(name + "=" + value) == Some(name + "=" + value)
  {
    PlainSettingReads("*\t*\t*\t*\t*\tA", value);
  }

  // ---------------------------------------------------------------- lines in a text

  lemma OkIsPrintable(lines: seq<Line>, system: bool, accounts: map<string, Passwd>)
    requires LinesOk(lines, system, accounts)
    ensures AllPrintable(lines)
  {
    forall i | 0 <= i < |lines| ensures Printable(lines[i]) {
      assert LineOk(lines[i], system, accounts);
    }
  }

  /** A line stands at `p`, with its newline. */
  ghost predicate StandsIn(line: Line, system: bool, s: string, p: nat)
    requires Printable(line)
  {
    Within(LineText(line, system) + "\n", s, p)
  }

  lemma WithinLonger(w: string, s: string, t: string, p: nat)
    requires Within(w, s, p)
    ensures Within(w, s + t, p)
  {}

  lemma WithinEnd(s: string, t: string)
    ensures Within(t, s + t, |s|)
  {}

  lemma TextGrows(before: seq<Line>, line: Line, lines: seq<Line>, system: bool)
    requires lines == before + [line] && AllPrintable(lines) && AllPrintable(before) && Printable(line)
    ensures Text(lines, system) == Text(before, system) + (LineText(line, system) + "\n")
  {
    assert lines[..|lines| - 1] == before && lines[|lines| - 1] == line;
  }

  lemma PrintablePrefix(lines: seq<Line>, i: nat, before: seq<Line>)
    requires AllPrintable(lines) && i <= |lines| && before == lines[..i]
    ensures AllPrintable(before)
  {}

  lemma PrintableBefore(before: seq<Line>, line: Line, lines: seq<Line>)
    requires lines == before + [line] && AllPrintable(lines)
    ensures AllPrintable(before) && Printable(line)
  {
    forall i | 0 <= i < |before| ensures Printable(before[i]) {
      assert lines[i] == before[i];
    }
    assert lines[|before|] == line;
  }

  /** A text goes on after the text of its first lines. */
  lemma {:induction false} TextGoesOn(lines: seq<Line>, system: bool, i: nat, before: seq<Line>) returns (more: string)
    requires AllPrintable(lines) && i <= |lines| && before == lines[..i] && AllPrintable(before)
    ensures Text(lines, system) == Text(before, system) + more
    decreases |lines| - i
  {
    if i == |lines| {
      assert before == lines;
      more := "";
    } else {
      var line, next := lines[i], lines[..i + 1];
      assert next == before + [line];
      var rest := TextGoesOn(lines, system, i + 1, next);
      TextGrows(before, line, next, system);
      more := (LineText(line, system) + "\n") + rest;
      assert Text(before, system) + more == (Text(before, system) + (LineText(line, system) + "\n")) + rest;
    }
  }

  lemma WithinMiddle(a: string, w: string, b: string)
    ensures Within(w, (a + w) + b, |a|)
  {
    WithinEnd(a, w);
    WithinLonger(w, a + w, b, |a|);
  }

  /** Every line of a text stands after the text of the lines before it. */
  lemma LineStandsIn(lines: seq<Line>, system: bool, i: nat, before: seq<Line>, now: seq<Line>)
    requires AllPrintable(lines) && i < |lines| && before == lines[..i] && now == lines[..i + 1]
    requires AllPrintable(before) && AllPrintable(now)
    ensures StandsIn(lines[i], system, Text(lines, system), |Text(before, system)|)
    ensures |Text(now, system)| == |Text(before, system)| + |LineText(lines[i], system)| + 1 <= |Text(lines, system)|
  {
    assert now == before + [lines[i]];
    TextGrows(before, lines[i], now, system);
    var more := TextGoesOn(lines, system, i + 1, now);
    WithinMiddle(Text(before, system), LineText(lines[i], system) + "\n", more);
  }

  lemma WithinChar(w: string, s: string, p: nat, i: nat)
    requires Within(w, s, p) && i < |w|
    ensures p + i < |s| && s[p + i] == w[i]
  {}

  lemma RunStands(w: string, c: char, s: string, p: nat, run: CharClass)
    requires Within(w + [c], s, p) && (forall i :: 0 <= i < |w| ==> InRun(w[i], run)) && !InRun(c, run)
    ensures RunEnd(s, p, run) == p + |w| < |s| && s[p + |w|] == c
  {
    WithinChar(w + [c], s, p, |w|);
    forall i | p <= i < p + |w| ensures InRun(s[i], run) {
      WithinChar(w + [c], s, p, i - p);
    }
    RunEndUnique(s, p, run, p + |w|);
  }

  lemma BlanksAreRun(t: string)
    requires t == "" || AreBlanks(t)
    ensures forall i :: 0 <= i < |t| ==> InRun(t[i], Blanks)
  {}

  lemma PassedTo(s: string, p: nat, q: nat, next: nat)
    requires p <= |s| && q == RunEnd(s, p, Blanks) < |s| && (s[q] == '\n' || s[q] == '#')
    requires RunEnd(s, q, Until("\n")) + 1 == next <= |s|
    ensures CommentsEnd(s, p) == CommentsEnd(s, next)
  {}

  lemma PassedLine(indent: string, text: string, s: string, p: nat, next: nat)
    requires (indent == "" || AreBlanks(indent)) && '\n' !in text && (text == "" || text[0] == '#')
    requires Within(indent + (text + "\n"), s, p) && next == p + |indent| + |text| + 1
    ensures next <= |s| && CommentsEnd(s, p) == CommentsEnd(s, next)
  {
    var q, tail := p + |indent|, text + "\n";
    WithinSplit(indent, tail, s, p);
    WithinChar(tail, s, q, 0);
    BlanksAreRun(indent);
    assert Within(indent + [tail[0]], s, p);
    RunStands(indent, tail[0], s, p, Blanks);
    RunStands(text, '\n', s, q, Until("\n"));
    PassedTo(s, p, q, next);
  }

  /** A comment or an empty line is passed. */
  lemma CommentPassed(line: Line, system: bool, accounts: map<string, Passwd>, s: string, p: nat, next: nat)
    requires LineOk(line, system, accounts) && !Useful(line) && StandsIn(line, system, s, p)
    requires next == p + |LineText(line, system)| + 1
    ensures next <= |s| && CommentsEnd(s, p) == CommentsEnd(s, next)
  {
    var text := if line.Comment? then "#" + line.text else "";
    assert LineText(line, system) + "\n" == line.indent + (text + "\n");
    PassedLine(line.indent, text, s, p, next);
  }

  /** A useful line is found, and read as a whole. */
  lemma UsefulFound(text: string, s: string, from: nat, p: nat)
    requires text != "" && PlainText(text) && |text| < MAX_ENVSTR && Within(text + "\n", s, p)
    requires text[0] != ' ' && text[0] != '\t' && text[0] != '#' && from <= |s|
    requires CommentsEnd(s, from) == CommentsEnd(s, p)
    ensures CommentsEnd(s, from) == p && NextLine(s, from) == Some(text) && LineEnd(s, from) == p + |text|
  {
    WithinChar(text + "\n", s, p, 0);
    assert RunEnd(s, p, Blanks) == p;
    RunStands(text, '\n', s, p, Until("\n" + [ZERO]));
    assert s[p..p + |text|] == text by {
      forall i | 0 <= i < |text| ensures s[p + i] == text[i] {
        WithinChar(text + "\n", s, p, i);
      }
    }
  }

  // ---------------------------------------------------------------- what a line is

  lemma {:induction false} TextThen(sch: Schedule, blanks: seq<string>, rest: string, more: string, k: nat)
    requires ScheduleOk(sch) && |blanks| == 5 && k <= 5
    ensures TextFrom(sch, blanks, rest + more, k) == TextFrom(sch, blanks, rest, k) + more
    decreases 5 - k
  {
    if k < 5 {
      TextThen(sch, blanks, rest, more, k + 1);
      Associated(FieldText(sch.fields[k]), blanks[k], TextFrom(sch, blanks, rest, k + 1), more);
    }
  }

  lemma Associated(a: string, b: string, c: string, d: string)
    ensures a + (b + (c + d)) == (a + (b + c)) + d
  {}

  lemma PlainJoins(a: string, b: string)
    requires PlainText(a) && PlainText(b)
    ensures PlainText(a + b)
  {}

  lemma HeadIsPlain(t: string)
    requires HeadText(t)
    ensures PlainText(t) && '=' !in t
  {
    forall i | 0 <= i < |t| ensures PlainChar(t[i]) && t[i] != '=' {
      assert HeadChar(t[i]);
    }
  }

  lemma TailIsPlain(line: Line, system: bool, accounts: map<string, Passwd>)
    requires line.Job? && LineOk(line, system, accounts)
    ensures PlainText(JobTail(line, system))
  {
    if system {
      PlainJoins(" ", line.command);
      PlainJoins(line.user, " " + line.command);
    }
  }

  /** A job line is no setting, and nothing in it ends it early. */
  lemma JobText(line: Line, system: bool, accounts: map<string, Passwd>)
    requires line.Job? && LineOk(line, system, accounts)
    ensures var t := LineText(line, system);
            t != "" && PlainText(t) && t[0] != ' ' && t[0] != '\t' && t[0] != '#' && ParseSetting(t) == None
  {
    var tail := JobTail(line, system);
    var head, last := Fields(line.sch, line.blanks, 4), TextFrom(line.sch, line.blanks, tail, 4);
    JobIsSetting(line.sch, line.blanks, tail);
    FieldsThenText(line.sch, line.blanks, tail, 5);
    FieldsAreHead(line.sch, line.blanks, 5);
    HeadIsPlain(Fields(line.sch, line.blanks, 5));
    TailIsPlain(line, system, accounts);
    PlainJoins(Fields(line.sch, line.blanks, 5), tail);
    TextBegins(line.sch, line.blanks, tail, 0);
    FieldTextChars(line.sch.fields[0], 0);
    if '=' !in tail {
      NoEqualsIsNoSetting(LineText(line, system));
    }
  }

  lemma SettingText(line: Line, system: bool, accounts: map<string, Passwd>)
    requires line.Setting? && LineOk(line, system, accounts)
    ensures var t := LineText(line, system);
            t != "" && PlainText(t) && t[0] != ' ' && t[0] != '\t' && t[0] != '#' && ParseSetting(t) == Some(t)
  {
    PlainJoins(line.name, "=");
    PlainJoins(line.name + "=", line.value);
    assert line.name[0] in line.name;
    forall c | c in line.value ensures c != '\n' && c != '#' {
      var i :| 0 <= i < |line.value| && line.value[i] == c;
      assert PlainChar(line.value[i]);
    }
    PlainSettingReads(line.name, line.value);
  }

  /** The account of a job. */
  function AccountOf(line: Line, owner: Option<Passwd>, accounts: map<string, Passwd>): Option<Passwd>
    requires line.Job?
  {
    if owner.Some? then owner else if line.user in accounts then Some(accounts[line.user]) else None
  }

  lemma StandsPart(text: string, s: string, q: nat, end: nat)
    requires Within(text + "\n", s, q) && PlainText(text) && end == q + |text|
    ensures StringEnd(s, q, "\n") == end < |s| && s[q..end] == text
  {
    RunStands(text, '\n', s, q, Until("\n" + [ZERO]));
    assert s[q..end] == text by {
      forall i | 0 <= i < |text| ensures s[q + i] == text[i] {
        WithinChar(text + "\n", s, q, i);
      }
    }
  }

  lemma UserStands(user: string, command: string, s: string, q: nat)
    requires Within((user + (" " + command)) + "\n", s, q) && PlainText(command)
    requires forall i :: 0 <= i < |user| ==> PlainChar(user[i]) && user[i] != ' ' && user[i] != '\t'
    ensures var u := q + |user|; StringEnd(s, q, " \t") == u < |s| && s[q..u] == user
    ensures Within(command + "\n", s, q + |user| + 1)
  {
    var u := q + |user|;
    assert (user + (" " + command)) + "\n" == (user + [' ']) + (command + "\n");
    WithinSplit(user + [' '], command + "\n", s, q);
    RunStands(user, ' ', s, q, Until(" \t" + [ZERO]));
    assert s[q..u] == user by {
      forall i | 0 <= i < |user| ensures s[q + i] == user[i] {
        WithinChar(user + [' '], s, q, i);
      }
    }
  }

  lemma CommandStands(command: string, s: string, c: nat, end: nat, pw: Passwd)
    requires Within(command + "\n", s, c) && PlainText(command) && |command| < MAX_COMMAND && end == c + |command|
    ensures c <= |s| && CommandAt(s, c, pw) == Some(Tail(pw, command, end))
  {
    StandsPart(command, s, c, end);
  }

  lemma SystemTailStands(user: string, command: string, s: string, q: nat, end: nat, accounts: map<string, Passwd>)
    requires Within((user + (" " + command)) + "\n", s, q) && PlainText(command) && |command| < MAX_COMMAND
    requires user in accounts && |user| < MAX_COMMAND && end == q + |user| + 1 + |command|
    requires forall i :: 0 <= i < |user| ==> PlainChar(user[i]) && user[i] != ' ' && user[i] != '\t'
    ensures q <= |s| && TailAt(s, q, None, accounts) == Some(Tail(accounts[user], command, end))
  {
    UserStands(user, command, s, q);
    CommandStands(command, s, q + |user| + 1, end, accounts[user]);
  }

  /** User and command of a job. */
  lemma TailStands(line: Line, s: string, q: nat, end: nat, owner: Option<Passwd>, accounts: map<string, Passwd>)
    requires line.Job? && LineOk(line, owner == None, accounts) && Within(JobTail(line, owner == None) + "\n", s, q)
    requires end == q + |JobTail(line, owner == None)|
    ensures q <= |s| && AccountOf(line, owner, accounts).Some?
    ensures TailAt(s, q, owner, accounts) == Some(Tail(AccountOf(line, owner, accounts).value, line.command, end))
  {
    if owner == None {
      SystemTailStands(line.user, line.command, s, q, end, accounts);
    } else {
      CommandStands(line.command, s, q, end, owner.value);
    }
  }

  // ---------------------------------------------------------------- the course of the loader

  /** Where the reader stands after these lines: comments are read with what follows them. */
  function EndOf(lines: seq<Line>, system: bool): nat
    requires AllPrintable(lines)
  {
    if lines == [] then 0
    else if Useful(lines[|lines| - 1]) then |Text(lines, system)|
    else EndOf(lines[..|lines| - 1], system)
  }

  function RoundOf(line: Line, system: bool, pos: nat): Round
    requires Printable(line) && Useful(line)
  {
    if line.Job? then Accept(pos) else Set(pos, LineText(line, system))
  }

  function RoundsOf(lines: seq<Line>, system: bool): seq<Round>
    requires AllPrintable(lines)
  {
    if lines == [] then []
    else
      var before, last := lines[..|lines| - 1], lines[|lines| - 1];
      RoundsOf(before, system) + (if Useful(last) then [RoundOf(last, system, EndOf(before, system))] else [])
  }

  /** One round, at `from`, for the useful line that stands at `p`. */
  lemma JobRound(line: Line, s: string, from: nat, p: nat, end: nat, owner: Option<Passwd>,
                 accounts: map<string, Passwd>)
    requires line.Job? && LineOk(line, owner == None, accounts) && StandsIn(line, owner == None, s, p)
    requires from <= |s| && CommentsEnd(s, from) == CommentsEnd(s, p) && end == p + |LineText(line, owner == None)|
    ensures CommentsEnd(s, from) == p < |s| && NextLine(s, from) == Some(LineText(line, owner == None))
    ensures EntryOk(s, from, owner, accounts) && !LineHangs(s, from) && EntryEnd(s, from, owner, accounts) == end
  {
    var tail := JobTail(line, owner == None);
    JobText(line, owner == None, accounts);
    UsefulFound(LineText(line, owner == None), s, from, p);
    TextThen(line.sch, line.blanks, tail, "\n", 0);
    assert RestOk(tail + "\n");
    ScheduleRuns(line.sch, line.blanks, tail + "\n", s, p);
    TailStands(line, s, TailStart(s, p), end, owner, accounts);
  }

  lemma SettingRound(line: Line, s: string, from: nat, p: nat, end: nat, system: bool, accounts: map<string, Passwd>)
    requires line.Setting? && LineOk(line, system, accounts) && StandsIn(line, system, s, p)
    requires from <= |s| && CommentsEnd(s, from) == CommentsEnd(s, p) && end == p + |LineText(line, system)|
    ensures CommentsEnd(s, from) == p && NextLine(s, from) == Some(LineText(line, system))
    ensures ParseSetting(LineText(line, system)) == Some(LineText(line, system)) && LineEnd(s, from) == end < |s|
  {
    SettingText(line, system, accounts);
    UsefulFound(LineText(line, system), s, from, p);
    WithinChar(LineText(line, system) + "\n", s, p, |LineText(line, system)|);
  }

  /** The round of a useful line that stands at `p`. */
  lemma LineRound(line: Line, s: string, from: nat, p: nat, end: nat, owner: Option<Passwd>,
                  accounts: map<string, Passwd>)
    requires Useful(line) && LineOk(line, owner == None, accounts) && StandsIn(line, owner == None, s, p)
    requires from <= p && CommentsEnd(s, from) == CommentsEnd(s, p) && end == p + |LineText(line, owner == None)|
    ensures var r := RoundOf(line, owner == None, from);
            RoundOk(s, r, owner, accounts) && Leaves(s, r, end + 1, owner, accounts)
  {
    WithinChar(LineText(line, owner == None) + "\n", s, p, |LineText(line, owner == None)|);
    if line.Job? {
      JobText(line, owner == None, accounts);
      JobRound(line, s, from, p, end, owner, accounts);
    } else {
      SettingRound(line, s, from, p, end, owner == None, accounts);
    }
  }

  /** The loader has done `rounds` and stands at `from`; what it will find next is what begins at `start`. */
  ghost predicate FoundJob(s: string, rounds: seq<Round>, from: nat, start: nat, owner: Option<Passwd>,
                        accounts: map<string, Passwd>) {
    && from <= start <= |s| && CommentsEnd(s, from) == CommentsEnd(s, start)
    && Covers(s, rounds, from, owner, accounts)
  }

  lemma FoundUseful(line: Line, s: string, rounds: seq<Round>, from: nat, p: nat, now: seq<Round>, next: nat,
                    owner: Option<Passwd>, accounts: map<string, Passwd>)
    requires Useful(line) && LineOk(line, owner == None, accounts) && StandsIn(line, owner == None, s, p)
    requires FoundJob(s, rounds, from, p, owner, accounts) && next == p + |LineText(line, owner == None)| + 1
    requires now == rounds + [RoundOf(line, owner == None, from)]
    ensures FoundJob(s, now, next, next, owner, accounts)
  {
    LineRound(line, s, from, p, next - 1, owner, accounts);
    CoversGrow(s, rounds, RoundOf(line, owner == None, from), next, owner, accounts);
  }

  lemma FoundPassed(line: Line, s: string, rounds: seq<Round>, from: nat, p: nat, next: nat, owner: Option<Passwd>,
                    accounts: map<string, Passwd>)
    requires !Useful(line) && LineOk(line, owner == None, accounts) && StandsIn(line, owner == None, s, p)
    requires FoundJob(s, rounds, from, p, owner, accounts) && next == p + |LineText(line, owner == None)| + 1
    ensures FoundJob(s, rounds, from, next, owner, accounts)
  {
    CommentPassed(line, owner == None, accounts, s, p, next);
  }

  /** The loader has come through these lines. */
  ghost predicate Through(lines: seq<Line>, system: bool, s: string, owner: Option<Passwd>,
                          accounts: map<string, Passwd>)
    requires AllPrintable(lines)
  {
    FoundJob(s, RoundsOf(lines, system), EndOf(lines, system), |Text(lines, system)|, owner, accounts)
  }

  /** One more line. */
  lemma LinesGrow(before: seq<Line>, line: Line, lines: seq<Line>, system: bool)
    requires lines == before + [line] && AllPrintable(lines) && AllPrintable(before) && Printable(line)
    ensures |Text(lines, system)| == |Text(before, system)| + |LineText(line, system)| + 1
    ensures EndOf(lines, system) == if Useful(line) then |Text(lines, system)| else EndOf(before, system)
    ensures RoundsOf(lines, system) ==
            if Useful(line) then RoundsOf(before, system) + [RoundOf(line, system, EndOf(before, system))]
            else RoundsOf(before, system)
  {
    assert lines[..|lines| - 1] == before && lines[|lines| - 1] == line;
    TextGrows(before, line, lines, system);
  }

  lemma ThroughOne(before: seq<Line>, line: Line, lines: seq<Line>, s: string, owner: Option<Passwd>,
                   accounts: map<string, Passwd>)
    requires lines == before + [line] && AllPrintable(lines) && AllPrintable(before)
    requires LineOk(line, owner == None, accounts)
    requires Through(before, owner == None, s, owner, accounts)
    requires StandsIn(line, owner == None, s, |Text(before, owner == None)|)
    ensures Through(lines, owner == None, s, owner, accounts)
  {
    var system := owner == None;
    var rounds, from, p := RoundsOf(before, system), EndOf(before, system), |Text(before, system)|;
    PrintableBefore(before, line, lines);
    LinesGrow(before, line, lines, system);
    if Useful(line) {
      FoundUseful(line, s, rounds, from, p, RoundsOf(lines, system), |Text(lines, system)|, owner, accounts);
    } else {
      FoundPassed(line, s, rounds, from, p, |Text(lines, system)|, owner, accounts);
    }
  }

  lemma ThroughNone(s: string, owner: Option<Passwd>, accounts: map<string, Passwd>)
    ensures Through([], owner == None, s, owner, accounts)
  {}

  lemma OneMoreLine(lines: seq<Line>, j: nat)
    requires j < |lines|
    ensures lines[..j + 1] == lines[..j] + [lines[j]]
  {}

  lemma ThroughStep(lines: seq<Line>, j: nat, line: Line, before: seq<Line>, now: seq<Line>, s: string,
                    owner: Option<Passwd>, accounts: map<string, Passwd>)
    requires AllPrintable(lines) && s == Text(lines, owner == None) && LineOk(line, owner == None, accounts)
    requires j < |lines| && line == lines[j] && before == lines[..j] && now == lines[..j + 1] == before + [line]
    requires AllPrintable(before) && AllPrintable(now) && Through(before, owner == None, s, owner, accounts)
    ensures Through(now, owner == None, s, owner, accounts)
  {
    LineStandsIn(lines, owner == None, j, before, now);
    ThroughOne(before, line, now, s, owner, accounts);
  }

  lemma {:induction false} ThroughLines(lines: seq<Line>, k: nat, s: string, owner: Option<Passwd>,
                                        accounts: map<string, Passwd>)
    requires LinesOk(lines, owner == None, accounts) && AllPrintable(lines) && k <= |lines|
    requires s == Text(lines, owner == None)
    ensures Through(lines[..k], owner == None, s, owner, accounts)
  {
    if k == 0 {
      ThroughNone(s, owner, accounts);
    } else {
      var j := k - 1;
      ThroughLines(lines, j, s, owner, accounts);
      OneMoreLine(lines, j);
      ThroughStep(lines, j, lines[j], lines[..j], lines[..k], s, owner, accounts);
    }
  }

  lemma EndOfText(s: string)
    ensures NextLine(s, |s|) == None
  {}

  lemma SameNextLine(s: string, p: nat, q: nat)
    requires p <= |s| && q <= |s| && CommentsEnd(s, p) == CommentsEnd(s, q)
    ensures NextLine(s, p) == NextLine(s, q)
  {}

  /** The rounds that a crontab of plain lines calls for take its whole text. */
  lemma PlainCourse(lines: seq<Line>, s: string, owner: Option<Passwd>, accounts: map<string, Passwd>)
    requires LinesOk(lines, owner == None, accounts) && AllPrintable(lines) && s == Text(lines, owner == None)
    ensures Covers(s, RoundsOf(lines, owner == None), EndOf(lines, owner == None), owner, accounts)
    ensures AtEnd(s, EndOf(lines, owner == None))
  {
    ThroughLines(lines, |lines|, s, owner, accounts);
    assert lines[..|lines|] == lines;
    EndOfText(s);
    SameNextLine(s, EndOf(lines, owner == None), |s|);
  }

  // ---------------------------------------------------------------- what is loaded

  /** The settings of these lines, one after the other. */
  function Settings(lines: seq<Line>, system: bool): seq<string>
    requires AllPrintable(lines)
  {
    if lines == [] then []
    else
      var before, last := lines[..|lines| - 1], lines[|lines| - 1];
      if last.Setting? then Updated(Settings(before, system), LineText(last, system)) else Settings(before, system)
  }

  /** Which lines are jobs. */
  function Jobs(lines: seq<Line>): (jobs: seq<nat>)
    ensures forall k :: 0 <= k < |jobs| ==> jobs[k] < |lines| && lines[jobs[k]].Job?
  {
    if lines == [] then []
    else
      var n := |lines| - 1;
      Jobs(lines[..n]) + (if lines[n].Job? then [n] else [])
  }

  /** What the `k`-th job is loaded from. */
  function LoadOf(lines: seq<Line>, system: bool, k: nat): (nat, seq<string>)
    requires AllPrintable(lines) && k < |Jobs(lines)|
  {
    var before := lines[..Jobs(lines)[k]];
    (EndOf(before, system), Settings(before, system))
  }

  ghost predicate LoadsAre(lines: seq<Line>, system: bool, loads: seq<(nat, seq<string>)>)
    requires AllPrintable(lines)
  {
    |loads| == |Jobs(lines)| && forall k :: 0 <= k < |loads| ==> loads[k] == LoadOf(lines, system, k)
  }

  lemma JobsGrow(before: seq<Line>, line: Line, lines: seq<Line>, system: bool)
    requires lines == before + [line] && AllPrintable(lines) && AllPrintable(before) && Printable(line)
    ensures Jobs(lines) == if line.Job? then Jobs(before) + [|before|] else Jobs(before)
    ensures Settings(lines, system) ==
            if line.Setting?
              then Updated(Settings(before, system), LineText(line, system)) else Settings(before, system)
  {
    assert lines[..|lines| - 1] == before && lines[|lines| - 1] == line;
  }

  lemma LoadOfBefore(before: seq<Line>, line: Line, lines: seq<Line>, system: bool, k: nat)
    requires lines == before + [line] && AllPrintable(lines) && AllPrintable(before) && Printable(line)
    requires k < |Jobs(before)|
    ensures k < |Jobs(lines)| && LoadOf(lines, system, k) == LoadOf(before, system, k)
  {
    JobsGrow(before, line, lines, system);
    assert before[..Jobs(before)[k]] == lines[..Jobs(before)[k]];
  }

  lemma LoadOfLast(before: seq<Line>, line: Line, lines: seq<Line>, system: bool)
    requires lines == before + [line] && AllPrintable(lines) && AllPrintable(before) && Printable(line) && line.Job?
    ensures |Jobs(lines)| == |Jobs(before)| + 1
    ensures LoadOf(lines, system, |Jobs(before)|) == (EndOf(before, system), Settings(before, system))
  {
    JobsGrow(before, line, lines, system);
    assert lines[..|before|] == before;
  }

  lemma LoadsGrow(before: seq<Line>, line: Line, lines: seq<Line>, system: bool, loads: seq<(nat, seq<string>)>,
                  now: seq<(nat, seq<string>)>)
    requires lines == before + [line] && AllPrintable(lines) && AllPrintable(before) && Printable(line)
    requires LoadsAre(before, system, loads)
    requires now == if line.Job? then loads + [(EndOf(before, system), Settings(before, system))] else loads
    ensures LoadsAre(lines, system, now)
  {
    JobsGrow(before, line, lines, system);
    if line.Job? {
      LoadOfLast(before, line, lines, system);
    }
    forall k | 0 <= k < |now| ensures now[k] == LoadOf(lines, system, k) {
      if k < |loads| {
        LoadOfBefore(before, line, lines, system, k);
      }
    }
  }

  lemma {:induction false} RoundsLoad(lines: seq<Line>, system: bool)
    requires AllPrintable(lines)
    ensures EnvAfter(RoundsOf(lines, system)) == Settings(lines, system)
    ensures LoadsAre(lines, system, Accepted(RoundsOf(lines, system)))
  {
    if lines != [] {
      var n := |lines| - 1;
      var before, line := lines[..n], lines[n];
      assert lines == before + [line];
      PrintableBefore(before, line, lines);
      LinesGrow(before, line, lines, system);
      RoundsLoad(before, system);
      if Useful(line) {
        RoundsGrow(RoundsOf(before, system), RoundOf(line, system, EndOf(before, system)));
      }
      JobsGrow(before, line, lines, system);
      LoadsGrow(before, line, lines, system, Accepted(RoundsOf(before, system)), Accepted(RoundsOf(lines, system)));
    }
  }

  /** What a job that stands at `p` means. */
  lemma JobMeans(line: Line, s: string, p: nat, owner: Option<Passwd>, accounts: map<string, Passwd>)
    requires line.Job? && LineOk(line, owner == None, accounts) && StandsIn(line, owner == None, s, p)
    ensures p < |s| && s[p] != '@' && AccountOf(line, owner, accounts).Some?
    ensures var tail := TailAt(s, TailStart(s, p), owner, accounts);
            tail.Some? && tail.value.pw == AccountOf(line, owner, accounts).value && tail.value.cmd == line.command
    ensures forall tm | ValidTm(tm) :: EntryNames(s, p, tm) <==> Runs(line.sch, tm)
  {
    var tail := JobTail(line, owner == None);
    TextThen(line.sch, line.blanks, tail, "\n", 0);
    assert RestOk(tail + "\n");
    ScheduleRuns(line.sch, line.blanks, tail + "\n", s, p);
    TailStands(line, s, TailStart(s, p), TailStart(s, p) + |tail|, owner, accounts);
  }

  /** An entry is that job, in an environment. */
  ghost predicate EntryIs(v: EntryView, line: Line, env: seq<string>, owner: Option<Passwd>,
                          accounts: map<string, Passwd>)
    requires line.Job? && ScheduleOk(line.sch)
  {
    var account := AccountOf(line, owner, accounts);
    && account.Some? && v.cmd == line.command && v.uid == account.value.uid && v.gid == account.value.gid
    && v.env == EntryEnv(env, account.value) && !Fires(v, Reboot)
    && forall tm | ValidTm(tm) :: Fires(v, Minute(tm)) <==> Runs(line.sch, tm)
  }

  lemma ViewIsJob(v: EntryView, line: Line, s: string, p: nat, env: seq<string>, owner: Option<Passwd>,
                  accounts: map<string, Passwd>)
    requires line.Job? && LineOk(line, owner == None, accounts) && StandsIn(line, owner == None, s, p)
    requires p < |s| && ViewLoaded(v, s, p, owner, accounts, env)
    ensures EntryIs(v, line, env, owner, accounts)
  {
    JobMeans(line, s, p, owner, accounts);
    FiresAsWritten(v, s, p, owner, accounts, env, Tm(0, 0, 1, 0, 0));
    forall tm | ValidTm(tm) ensures Fires(v, Minute(tm)) <==> Runs(line.sch, tm) {
      FiresAsWritten(v, s, p, owner, accounts, env, tm);
    }
  }

  lemma JobFoundAt(line: Line, s: string, rounds: seq<Round>, from: nat, p: nat, owner: Option<Passwd>,
                   accounts: map<string, Passwd>)
    requires line.Job? && LineOk(line, owner == None, accounts) && StandsIn(line, owner == None, s, p)
    requires FoundJob(s, rounds, from, p, owner, accounts)
    ensures from <= |s| && CommentsEnd(s, from) == p < |s|
  {
    JobRound(line, s, from, p, p + |LineText(line, owner == None)|, owner, accounts);
  }

  /** Where the loader finds the job that is line `i`. */
  lemma JobFound(lines: seq<Line>, i: nat, before: seq<Line>, s: string, owner: Option<Passwd>,
                 accounts: map<string, Passwd>)
    returns (p: nat)
    requires LinesOk(lines, owner == None, accounts) && AllPrintable(lines) && s == Text(lines, owner == None)
    requires i < |lines| && lines[i].Job? && before == lines[..i] && AllPrintable(before)
    ensures var from := EndOf(before, owner == None); from <= |s| && CommentsEnd(s, from) == p < |s|
    ensures StandsIn(lines[i], owner == None, s, p)
  {
    var system := owner == None;
    ThroughLines(lines, i, s, owner, accounts);
    LineStandsIn(lines, system, i, before, lines[..i + 1]);
    p := |Text(before, system)|;
    JobFoundAt(lines[i], s, RoundsOf(before, system), EndOf(before, system), p, owner, accounts);
  }

  lemma PlainRounds(lines: seq<Line>, s: string, rounds: seq<Round>, pos: nat, tab: seq<EntryView>,
                    owner: Option<Passwd>, accounts: map<string, Passwd>)
    requires LinesOk(lines, owner == None, accounts) && AllPrintable(lines) && s == Text(lines, owner == None)
    requires Complete(s, rounds, pos, tab, owner, accounts)
    ensures rounds == RoundsOf(lines, owner == None) && |tab| == |Jobs(lines)|
    ensures LoadsAre(lines, owner == None, Accepted(rounds)) && TabLoaded(tab, s, Accepted(rounds), owner, accounts)
  {
    PlainCourse(lines, s, owner, accounts);
    RoundsAreDetermined(s, rounds, pos, RoundsOf(lines, owner == None), EndOf(lines, owner == None), owner, accounts);
    RoundsLoad(lines, owner == None);
    TabLength(tab, s, Accepted(rounds), owner, accounts);
  }

  lemma LoadedIsJob(v: EntryView, line: Line, s: string, from: nat, env: seq<string>, p: nat, owner: Option<Passwd>,
                    accounts: map<string, Passwd>)
    requires line.Job? && LineOk(line, owner == None, accounts) && StandsIn(line, owner == None, s, p)
    requires LoadedFrom(v, s, (from, env), owner, accounts) && from <= |s| && CommentsEnd(s, from) == p
    ensures EntryIs(v, line, env, owner, accounts)
  {
    ViewIsJob(v, line, s, p, env, owner, accounts);
  }

  lemma EntryAtLoad(tab: seq<EntryView>, s: string, loads: seq<(nat, seq<string>)>, m: nat,
                    load: (nat, seq<string>), owner: Option<Passwd>, accounts: map<string, Passwd>)
    requires m < |tab| && m < |loads| && load == loads[|loads| - 1 - m]
    requires EntryAt(tab, s, loads, m, owner, accounts)
    ensures LoadedFrom(tab[m], s, load, owner, accounts)
  {}

  lemma LoadOfJob(lines: seq<Line>, system: bool, k: nat, i: nat, before: seq<Line>)
    requires AllPrintable(lines) && AllPrintable(before) && k < |Jobs(lines)| && i == Jobs(lines)[k]
    requires before == lines[..i]
    ensures LoadOf(lines, system, k) == (EndOf(before, system), Settings(before, system))
  {}

  lemma LoadFromEnd(lines: seq<Line>, system: bool, loads: seq<(nat, seq<string>)>, k: nat, m: nat, i: nat,
                    before: seq<Line>)
    requires AllPrintable(lines) && AllPrintable(before) && LoadsAre(lines, system, loads)
    requires k < |loads| && m == |loads| - 1 - k && k < |Jobs(lines)| && i == Jobs(lines)[k] && before == lines[..i]
    ensures loads[|loads| - 1 - m] == (EndOf(before, system), Settings(before, system))
  {
    LoadOfJob(lines, system, k, i, before);
    assert loads[k] == LoadOf(lines, system, k);
  }

  lemma PlainEntry(lines: seq<Line>, s: string, loads: seq<(nat, seq<string>)>, tab: seq<EntryView>, k: nat, m: nat,
                   i: nat, before: seq<Line>, owner: Option<Passwd>, accounts: map<string, Passwd>)
    requires LinesOk(lines, owner == None, accounts) && AllPrintable(lines) && s == Text(lines, owner == None)
    requires LoadsAre(lines, owner == None, loads) && TabLoaded(tab, s, loads, owner, accounts)
    requires k < |tab| == |loads| && m == |tab| - 1 - k && i == Jobs(lines)[k]
    requires before == lines[..i] && AllPrintable(before)
    ensures EntryIs(tab[m], lines[i], Settings(before, owner == None), owner, accounts)
  {
    var from, env := EndOf(before, owner == None), Settings(before, owner == None);
    TabEntry(tab, s, loads, m, owner, accounts);
    var p := JobFound(lines, i, before, s, owner, accounts);
    LoadFromEnd(lines, owner == None, loads, k, m, i, before);
    EntryAtLoad(tab, s, loads, m, (from, env), owner, accounts);
    LoadedIsJob(tab[m], lines[i], s, from, env, p, owner, accounts);
  }

  /** A crontab of plain lines is loaded as its jobs and nothing else, the last first; the `k`-th, line `i`, has its
      command and its account, the settings before it, and runs exactly when its schedule says. */
  lemma PlainCrontabLoads(lines: seq<Line>, s: string, rounds: seq<Round>, pos: nat, tab: seq<EntryView>, k: nat,
                          i: nat, before: seq<Line>, owner: Option<Passwd>, accounts: map<string, Passwd>)
    returns (m: nat, v: EntryView)
    requires LinesOk(lines, owner == None, accounts) && AllPrintable(lines) && s == Text(lines, owner == None)
    requires Complete(s, rounds, pos, tab, owner, accounts)
    requires k < |Jobs(lines)| && i == Jobs(lines)[k] && before == lines[..i]
    ensures |tab| == |Jobs(lines)| && m < |tab| && m + k == |tab| - 1 && v == tab[m]
    ensures EntryIs(v, lines[i], Settings(before, owner == None), owner, accounts)
  {
    PlainRounds(lines, s, rounds, pos, tab, owner, accounts);
    m := |tab| - 1 - k;
    v := tab[m];
    PrintablePrefix(lines, i, before);
    PlainEntry(lines, s, Accepted(rounds), tab, k, m, i, before, owner, accounts);
  }

  /** And the loader comes to its end: no line of it loops. */
  lemma PlainNeverHangs(lines: seq<Line>, s: string, rounds: seq<Round>, pos: nat, owner: Option<Passwd>,
                        accounts: map<string, Passwd>)
    requires LinesOk(lines, owner == None, accounts) && AllPrintable(lines) && s == Text(lines, owner == None)
    requires Covers(s, rounds, pos, owner, accounts)
    ensures !LineHangs(s, pos)
  {
    PlainCourse(lines, s, owner, accounts);
    CompleteNoHang(s, rounds, pos, RoundsOf(lines, owner == None), EndOf(lines, owner == None), owner, accounts);
  }

  /** The value of the last setting of a name. */
  function LastSetting(lines: seq<Line>, name: string): Option<string> {
    if lines == [] then None
    else
      var last := lines[|lines| - 1];
      if last.Setting? && last.name == name then Some(last.value) else LastSetting(lines[..|lines| - 1], name)
  }

  /** What the settings of a text come to. */
  lemma {:induction false} SettingsLookup(lines: seq<Line>, system: bool, accounts: map<string, Passwd>, name: string)
    requires LinesOk(lines, system, accounts) && AllPrintable(lines)
    ensures UniqueNames(Settings(lines, system)) && Lookup(Settings(lines, system), name) == LastSetting(lines, name)
  {
    if lines != [] {
      var n := |lines| - 1;
      var line, env := lines[n], Settings(lines[..n], system);
      SettingsLookup(lines[..n], system, accounts, name);
      if line.Setting? {
        assert LineOk(line, system, accounts);
        PrintedSetting(line.name, line.value);
        UpdatedUnique(env, line.name + "=" + line.value);
        UpdatedIsMapUpdate(env, line.name + "=" + line.value, name);
      }
    }
  }

  /** The environment of a job: the last settings before it, with SHELL, HOME and PATH by default and LOGNAME
      in any case. */
  lemma JobEnvironment(lines: seq<Line>, i: nat, v: EntryView, name: string, owner: Option<Passwd>,
                       accounts: map<string, Passwd>)
    requires LinesOk(lines, owner == None, accounts) && AllPrintable(lines) && i < |lines| && lines[i].Job?
    requires EntryIs(v, lines[i], Settings(lines[..i], owner == None), owner, accounts)
    ensures var pw := AccountOf(lines[i], owner, accounts).value;
            var last := LastSetting(lines[..i], name);
            Lookup(v.env, name) ==
            if name == "LOGNAME" then Some(pw.name)
            else if last.Some? then last
            else if name == "SHELL" then Some("/bin/sh")
            else if name == "HOME" then Some(pw.dir)
            else if name == "PATH" then Some("/usr/bin:/bin")
            else None
  {
    var before := lines[..i];
    assert LinesOk(before, owner == None, accounts) by {
      forall j | 0 <= j < i ensures LineOk(before[j], owner == None, accounts) {
        assert before[j] == lines[j];
      }
    }
    SettingsLookup(before, owner == None, accounts, name);
    EntryEnvLookup(Settings(before, owner == None), AccountOf(lines[i], owner, accounts).value, name);
  }
}
