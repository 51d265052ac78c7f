/** Reading a crontab character by character (misc.c): one character of look-ahead, strings up to a
    terminator, comment lines. */
module CronText {

  /** What reading one character gives: the end of the file, or a character. */
  datatype Look = Eof | Ch(c: char)

  const BYTE_FF := 255 as char

  /** The conversion to plain `char` that every parser function applies to the character it
      returns: where `char` is signed, byte 0xff turns into -1, which is EOF. */
  function Narrow(l: Look): Look {
    if l == Ch(BYTE_FF) then Eof else l
  }

  function LookAt(s: string, p: nat): Look {
    if p < |s| then Ch(s[p]) else Eof
  }

  /** Where the reader stands once the character at `p` is the look-ahead. */
  function After(s: string, p: nat): nat {
    if p < |s| then p + 1 else |s|
  }

  /** Kinds of characters that are read in runs. */
  datatype CharClass = Alnums | Blanks | Nonblanks | Until(terms: string)

  predicate IsDigit(c: char) { '0' <= c <= '9' }

  predicate IsAlnum(c: char) {
    IsDigit(c) || 'a' <= c <= 'z' || 'A' <= c <= 'Z'
  }

  predicate IsBlank(c: char) { c == ' ' || c == '\t' }

  predicate InRun(c: char, run: CharClass) {
    match run
    case Alnums => IsAlnum(c)
    case Blanks => IsBlank(c)
    case Nonblanks => !IsBlank(c) && c != '\n'
    case Until(terms) => c !in terms
  }

  /** The end of the maximal run that starts at `p`. */
  function RunEnd(s: string, p: nat, run: CharClass): (end: nat)
    requires p <= |s|
    ensures p <= end <= |s|
    decreases |s| - p
  {
    if p < |s| && InRun(s[p], run) then RunEnd(s, p + 1, run) else p
  }

  lemma {:induction false} RunEndStops(s: string, p: nat, run: CharClass)
    requires p <= |s|
    ensures forall i :: p <= i < RunEnd(s, p, run) ==> InRun(s[i], run)
    ensures RunEnd(s, p, run) < |s| ==> !InRun(s[RunEnd(s, p, run)], run)
    decreases |s| - p
  {
    if p < |s| && InRun(s[p], run) {
      RunEndStops(s, p + 1, run);
    }
  }

  /** The end of a run is the only place that is preceded by the run and not followed by it. */
  lemma {:induction false} RunEndUnique(s: string, p: nat, run: CharClass, end: nat)
    requires p <= end <= |s|
    requires forall i :: p <= i < end ==> InRun(s[i], run)
    requires end < |s| ==> !InRun(s[end], run)
    ensures RunEnd(s, p, run) == end
    decreases end - p
  {
    if p < end {
      RunEndUnique(s, p + 1, run, end);
    }
  }

  /** Past blank lines, comment lines and the blanks that begin the next useful line. */
  function CommentsEnd(s: string, p: nat): (end: nat)
    requires p <= |s|
    ensures p <= end <= |s|
    ensures end < |s| ==> !IsBlank(s[end]) && s[end] != '\n' && s[end] != '#'
    decreases |s| - p
  {
    var q := RunEnd(s, p, Blanks);
    RunEndStops(s, p, Blanks);
    if q == |s| || (s[q] != '\n' && s[q] != '#') then q
    else
      var r := RunEnd(s, q, Until("\n"));
      if r == |s| then r else CommentsEnd(s, r + 1)
  }

  lemma NoNewlineBefore(s: string, p: nat, q: nat, r: nat)
    requires p <= |s| && q == RunEnd(s, p, Blanks) && r == RunEnd(s, q, Until("\n"))
    ensures forall n :: p <= n < r ==> s[n] != '\n'
  {
    RunEndStops(s, p, Blanks);
    RunEndStops(s, q, Until("\n"));
    forall n | p <= n < r ensures s[n] != '\n' {
      assert if n < q then InRun(s[n], Blanks) else InRun(s[n], Until("\n"));
    }
  }

  /** What is passed are blank lines and comment lines only: each of their lines, up to `c`, is blanks, and
      there it ends, becomes a comment, or is the useful one. */
  lemma {:induction false} OnlyCommentsPassed(s: string, p: nat, i: nat) returns (c: nat)
    requires p <= |s| && p <= i < CommentsEnd(s, p) && (i == p || s[i - 1] == '\n')
    ensures i <= c <= |s| && forall n :: i <= n < c ==> s[n] == ' ' || s[n] == '\t'
    ensures c == CommentsEnd(s, p) || c == |s| || s[c] == '\n' || s[c] == '#'
    decreases |s| - p
  {
    var q := RunEnd(s, p, Blanks);
    RunEndStops(s, p, Blanks);
    var r := RunEnd(s, q, Until("\n"));
    if i == p {
      c := q;
      assert forall n :: p <= n < q ==> InRun(s[n], Blanks);
    } else {
      NoNewlineBefore(s, p, q, r);
      c := OnlyCommentsPassed(s, r + 1, i);
    }
  }

  function Truncated(s: string, room: nat): string {
    if |s| <= room then s else s[..room]
  }

  lemma TruncatedIs(s: string, room: nat)
    ensures Truncated(s, room) <= s && |Truncated(s, room)| == if |s| <= room then |s| else room
  {}

  lemma TruncatedGrows(s: string, start: nat, p: nat, room: nat)
    requires start <= p < |s|
    ensures var str := Truncated(s[start..p], room);
            Truncated(s[start..p + 1], room) == if |str| < room then str + [s[p]] else str
  {
    assert s[start..p + 1] == s[start..p] + [s[p]];
  }

  const ZERO := 0 as char

  /** Where `get_string` stops. */
  function StringEnd(s: string, p: nat, terms: string): nat
    requires p <= |s|
  {
    RunEnd(s, p, Until(terms + [ZERO]))
  }

  class CrontabFile {
    const text: string
    var pos: nat

    ghost predicate Valid()
      reads this
    {
      pos <= |text|
    }

    constructor (text: string)
      ensures Valid() && this.text == text && pos == 0
    {
      this.text := text;
      pos := 0;
    }

    method GetChar() returns (ch: Look)
      requires Valid()
      modifies this
      ensures Valid()
      ensures ch == LookAt(text, old(pos)) && pos == After(text, old(pos))
    {
      ch := LookAt(text, pos);
      if ch.Ch? {
        pos := pos + 1;
      }
    }

    /** Pushes the last character read back; the end of the file cannot be pushed back. */
    method UngetChar(ch: Look)
      requires Valid()
      requires ch.Ch? ==> pos > 0 && text[pos - 1] == ch.c
      modifies this
      ensures Valid()
      ensures pos == if ch.Ch? then old(pos) - 1 else old(pos)
    {
      if ch.Ch? {
        pos := pos - 1;
      }
    }

    /** Reads on while the look-ahead, which stands at `p`, belongs to the run (the blank-skipping
        macros of cron.h). */
    method SkipRun(run: CharClass, ch: Look, ghost p: nat) returns (next: Look)
      requires Valid() && p <= |text|
      requires ch == LookAt(text, p) && pos == After(text, p)
      modifies this
      ensures Valid()
      ensures next == LookAt(text, RunEnd(text, p, run)) && pos == After(text, RunEnd(text, p, run))
    {
      next := ch;
      ghost var q := p;
      while next.Ch? && InRun(next.c, run)
        invariant Valid() && p <= q <= |text|
        invariant next == LookAt(text, q) && pos == After(text, q)
        invariant RunEnd(text, p, run) == RunEnd(text, q, run)
        decreases |text| - q
      {
        next := GetChar();
        q := q + 1;
      }
    }

    /** Reads up to and including a terminator, keeping at most `size - 1` characters. A zero
        character always terminates, since `strchr` finds it at the end of any terminator list. */
    method GetString(size: nat, terms: string) returns (str: string, ch: Look)
      requires Valid() && size > 0
      modifies this
      ensures Valid()
      ensures var end := StringEnd(text, old(pos), terms);
              && str == Truncated(text[old(pos)..end], size - 1)
              && ch == LookAt(text, end)
              && pos == After(text, end)
    {
      ghost var start := pos;
      ghost var end := StringEnd(text, pos, terms);
      str := "";
      ch := GetChar();
      ghost var p := start;
      while ch.Ch? && ch.c !in terms && ch.c != ZERO
        invariant start <= p <= |text| && Valid()
        invariant end == StringEnd(text, p, terms)
        invariant ch == LookAt(text, p) && pos == After(text, p)
        invariant str == Truncated(text[start..p], size - 1)
        decreases |text| - p
      {
        assert InRun(text[p], Until(terms + [ZERO]));
        TruncatedGrows(text, start, p, size - 1);
        if |str| < size - 1 {
          str := str + [ch.c];
        }
        ch := GetChar();
        p := p + 1;
      }
      assert p < |text| ==> !InRun(text[p], Until(terms + [ZERO]));
    }

    method SkipComments()
      requires Valid()
      modifies this
      ensures Valid()
      ensures pos == CommentsEnd(text, old(pos))
    {
      ghost var start := pos;
      ghost var p := pos;
      var ch := GetChar();
      while ch.Ch?
        invariant Valid() && start <= p <= |text|
        invariant ch == LookAt(text, p) && pos == After(text, p)
        invariant CommentsEnd(text, start) == CommentsEnd(text, p)
        decreases |text| - p
      {
        ch := SkipRun(Blanks, ch, p);
        if ch == Eof {
          p := |text|;
          break;
        }
        if ch.c != '\n' && ch.c != '#' {
          UngetChar(ch);
          return;
        }
        ch := SkipRun(Until("\n"), ch, RunEnd(text, p, Blanks));
        p := pos;
        ch := GetChar();
      }
    }
  }
}
