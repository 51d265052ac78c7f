/** Standard input in a crontab command (do_command.c): the command ends at the first unescaped percent
    sign, and what follows is translated on its way to the child. */
module StdinTranslation {

  const NUL := '\0'

  // ---------------------------------------------------------------- the split

  /** How many backslashes stand directly before `i`. */
  function BackslashesBefore(s: string, i: nat): (n: nat)
    requires i <= |s|
    ensures n <= i
  {
    if i == 0 || s[i - 1] != '\\' then 0 else 1 + BackslashesBefore(s, i - 1)
  }

  predicate SplitsAt(s: string, i: nat)
    requires i < |s|
  {
    s[i] == '%' && BackslashesBefore(s, i) % 2 == 0
  }

  /** The first percent sign with an even number of backslashes before it, or the end. */
  ghost predicate IsSplit(s: string, i: nat) {
    i <= |s| && (i < |s| ==> SplitsAt(s, i)) && forall k :: 0 <= k < i ==> !SplitsAt(s, k)
  }

  /** A C string in a buffer of its own size. */
  ghost predicate Holds(cmd: array<char>, s: string)
    reads cmd
  {
    cmd[..] == s + [NUL] && NUL !in s
  }

  /** Ends the command at the split; `input` is where the input begins. */
  method Split(cmd: array<char>, ghost s: string) returns (input: nat, ghost at: nat)
    requires Holds(cmd, s)
    modifies cmd
    ensures IsSplit(s, at)
    ensures if at == |s| then input == at && cmd[..] == old(cmd[..])
            else input == at + 1 && cmd[..] == s[..at] + [NUL] + s[at + 1..] + [NUL]
  {
    assert forall k :: 0 <= k <= |s| ==> cmd[k] == cmd[..][k];
    var escaped := false;
    input := 0;
    while cmd[input] != NUL
      invariant input <= |s| && Holds(cmd, s) && cmd[..] == old(cmd[..])
      invariant escaped == (BackslashesBefore(s, input) % 2 == 1)
      invariant forall k :: 0 <= k < input ==> !SplitsAt(s, k)
      decreases |s| - input
    {
      assert cmd[input] == cmd[..][input];
      if escaped {
        escaped := false;
      } else if cmd[input] == '\\' {
        escaped := true;
      } else if cmd[input] == '%' {
        at := input;
        cmd[input] := NUL;
        input := input + 1;
        return;
      }
      input := input + 1;
    }
    assert cmd[input] == cmd[..][input];
    at := |s|;
  }

  // ---------------------------------------------------------------- the translation

  /** What is written on reading one character; a backslash is held back. */
  function Head(c: char, escaped: bool): string {
    (if escaped && c != '%' then "\\" else "") + (if c == '\\' then "" else [if c == '%' && !escaped then '\n' else c])
  }

  /** What the loop still writes when it has `s` to read and, if `escaped`, a backslash in hand. */
  function Written(s: string, escaped: bool): string {
    if s == "" then (if escaped then "\\" else "") else Head(s[0], escaped) + Written(s[1..], s[0] == '\\')
  }

  /** The flag after one character; backslashes do not touch it. */
  function Needs(c: char, escaped: bool, need: bool): bool {
    if c == '\\' then need else c != '\n' && (c != '%' || escaped)
  }

  /** Whether a newline is added in the end. */
  function NeedsNewline(s: string, escaped: bool, need: bool): bool {
    if s == "" then need else NeedsNewline(s[1..], s[0] == '\\', Needs(s[0], escaped, need))
  }

  function Translated(s: string): string {
    Written(s, false) + (if NeedsNewline(s, false, false) then "\n" else "")
  }

  method Translate(s: string) returns (out: string)
    ensures out == Translated(s)
  {
    out := "";
    var needNewline, escaped := false, false;
    var i := 0;
    assert s[0..] == s;
    while i < |s|
      invariant 0 <= i <= |s|
      invariant Written(s, false) == out + Written(s[i..], escaped)
      invariant NeedsNewline(s, false, false) == NeedsNewline(s[i..], escaped, needNewline)
    {
      ghost var was, held, need := out, escaped, needNewline;
      var ch := s[i];
      if escaped {
        if ch != '%' {
          out := out + "\\";
        }
      } else {
        if ch == '%' {
          ch := '\n';
        }
      }
      escaped := ch == '\\';
      if !escaped {
        out := out + [ch];
        needNewline := ch != '\n';
      }
      WrittenStep(s, i, was, held);
      assert out == was + Head(s[i], held) && needNewline == Needs(s[i], held, need);
      i := i + 1;
    }
    if escaped {
      out := out + "\\";
    }
    if needNewline {
      out := out + "\n";
    }
  }

  lemma WrittenStep(s: string, i: nat, out: string, escaped: bool)
    requires i < |s|
    ensures out + Written(s[i..], escaped) == (out + Head(s[i], escaped)) + Written(s[i + 1..], s[i] == '\\')
    ensures s[i..][1..] == s[i + 1..]
  {
    assert s[i..][1..] == s[i + 1..];
  }

  // ---------------------------------------------------------------- character by character

  /** What becomes of the character at `i`: a backslash directly before a percent sign is dropped,
      that percent sign stays, every other one becomes a newline, and the rest is left alone. */
  function Piece(s: string, i: nat): (t: string)
    requires i < |s|
    ensures |t| <= 1
  {
    if s[i] == '\\' && i + 1 < |s| && s[i + 1] == '%' then ""
    else if s[i] == '%' && (i == 0 || s[i - 1] != '\\') then "\n"
    else [s[i]]
  }

  function Pieces(s: string, i: nat): (t: string)
    requires i <= |s|
    ensures |t| <= |s| - i
    decreases |s| - i
  {
    if i == |s| then "" else Piece(s, i) + Pieces(s, i + 1)
  }

  predicate HeldBefore(s: string, i: nat)
    requires i <= |s|
  {
    i > 0 && s[i - 1] == '\\'
  }

  /** What is still to be written of the backslash, if any, that stands directly before `i`. */
  function Withheld(s: string, i: nat): string
    requires i <= |s|
  {
    if HeldBefore(s, i) then Piece(s, i - 1) else ""
  }

  /** Reading the character at `i` writes what is pending and the character's piece, unless that
      becomes pending itself. */
  lemma HeadPiece(s: string, i: nat)
    requires i < |s|
    ensures Head(s[i], HeldBefore(s, i)) + Withheld(s, i + 1) == Withheld(s, i) + Piece(s, i)
  {
    if s[i] == '\\' {
      assert Withheld(s, i + 1) == Piece(s, i);
    } else {
      assert Withheld(s, i + 1) == "";
    }
  }

  lemma Reordered(head: string, tail: string, rest: string, pending: string, piece: string)
    requires head + tail == pending + piece
    ensures head + (tail + rest) == pending + (piece + rest)
  {
    assert head + (tail + rest) == (head + tail) + rest;
    assert pending + (piece + rest) == (pending + piece) + rest;
  }

  lemma WrittenUnfolds(s: string, i: nat)
    requires i < |s|
    ensures Written(s[i..], HeldBefore(s, i)) ==
            Head(s[i], HeldBefore(s, i)) + Written(s[i + 1..], HeldBefore(s, i + 1))
  {
    assert s[i..][1..] == s[i + 1..];
  }

  /** From `i` on, what is pending and the pieces are written. */
  ghost predicate InPieces(s: string, i: nat)
    requires i <= |s|
  {
    Written(s[i..], HeldBefore(s, i)) == Withheld(s, i) + Pieces(s, i)
  }

  lemma InPiecesBefore(s: string, i: nat)
    requires i < |s| && InPieces(s, i + 1)
    ensures InPieces(s, i)
  {
    WrittenUnfolds(s, i);
    HeadPiece(s, i);
    Reordered(Head(s[i], HeldBefore(s, i)), Withheld(s, i + 1), Pieces(s, i + 1), Withheld(s, i), Piece(s, i));
  }

  lemma InPiecesAtEnd(s: string)
    ensures InPieces(s, |s|)
  {
    assert s[|s|..] == "";
  }

  lemma {:induction false} WrittenPieces(s: string, i: nat)
    requires i <= |s|
    ensures InPieces(s, i)
    decreases |s| - i
  {
    if i < |s| {
      WrittenPieces(s, i + 1);
      InPiecesBefore(s, i);
    } else {
      InPiecesAtEnd(s);
    }
  }

  /** The last character that is not a backslash is missing, is a newline, or is a percent sign that
      becomes one. */
  predicate EndsLine(s: string) {
    s == "" ||
    (var k := |s| - 1;
     if s[k] == '\\' then EndsLine(s[..k]) else s[k] == '\n' || (s[k] == '%' && !HeldBefore(s, k)))
  }

  lemma {:induction false} NeedsLast(s: string, c: char, escaped: bool, need: bool)
    ensures NeedsNewline(s + [c], escaped, need) ==
            Needs(c, if s == "" then escaped else s[|s| - 1] == '\\', NeedsNewline(s, escaped, need))
  {
    if s == "" {
      assert NeedsNewline([c], escaped, need) == NeedsNewline([c][1..], c == '\\', Needs(c, escaped, need));
    } else {
      assert (s + [c])[1..] == s[1..] + [c];
      NeedsLast(s[1..], c, s[0] == '\\', Needs(s[0], escaped, need));
    }
  }

  /** The flag of the loop says whether the text ends a line. */
  lemma {:induction false} NeedsUnlessEnded(s: string)
    ensures NeedsNewline(s, false, false) == !EndsLine(s)
  {
    if s != "" {
      var k := |s| - 1;
      assert s == s[..k] + [s[k]];
      NeedsUnlessEnded(s[..k]);
      NeedsLast(s[..k], s[k], false, false);
    }
  }

  /** The translation is the pieces, and a newline unless the text ends a line. */
  lemma TranslatedIsPieces(s: string)
    ensures Translated(s) == Pieces(s, 0) + (if EndsLine(s) then "" else "\n")
    ensures |Translated(s)| <= |s| + 1
  {
    assert s[0..] == s;
    WrittenPieces(s, 0);
    NeedsUnlessEnded(s);
  }

  /** The split counts backslashes, the translation looks at one. They agree on what a percent sign is,
      escaped or not, exactly when no backslash or an odd number of them stands before it. */
  lemma BackslashViews(s: string, i: nat)
    requires i < |s| && s[i] == '%'
    ensures (SplitsAt(s, i) <==> Piece(s, i) == "\n")
            <==> (BackslashesBefore(s, i) == 0 || BackslashesBefore(s, i) % 2 == 1)
  {
    assert BackslashesBefore(s, i) == 0 <==> i == 0 || s[i - 1] != '\\';
  }

  /** After two backslashes the command ends at a percent sign, but within the input the same sign is
      kept. */
  lemma TwoBackslashes()
    ensures SplitsAt("\\\\%", 2) && Piece("\\\\%", 2) == "%"
  {
    assert BackslashesBefore("\\\\%", 1) == 1 + BackslashesBefore("\\\\%", 0);
  }

  // ---------------------------------------------------------------- the last newline

  lemma {:induction false} WrittenEnd(s: string, escaped: bool, need: bool)
    ensures var w := Written(s, escaped);
            if s == "" then w == (if escaped then "\\" else "")
            else w != "" && (w[|w| - 1] == '\n' <==> s[|s| - 1] != '\\' && !NeedsNewline(s, escaped, need))
  {
    if |s| > 1 {
      WrittenEnd(s[1..], s[0] == '\\', Needs(s[0], escaped, need));
    }
  }

  /** Whatever is written should end in a newline. It does, except when the text ends in a backslash
      and what precedes its last backslashes is nothing or ends a line. */
  lemma LastNewline(s: string)
    ensures Translated(s) == "" || Translated(s)[|Translated(s)| - 1] == '\n'
            <==> !(s != "" && s[|s| - 1] == '\\' && EndsLine(s))
  {
    NeedsUnlessEnded(s);
    WrittenEnd(s, false, false);
  }

  lemma NewlineIsForgotten()
    ensures Translated("a%\\") == "a\n\\"
  {
    var s: string := "a%\\";
    assert s[1..] == "%\\" && s[1..][1..] == "\\" && s[1..][1..][1..] == "";
    assert Written(s, false) == "a" + Written(s[1..], false);
    assert Written(s[1..], false) == "\n" + Written(s[1..][1..], false);
    assert Written(s[1..][1..], false) == "" + Written("", true);
    assert NeedsNewline(s, false, false) == NeedsNewline(s[1..], false, true) ==
           NeedsNewline(s[1..][1..], false, false);
  }

  // ---------------------------------------------------------------- the inverse

  /** Newlines as percent signs, percent signs escaped. */
  function Escape(t: string): string {
    if t == "" then ""
    else (if t[0] == '\n' then "%" else if t[0] == '%' then "\\%" else [t[0]]) + Escape(t[1..])
  }

  /** No newline directly after a backslash; `escaped`: a backslash comes before `t`. */
  predicate NoEscapedNewline(t: string, escaped: bool) {
    t == "" || (!(escaped && t[0] == '\n') && NoEscapedNewline(t[1..], t[0] == '\\'))
  }

  /** The last character that is not a backslash is missing, or is a newline. */
  predicate LineComplete(t: string) {
    t == "" || t[|t| - 1] == '\n' || (t[|t| - 1] == '\\' && LineComplete(t[..|t| - 1]))
  }

  lemma WrittenHead(c: char, s: string, escaped: bool, need: bool)
    ensures Written([c] + s, escaped) == Head(c, escaped) + Written(s, c == '\\')
    ensures NeedsNewline([c] + s, escaped, need) == NeedsNewline(s, c == '\\', Needs(c, escaped, need))
  {
    assert ([c] + s)[1..] == s;
  }

  function Held(escaped: bool): string {
    if escaped then "\\" else ""
  }

  /** What the escape of one character becomes: the character, unless it is a newline after a
      backslash. */
  lemma EscapeHead(c: char, s: string, escaped: bool, need: bool)
    requires !(escaped && c == '\n')
    ensures var e := if c == '\n' then "%" else if c == '%' then "\\%" else [c];
            && Written(e + s, escaped) == Held(escaped) + (if c == '\\' then "" else [c]) + Written(s, c == '\\')
            && NeedsNewline(e + s, escaped, need) == NeedsNewline(s, c == '\\', if c == '\\' then need else c != '\n')
  {
    if c == '%' {
      assert "\\%" + s == ['\\'] + (['%'] + s);
      WrittenHead('\\', ['%'] + s, escaped, need);
      WrittenHead('%', s, true, need);
    } else {
      WrittenHead(if c == '\n' then '%' else c, s, escaped, need);
    }
  }

  /** Writing the escape of `t` and then `end` gives what is held and `t`. */
  ghost predicate Inverts(t: string, escaped: bool, end: string) {
    Written(Escape(t), escaped) + end == Held(escaped) + t
  }

  lemma InvertsStep(c: char, t: string, escaped: bool, end: string)
    requires !(escaped && c == '\n')
    ensures Inverts([c] + t, escaped, end) <==> Inverts(t, c == '\\', end)
  {
    assert ([c] + t)[1..] == t;
    EscapeHead(c, Escape(t), escaped, false);
    var head := Held(escaped) + (if c == '\\' then "" else [c]);
    var tail := Written(Escape(t), c == '\\');
    assert (head + tail) + end == head + (tail + end);
    SameTail(head, tail + end, Held(c == '\\') + t);
    Regroup(c, t, escaped);
  }

  lemma EscapedNewlineIsLost(t: string, end: string)
    ensures !Inverts(['\n'] + t, true, end)
  {
    assert (['\n'] + t)[1..] == t;
    WrittenHead('%', Escape(t), true, false);
    assert (Written(Escape(['\n'] + t), true) + end)[0] == '%' && (Held(true) + (['\n'] + t))[0] == '\\';
  }

  lemma {:induction false} EscapeInverse(t: string, escaped: bool, end: string)
    ensures Inverts(t, escaped, end) <==> NoEscapedNewline(t, escaped) && end == ""
  {
    if t != "" {
      var c, rest := t[0], t[1..];
      assert t == [c] + rest;
      if escaped && c == '\n' {
        EscapedNewlineIsLost(rest, end);
      } else {
        InvertsStep(c, rest, escaped, end);
        EscapeInverse(rest, c == '\\', end);
      }
    }
  }

  lemma Regroup(c: char, rest: string, escaped: bool)
    ensures Held(escaped) + ([c] + rest) == Held(escaped) + (if c == '\\' then "" else [c]) + (Held(c == '\\') + rest)
  {}

  lemma SameTail(a: string, b: string, c: string)
    ensures a + b == a + c <==> b == c
  {
    if a + b == a + c {
      assert b == (a + b)[|a|..] && c == (a + c)[|a|..];
    }
  }

  function Needed(t: string, need: bool): bool {
    if t == "" then need else Needed(t[1..], if t[0] == '\\' then need else t[0] != '\n')
  }

  lemma {:induction false} EscapeNeeds(t: string, escaped: bool, need: bool)
    requires NoEscapedNewline(t, escaped)
    ensures NeedsNewline(Escape(t), escaped, need) == Needed(t, need)
  {
    if t != "" {
      EscapeHead(t[0], Escape(t[1..]), escaped, need);
      EscapeNeeds(t[1..], t[0] == '\\', if t[0] == '\\' then need else t[0] != '\n');
    }
  }

  lemma {:induction false} NeededLast(t: string, c: char, need: bool)
    ensures Needed(t + [c], need) == if c == '\\' then Needed(t, need) else c != '\n'
  {
    if t == "" {
      assert Needed([c], need) == Needed([c][1..], if c == '\\' then need else c != '\n');
    } else {
      assert (t + [c])[1..] == t[1..] + [c];
      NeededLast(t[1..], c, if t[0] == '\\' then need else t[0] != '\n');
    }
  }

  lemma {:induction false} NeededIsIncomplete(t: string)
    ensures Needed(t, false) == !LineComplete(t)
  {
    if t != "" {
      var k := |t| - 1;
      NeededIsIncomplete(t[..k]);
      NeededLast(t[..k], t[k], false);
      assert t == t[..k] + [t[k]];
    }
  }

  /** The translation inverts the escaping exactly on the texts in which no newline follows a
      backslash directly and the last line is complete. */
  lemma TranslationInvertsEscape(t: string)
    ensures Translated(Escape(t)) == t <==> NoEscapedNewline(t, false) && LineComplete(t)
  {
    var need := NeedsNewline(Escape(t), false, false);
    EscapeInverse(t, false, if need then "\n" else "");
    assert Held(false) + t == t;
    if NoEscapedNewline(t, false) {
      EscapeNeeds(t, false, false);
      NeededIsIncomplete(t);
    }
  }
}
