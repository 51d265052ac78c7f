/** One crontab entry (`load_entry` of entry.c): time fields or shorthand, user, environment and
    command. */
module CronEntry {
  import opened Common
  import opened CronText
  import opened CronFields
  import opened CronRecord
  import opened CronShorthand
  import opened Environment

  datatype Passwd = Passwd(name: string, dir: string, uid: int, gid: int)

  predicate PasswdOk(pw: Passwd) { CString(pw.name) && CString(pw.dir) }

  ghost predicate AccountsOk(owner: Option<Passwd>, accounts: map<string, Passwd>) {
    (owner.Some? ==> PasswdOk(owner.value)) && forall n :: n in accounts ==> PasswdOk(accounts[n])
  }

  const MAX_COMMAND := 1000
  const BSHELL := "/bin/sh"
  const DEFPATH := "/usr/bin:/bin"

  class Entry {
    var uid: int
    var gid: int
    var envp: array<Option<string>>
    var cmd: string
    const bits: array<bv8>
    var flags: Flags

    constructor ()
      ensures fresh(bits) && fresh(envp) && Blank(bits[..])
    {
      uid, gid, cmd, flags := 0, 0, "", Flags(false, false, false);
      bits := new bv8[RECORD_SIZE](_ => 0);
      envp := new Option<string>[1](_ => None);
    }
  }

  // ---------------------------------------------------------------- what a line means

  function ShorthandWord(s: string, p: nat): string
    requires p < |s|
  {
    Truncated(s[p + 1..StringEnd(s, p + 1, " \t\n")], MAX_COMMAND - 1)
  }

  /** Whether the entry that begins at `p` runs at a time. */
  predicate EntryNames(s: string, p: nat, tm: Tm)
    requires p < |s|
  {
    if s[p] == '@' then ShorthandNames(ShorthandWord(s, p), tm) else LineNames(s, p, tm)
  }

  /** Whether the time part of the entry at `p` is accepted. */
  ghost predicate TimeOk(s: string, p: nat)
    requires p < |s|
  {
    if s[p] == '@' then ShorthandWord(s, p) in SHORTHANDS else LineVerdict(s, p) == Good
  }

  /** Where the user name or the command begins. */
  function TailStart(s: string, p: nat): (q: nat)
    requires p < |s|
    ensures p <= q <= |s|
  {
    if s[p] == '@' then StringEnd(s, p + 1, " \t\n") else WordAt(s, p, 5)
  }

  datatype Tail = Tail(pw: Passwd, cmd: string, end: nat)

  /** The command that begins at `c`; it must end before the file does. */
  function CommandAt(s: string, c: nat, pw: Passwd): Option<Tail>
    requires c <= |s|
  {
    var end := StringEnd(s, c, "\n");
    if end == |s| then None else Some(Tail(pw, Truncated(s[c..end], MAX_COMMAND - 1), end))
  }

  /** The command is the rest of the line, of which the first 999 characters are kept. */
  lemma CommandIs(s: string, c: nat, end: nat, pw: Passwd)
    requires c <= end < |s| && s[end] == '\n' && forall i :: c <= i < end ==> s[i] != '\n' && s[i] != ZERO
    ensures CommandAt(s, c, pw) == Some(Tail(pw, s[c..if end - c > 999 then c + 999 else end], end))
  {
    RunEndUnique(s, c, Until("\n" + [ZERO]), end);
    assert end - c > 999 ==> s[c..end][..999] == s[c..c + 999];
  }

  /** User and command: a system crontab, which has no owner, names the user of each entry. */
  function TailAt(s: string, q: nat, owner: Option<Passwd>, accounts: map<string, Passwd>): Option<Tail>
    requires q <= |s|
  {
    if owner.Some? then CommandAt(s, q, owner.value)
    else
      var u := StringEnd(s, q, " \t");
      var name := Truncated(s[q..u], MAX_COMMAND - 1);
      if u == |s| || name !in accounts then None else CommandAt(s, u + 1, accounts[name])
  }

  /** Where a rejected time part leaves the reader, and the look-ahead that it leaves: the character
      after a shorthand, and nothing after a rejected field. */
  ghost function TimeStop(s: string, p: nat): nat
    requires p < |s|
  {
    if s[p] == '@' then After(s, StringEnd(s, p + 1, " \t\n")) else LineStop(s, p)
  }

  function RejectedAhead(s: string, p: nat): Look
    requires p < |s|
  {
    if s[p] == '@' then LookAt(s, StringEnd(s, p + 1, " \t\n")) else Eof
  }

  /** Right after the line that goes on at `q`. */
  function LineSkipped(s: string, q: nat): nat
    requires q <= |s|
  {
    After(s, RunEnd(s, q, Until("\n")))
  }

  /** The look-ahead when the user or the command of an entry is rejected: the blank after an unknown
      user, otherwise the end of the file. */
  function TailRejectedAt(s: string, q: nat, owner: Option<Passwd>, accounts: map<string, Passwd>): (u: nat)
    requires q <= |s|
    ensures u <= |s|
  {
    if owner.Some? then |s|
    else
      var u := StringEnd(s, q, " \t");
      if Truncated(s[q..u], MAX_COMMAND - 1) !in accounts then u else |s|
  }

  /** Where a rejected entry leaves the reader. After a rejected field that is in the middle of the
      line: the end-of-file value that stands for the error also stops the loop that would skip the
      rest of the line. */
  ghost function RejectEnd(s: string, p: nat, owner: Option<Passwd>, accounts: map<string, Passwd>): nat
    requires p < |s|
  {
    if TimeOk(s, p) then LineSkipped(s, TailRejectedAt(s, TailStart(s, p), owner, accounts))
    else if s[p] == '@' then LineSkipped(s, StringEnd(s, p + 1, " \t\n"))
    else LineStop(s, p)
  }

  // ---------------------------------------------------------------- environment of an entry

  function WithDefault(env: seq<string>, name: string, value: string): seq<string> {
    if Lookup(env, name) == None then Updated(env, name + "=" + value) else env
  }

  /** SHELL, HOME and PATH are defaults; LOGNAME overrides. */
  function EntryEnv(env: seq<string>, pw: Passwd): seq<string> {
    Updated(WithDefault(WithDefault(WithDefault(env, "SHELL", BSHELL), "HOME", pw.dir), "PATH", DEFPATH),
            "LOGNAME=" + pw.name)
  }

  lemma WithDefaultLookup(env: seq<string>, name: string, value: string, other: string)
    requires UniqueNames(env) && '=' !in name
    ensures UniqueNames(WithDefault(env, name, value))
    ensures Lookup(WithDefault(env, name, value), other) ==
            if other == name && Lookup(env, name) == None then Some(value) else Lookup(env, other)
  {
    PrintedSetting(name, value);
    if Lookup(env, name) == None {
      UpdatedUnique(env, name + "=" + value);
      UpdatedIsMapUpdate(env, name + "=" + value, other);
    }
  }

  /** What a job sees of its environment. */
  lemma EntryEnvLookup(env: seq<string>, pw: Passwd, name: string)
    requires UniqueNames(env)
    ensures UniqueNames(EntryEnv(env, pw))
    ensures Lookup(EntryEnv(env, pw), name) ==
            if name == "LOGNAME" then Some(pw.name)
            else if Lookup(env, name).Some? then Lookup(env, name)
            else if name == "SHELL" then Some(BSHELL)
            else if name == "HOME" then Some(pw.dir)
            else if name == "PATH" then Some(DEFPATH)
            else None
  {
    var e1 := WithDefault(env, "SHELL", BSHELL);
    var e2 := WithDefault(e1, "HOME", pw.dir);
    var e3 := WithDefault(e2, "PATH", DEFPATH);
    WithDefaultLookup(env, "SHELL", BSHELL, name);
    WithDefaultLookup(env, "SHELL", BSHELL, "HOME");
    WithDefaultLookup(env, "SHELL", BSHELL, "PATH");
    WithDefaultLookup(e1, "HOME", pw.dir, name);
    WithDefaultLookup(e1, "HOME", pw.dir, "PATH");
    WithDefaultLookup(e2, "PATH", DEFPATH, name);
    assert ['L', 'O', 'G', 'N', 'A', 'M', 'E'] + ['='] == "LOGNAME=";
    PrintedSetting("LOGNAME", pw.name);
    assert "LOGNAME" + "=" + pw.name == "LOGNAME=" + pw.name;
    UpdatedUnique(e3, "LOGNAME=" + pw.name);
    UpdatedIsMapUpdate(e3, "LOGNAME=" + pw.name, name);
  }

  method SetDefault(envp: array<Option<string>>, name: string, value: string) returns (p: array<Option<string>>)
    requires IsEnv(envp) && CString(name) && CString(value)
    modifies envp
    ensures p == envp || fresh(p)
    ensures IsEnv(p) && Entries(p) == WithDefault(old(Entries(envp)), name, value)
  {
    p := envp;
    var present := EnvGet(name, envp);
    if present == None {
      p := EnvSet(envp, name + "=" + value);
    }
  }

  method EntryEnvironment(envp: array<Option<string>>, pw: Passwd) returns (p: array<Option<string>>)
    requires IsEnv(envp) && PasswdOk(pw)
    ensures fresh(p) && IsEnv(p) && Entries(p) == EntryEnv(Entries(envp), pw)
  {
    p := EnvCopy(envp);
    p := SetDefault(p, "SHELL", BSHELL);
    p := SetDefault(p, "HOME", pw.dir);
    p := SetDefault(p, "PATH", DEFPATH);
    p := EnvSet(p, "LOGNAME=" + pw.name);
  }

  // ---------------------------------------------------------------- loading

  /** The record, before Sundays are merged, and the flags that the time part at `p` compiles to. */
  ghost predicate CompiledFrom(was: seq<bv8>, flags: Flags, s: string, p: nat)
    requires p < |s|
  {
    if s[p] == '@' then
      && HoldsShorthand(was, ShorthandWord(s, p))
      && flags == Flags(false, false, ShorthandWord(s, p) == "reboot")
    else
      Compiled(was, s, p, 5) && flags == Flags(Starred(s, p, 2), Starred(s, p, 4), false)
  }

  ghost predicate RecordIs(bytes: seq<bv8>, flags: Flags, s: string, p: nat)
    requires p < |s|
  {
    exists was :: CompiledFrom(was, flags, s, p) && SundaysMerged(was, bytes)
  }

  lemma CompiledFromDetermines(a: seq<bv8>, fa: Flags, b: seq<bv8>, fb: Flags, s: string, p: nat)
    requires p < |s| && CompiledFrom(a, fa, s, p) && CompiledFrom(b, fb, s, p)
    ensures a == b && fa == fb
  {
    if s[p] == '@' {
      ShorthandDetermines(a, b, ShorthandWord(s, p));
    } else {
      CompiledDetermines(a, b, s, p);
    }
  }

  lemma RecordDetermined(a: seq<bv8>, fa: Flags, b: seq<bv8>, fb: Flags, s: string, p: nat)
    requires p < |s| && RecordIs(a, fa, s, p) && RecordIs(b, fb, s, p)
    ensures a == b && fa == fb
  {
    var u :| CompiledFrom(u, fa, s, p) && SundaysMerged(u, a);
    var v :| CompiledFrom(v, fb, s, p) && SundaysMerged(v, b);
    CompiledFromDetermines(u, fa, v, fb, s, p);
    MergedDetermines(u, a, b);
  }

  /** A record and flags that the text of the entry at `p` compiles to, and that say of every time what it
      says. */
  ghost predicate RecordMeans(bytes: seq<bv8>, flags: Flags, s: string, p: nat)
    requires p < |s|
  {
    && |bytes| == RECORD_SIZE && RecordIs(bytes, flags, s, p)
    && (flags.whenReboot <==> s[p] == '@' && ShorthandWord(s, p) == "reboot")
    && forall tm | ValidTm(tm) :: Matches(bytes, flags, tm) <==> EntryNames(s, p, tm)
  }

  lemma CompiledMeans(was: seq<bv8>, now: seq<bv8>, flags: Flags, s: string, p: nat)
    requires p < |s| && TimeOk(s, p) && CompiledFrom(was, flags, s, p) && SundaysMerged(was, now)
    ensures RecordMeans(now, flags, s, p)
  {
    forall tm | ValidTm(tm) ensures Matches(now, flags, tm) <==> EntryNames(s, p, tm) {
      if s[p] == '@' {
        ShorthandMatches(was, now, ShorthandWord(s, p), flags.whenReboot, tm);
      } else {
        CompiledLineMatches(was, now, flags, s, p, tm);
      }
    }
  }

  ghost predicate Means(e: Entry, s: string, p: nat)
    requires p < |s|
    reads e, e.bits
  {
    RecordMeans(e.bits[..], e.flags, s, p)
  }

  /** The look-ahead is the character at `q`. */
  ghost predicate StandsAt(f: CrontabFile, ch: Look, q: nat)
    reads f
  {
    q <= |f.text| && ch == LookAt(f.text, q) && f.pos == After(f.text, q)
  }

  /** The loop that skips the rest of a rejected line. */
  method SkipLine(f: CrontabFile, first: Look, ghost q: nat)
    requires f.Valid() && (first != Eof ==> StandsAt(f, first, q))
    modifies f
    ensures f.Valid() && f.pos >= old(f.pos)
    ensures f.pos == if first == Eof then old(f.pos) else LineSkipped(f.text, q)
  {
    var ch := first;
    ghost var k := q;
    while ch != Eof && ch != Ch('\n')
      invariant f.Valid() && f.pos >= old(f.pos)
      invariant if first == Eof then ch == Eof && f.pos == old(f.pos)
                else StandsAt(f, ch, k) && RunEnd(f.text, k, Until("\n")) == RunEnd(f.text, q, Until("\n"))
      decreases |f.text| - f.pos, ch.Ch?
    {
      ch := f.GetChar();
      k := k + 1;
    }
  }

  /** The time part: five fields or a shorthand, up to the look-ahead that ends it. */
  method LoadTime(f: CrontabFile, e: Entry, ch: Look, ghost p: nat) returns (next: Look, ok: bool, hang: bool)
    requires f.Valid() && p < |f.text| && ch == Ch(f.text[p]) && f.pos == p + 1
    requires Blank(e.bits[..])
    modifies f, e, e.bits
    ensures f.Valid() && f.pos > p && e.envp == old(e.envp)
    ensures hang <==> f.text[p] != '@' && LineVerdict(f.text, p) == Hang
    ensures ok <==> TimeOk(f.text, p)
    ensures ok ==> next == LookAt(f.text, TailStart(f.text, p)) && f.pos == After(f.text, TailStart(f.text, p))
    ensures ok ==> Means(e, f.text, p)
    ensures !ok ==> next == RejectedAhead(f.text, p) && f.pos == TimeStop(f.text, p)
  {
    assert e.bits.Length == |e.bits[..]|;
    ok, hang := true, false;
    if ch == Ch('@') {
      var word, reboot;
      word, next := f.GetString(MAX_COMMAND, " \t\n");
      ok, reboot := SetShorthand(e.bits, word);
      e.flags := Flags(false, false, reboot);
    } else {
      next, e.flags, hang := CompileLine(f, e.bits, ch, p);
      ok := next != Eof;
    }
    if ok {
      ghost var was := e.bits[..];
      MergeSundays(e.bits);
      CompiledMeans(was, e.bits[..], e.flags, f.text, p);
    }
  }

  /** The user name of a system crontab and the command. */
  method LoadTail(f: CrontabFile, owner: Option<Passwd>, accounts: map<string, Passwd>)
    returns (tail: Option<Tail>, ch: Look)
    requires f.Valid()
    modifies f
    ensures f.Valid() && f.pos >= old(f.pos) && (old(f.pos) < |f.text| ==> f.pos > old(f.pos))
    ensures tail == TailAt(f.text, old(f.pos), owner, accounts)
    ensures tail.Some? ==> f.pos == tail.value.end + 1
    ensures tail == None ==> StandsAt(f, ch, TailRejectedAt(f.text, old(f.pos), owner, accounts))
  {
    var pw: Passwd;
    if owner == None {
      var username;
      username, ch := f.GetString(MAX_COMMAND, " \t");
      if ch == Eof || username !in accounts {
        return None, ch;
      }
      pw := accounts[username];
    } else {
      pw := owner.value;
    }

    var cmd;
    cmd, ch := f.GetString(MAX_COMMAND, "\n");
    if ch == Eof {
      return None, ch;
    }
    tail := Some(Tail(pw, cmd, f.pos - 1));
  }

  /** Where the look-ahead of a rejected entry stands, if it is not the end-of-file value. */
  ghost function AheadAt(s: string, p: nat, owner: Option<Passwd>, accounts: map<string, Passwd>): nat
    requires p < |s|
  {
    if TimeOk(s, p) then TailRejectedAt(s, TailStart(s, p), owner, accounts) else StringEnd(s, p + 1, " \t\n")
  }

  ghost predicate Rejected(f: CrontabFile, p: nat, ch: Look, owner: Option<Passwd>, accounts: map<string, Passwd>)
    requires p < |f.text|
    reads f
  {
    if TimeOk(f.text, p) || f.text[p] == '@' then StandsAt(f, ch, AheadAt(f.text, p, owner, accounts))
    else ch == Eof && f.pos == LineStop(f.text, p)
  }

  /** Reads the next entry. It is null at the end of the file and when the line is rejected; a line
      whose time fields are rejected is left where the rejection happened. `hang` says that the
      field compiler loops on a zero step. */
  method LoadEntry(f: CrontabFile, owner: Option<Passwd>, accounts: map<string, Passwd>, envp: array<Option<string>>)
    returns (e: Entry?, hang: bool)
    requires f.Valid() && IsEnv(envp)
    requires AccountsOk(owner, accounts)
    modifies f
    ensures f.Valid()
    ensures var p := CommentsEnd(f.text, old(f.pos));
            if p == |f.text| then e == null && !hang
            else
              && f.pos > p
              && (hang <==> f.text[p] != '@' && LineVerdict(f.text, p) == Hang)
              && (e != null <==> TimeOk(f.text, p) && TailAt(f.text, TailStart(f.text, p), owner, accounts).Some?)
              && (e != null ==>
                  EntryLoaded(e, f.text, p, owner, accounts, Entries(envp)) && fresh(e) && fresh(e.bits)
                    && fresh(e.envp))
              && (e == null ==> f.pos == RejectEnd(f.text, p, owner, accounts))
              && (e != null ==> f.pos == TailAt(f.text, TailStart(f.text, p), owner, accounts).value.end + 1)
  {
    f.SkipComments();
    ghost var p := f.pos;
    var ch := f.GetChar();
    if ch == Eof {
      return null, false;
    }
    var entry, tail;
    ghost var ok;
    entry, ok, tail, ch, hang := ReadEntry(f, owner, accounts, ch, p);
    if tail == None {
      SkipLine(f, ch, AheadAt(f.text, p, owner, accounts));
      return null, hang;
    }
    ghost var bytes, flags := entry.bits[..], entry.flags;
    FillEntry(entry, tail.value, envp);
    assert entry.bits[..] == bytes && entry.flags == flags;
    return entry, false;
  }

  /** Gives the look-ahead, which stands at `q`, back and reads the rest of the entry from there. */
  method RereadTail(f: CrontabFile, owner: Option<Passwd>, accounts: map<string, Passwd>, first: Look, ghost q: nat)
    returns (tail: Option<Tail>, ch: Look)
    requires f.Valid() && q <= |f.text| && first == LookAt(f.text, q) && f.pos == After(f.text, q)
    modifies f
    ensures f.Valid() && f.pos >= old(f.pos)
    ensures tail == TailAt(f.text, q, owner, accounts)
    ensures tail.Some? ==> f.pos == tail.value.end + 1
    ensures tail == None ==> StandsAt(f, ch, TailRejectedAt(f.text, q, owner, accounts))
  {
    f.UngetChar(first);
    tail, ch := LoadTail(f, owner, accounts);
  }

  /** Everything that is read of an entry, into a blank one. */
  method ReadEntry(f: CrontabFile, owner: Option<Passwd>, accounts: map<string, Passwd>, first: Look, ghost p: nat)
    returns (entry: Entry, ghost ok: bool, tail: Option<Tail>, ch: Look, hang: bool)
    requires f.Valid() && p < |f.text| && first == Ch(f.text[p]) && f.pos == p + 1
    modifies f
    ensures f.Valid() && f.pos > p
    ensures fresh(entry) && fresh(entry.bits)
    ensures hang <==> f.text[p] != '@' && LineVerdict(f.text, p) == Hang
    ensures ok <==> TimeOk(f.text, p)
    ensures tail == if ok then TailAt(f.text, TailStart(f.text, p), owner, accounts) else None
    ensures tail.Some? ==> RecordMeans(entry.bits[..], entry.flags, f.text, p)
    ensures tail.Some? ==> f.pos == tail.value.end + 1
    ensures tail == None ==> Rejected(f, p, ch, owner, accounts)
  {
    entry := new Entry();
    var timeOk;
    ch, timeOk, hang := LoadTime(f, entry, first, p);
    ok, tail := timeOk, None;
    if timeOk {
      ghost var bytes, flags := entry.bits[..], entry.flags;
      tail, ch := RereadTail(f, owner, accounts, ch, TailStart(f.text, p));
      assert entry.bits[..] == bytes && entry.flags == flags;
    }
  }

  method FillEntry(e: Entry, tail: Tail, envp: array<Option<string>>)
    requires IsEnv(envp) && PasswdOk(tail.pw)
    modifies e
    ensures e.flags == old(e.flags) && e.uid == tail.pw.uid && e.gid == tail.pw.gid && e.cmd == tail.cmd
    ensures fresh(e.envp) && IsEnv(e.envp) && Entries(e.envp) == EntryEnv(Entries(envp), tail.pw)
  {
    e.uid, e.gid := tail.pw.uid, tail.pw.gid;
    e.envp := EntryEnvironment(envp, tail.pw);
    e.cmd := tail.cmd;
  }

  /** A finished entry as a value: nothing changes it once it is loaded. */
  datatype EntryView = EntryView(uid: int, gid: int, env: seq<string>, cmd: string, bytes: seq<bv8>, flags: Flags)

  function View(e: Entry): EntryView
    requires IsEnv(e.envp)
    reads e, e.bits, e.envp
  {
    EntryView(e.uid, e.gid, Entries(e.envp), e.cmd, e.bits[..], e.flags)
  }

  /** What a loaded entry is, in terms of the text it was loaded from. */
  ghost predicate ViewLoaded(v: EntryView, s: string, p: nat, owner: Option<Passwd>, accounts: map<string, Passwd>,
                             env: seq<string>)
    requires p < |s|
  {
    var tail := TailAt(s, TailStart(s, p), owner, accounts);
    && RecordMeans(v.bytes, v.flags, s, p)
    && tail.Some?
    && v.uid == tail.value.pw.uid && v.gid == tail.value.pw.gid && v.cmd == tail.value.cmd
    && v.env == EntryEnv(env, tail.value.pw)
  }

  /** The text determines the entry. */
  lemma ViewDetermined(v: EntryView, w: EntryView, s: string, p: nat, owner: Option<Passwd>,
                       accounts: map<string, Passwd>, env: seq<string>)
    requires p < |s| && ViewLoaded(v, s, p, owner, accounts, env) && ViewLoaded(w, s, p, owner, accounts, env)
    ensures v == w
  {
    RecordDetermined(v.bytes, v.flags, w.bytes, w.flags, s, p);
  }

  ghost predicate EntryLoaded(e: Entry, s: string, p: nat, owner: Option<Passwd>, accounts: map<string, Passwd>,
                         env: seq<string>)
    requires p < |s|
    reads e, e.bits, e.envp
  {
    IsEnv(e.envp) && ViewLoaded(View(e), s, p, owner, accounts, env)
  }
}
