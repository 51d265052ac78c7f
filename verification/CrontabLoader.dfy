/** Loading a whole crontab (`load_user` of user.c): settings and entries, line after line. */
module CrontabLoader {
  import opened Common
  import opened CronText
  import opened CronFields
  import opened CronRecord
  import opened Environment
  import opened CronEntry

  /** One round of the loop: a setting, an entry, or a line that is neither. */
  datatype Round =
    | Set(pos: nat, setting: string)
    | Accept(pos: nat)
    | Reject(pos: nat)

  ghost predicate EntryOk(s: string, pos: nat, owner: Option<Passwd>, accounts: map<string, Passwd>)
    requires pos <= |s|
  {
    var p := CommentsEnd(s, pos);
    p < |s| && TimeOk(s, p) && TailAt(s, TailStart(s, p), owner, accounts).Some?
  }

  /** The line at `pos` is no setting, and has a field on which the compiler loops. */
  ghost predicate LineHangs(s: string, pos: nat) {
    && pos <= |s| && NextLine(s, pos).Some? && ParseSetting(NextLine(s, pos).value) == None
    && CommentsEnd(s, pos) < |s| && s[CommentsEnd(s, pos)] != '@' && LineVerdict(s, CommentsEnd(s, pos)) == Hang
  }

  /** A round does what the text at its position calls for, and there is no round at a line on which the
      compiler loops. */
  ghost predicate RoundOk(s: string, r: Round, owner: Option<Passwd>, accounts: map<string, Passwd>) {
    && r.pos <= |s|
    && NextLine(s, r.pos).Some? && !LineHangs(s, r.pos)
    && var setting := ParseSetting(NextLine(s, r.pos).value);
       match r
       case Set(_, t) => setting == Some(t)
       case Accept(pos) => setting == None && EntryOk(s, pos, owner, accounts)
       case Reject(pos) => setting == None && !EntryOk(s, pos, owner, accounts)
  }

  /** The environment after some rounds. */
  function EnvAfter(rounds: seq<Round>): seq<string> {
    if rounds == [] then []
    else
      var r := rounds[|rounds| - 1];
      var env := EnvAfter(rounds[..|rounds| - 1]);
      if r.Set? then Updated(env, r.setting) else env
  }

  /** The entries that the rounds accept, in the order of the text: where each begins, and the
      environment it is loaded in. */
  function Accepted(rounds: seq<Round>): seq<(nat, seq<string>)> {
    if rounds == [] then []
    else
      var r := rounds[|rounds| - 1];
      var before := rounds[..|rounds| - 1];
      if r.Accept? then Accepted(before) + [(r.pos, EnvAfter(before))] else Accepted(before)
  }

  lemma RoundsGrow(rounds: seq<Round>, r: Round)
    ensures EnvAfter(rounds + [r]) == if r.Set? then Updated(EnvAfter(rounds), r.setting) else EnvAfter(rounds)
    ensures Accepted(rounds + [r]) ==
            if r.Accept? then Accepted(rounds) + [(r.pos, EnvAfter(rounds))] else Accepted(rounds)
  {
    assert (rounds + [r])[..|rounds|] == rounds;
  }

  lemma {:induction false} EnvAfterUnique(rounds: seq<Round>)
    ensures UniqueNames(EnvAfter(rounds))
  {
    if rounds != [] {
      EnvAfterUnique(rounds[..|rounds| - 1]);
      var r := rounds[|rounds| - 1];
      if r.Set? {
        UpdatedUnique(EnvAfter(rounds[..|rounds| - 1]), r.setting);
      }
    }
  }

  /** A round leaves the reader right after the line or the entry that it takes, or where the entry
      was rejected. */
  ghost predicate Leaves(s: string, r: Round, pos: nat, owner: Option<Passwd>, accounts: map<string, Passwd>)
    requires RoundOk(s, r, owner, accounts)
  {
    && r.pos < pos <= |s|
    && match r
       case Set(_, _) => pos == LineEnd(s, r.pos) + 1
       case Accept(_) => pos == EntryEnd(s, r.pos, owner, accounts) + 1
       case Reject(_) => pos == RejectedEnd(s, r.pos, owner, accounts)
  }

  ghost function RejectedEnd(s: string, pos: nat, owner: Option<Passwd>, accounts: map<string, Passwd>): nat
    requires pos <= |s|
  {
    if CommentsEnd(s, pos) == |s| then |s| else RejectEnd(s, CommentsEnd(s, pos), owner, accounts)
  }

  function EntryEnd(s: string, pos: nat, owner: Option<Passwd>, accounts: map<string, Passwd>): nat
    requires pos <= |s| && EntryOk(s, pos, owner, accounts)
  {
    TailAt(s, TailStart(s, CommentsEnd(s, pos)), owner, accounts).value.end
  }

  /** The rounds cover the text from its beginning up to `pos`, each going on where the last left
      the reader. */
  ghost predicate Covers(s: string, rounds: seq<Round>, pos: nat, owner: Option<Passwd>,
                         accounts: map<string, Passwd>) {
    if rounds == [] then pos == 0
    else
      var r := rounds[|rounds| - 1];
      && RoundOk(s, r, owner, accounts) && Leaves(s, r, pos, owner, accounts)
      && Covers(s, rounds[..|rounds| - 1], r.pos, owner, accounts)
  }

  /** The list of entries, which is built from its end: the last entry of the text comes first. */
  ghost predicate TabLoaded(views: seq<EntryView>, s: string, loads: seq<(nat, seq<string>)>, owner: Option<Passwd>,
                      accounts: map<string, Passwd>) {
    if views == [] || loads == [] then views == [] && loads == []
    else
      var last := |loads| - 1;
      && LoadedAt(views[0], s, loads[last].0, loads[last].1, owner, accounts)
      && TabLoaded(views[1..], s, loads[..last], owner, accounts)
  }

  ghost predicate LoadedAt(v: EntryView, s: string, pos: nat, env: seq<string>, owner: Option<Passwd>,
                           accounts: map<string, Passwd>) {
    pos <= |s| && CommentsEnd(s, pos) < |s| && ViewLoaded(v, s, CommentsEnd(s, pos), owner, accounts, env)
  }

  lemma CoversGrow(s: string, rounds: seq<Round>, r: Round, pos: nat, owner: Option<Passwd>,
                   accounts: map<string, Passwd>)
    requires Covers(s, rounds, r.pos, owner, accounts) && RoundOk(s, r, owner, accounts)
    requires Leaves(s, r, pos, owner, accounts)
    ensures Covers(s, rounds + [r], pos, owner, accounts)
  {
    assert (rounds + [r])[..|rounds|] == rounds;
  }

  lemma TabGrows(views: seq<EntryView>, v: EntryView, s: string, loads: seq<(nat, seq<string>)>, pos: nat,
                 env: seq<string>, owner: Option<Passwd>, accounts: map<string, Passwd>)
    requires TabLoaded(views, s, loads, owner, accounts) && LoadedAt(v, s, pos, env, owner, accounts)
    ensures TabLoaded([v] + views, s, loads + [(pos, env)], owner, accounts)
  {
    assert ([v] + views)[1..] == views;
    assert (loads + [(pos, env)])[..|loads|] == loads;
  }

  /** The round `r`, which follows `rounds`, has been done: it ended at `pos` with the entry `loaded`. */
  ghost predicate RoundDone(s: string, rounds: seq<Round>, r: Round, pos: nat, loaded: Option<EntryView>,
                            owner: Option<Passwd>, accounts: map<string, Passwd>) {
    && RoundOk(s, r, owner, accounts) && Leaves(s, r, pos, owner, accounts)
    && (r.Accept? <==> loaded.Some?)
    && (loaded.Some? ==> LoadedAt(loaded.value, s, r.pos, EnvAfter(rounds), owner, accounts))
  }

  /** A round that comes to an entry. */
  method LoadEntryRound(f: CrontabFile, owner: Option<Passwd>, accounts: map<string, Passwd>,
                        envp: array<Option<string>>, ghost rounds: seq<Round>, ghost pos: nat)
    returns (loaded: Option<EntryView>, hang: bool, ghost r: Round)
    requires f.Valid() && IsEnv(envp) && Entries(envp) == EnvAfter(rounds)
    requires AccountsOk(owner, accounts)
    requires pos <= |f.text| && Status(f.text, pos, NotSetting, f.pos)
    modifies f
    ensures f.Valid() && r.pos == pos && !r.Set?
    ensures if hang then LineHangs(f.text, pos) else RoundDone(f.text, rounds, r, f.pos, loaded, owner, accounts)
  {
    var e;
    e, hang := LoadEntry(f, owner, accounts, envp);
    loaded, r := None, Reject(pos);
    if e != null {
      loaded, r := Some(View(e)), Accept(pos);
    }
  }

  /** One round of the loop. It consumes text, although a line that is no setting is read twice and
      an entry gives one character back. */
  method LoadRound(f: CrontabFile, owner: Option<Passwd>, accounts: map<string, Passwd>, envp: array<Option<string>>,
                   status: EnvLine, ghost rounds: seq<Round>, ghost pos: nat)
    returns (p: array<Option<string>>, loaded: Option<EntryView>, hang: bool, ghost r: Round)
    requires f.Valid() && IsEnv(envp) && Entries(envp) == EnvAfter(rounds)
    requires AccountsOk(owner, accounts)
    requires pos <= |f.text| && Status(f.text, pos, status, f.pos) && status != EndOfFile
    modifies f, envp
    ensures f.Valid() && (p == envp || fresh(p)) && IsEnv(p)
    ensures hang ==> LineHangs(f.text, pos)
    ensures !hang ==> Entries(p) == EnvAfter(rounds + [r])
    ensures !hang ==> r.pos == pos && RoundDone(f.text, rounds, r, f.pos, loaded, owner, accounts)
  {
    p, loaded, hang := envp, None, false;
    match status {
      case NotSetting =>
        loaded, hang, r := LoadEntryRound(f, owner, accounts, envp, rounds, pos);
      case Setting(envstr) =>
        r := Set(pos, envstr);
        NextLineIsCString(f.text, pos);
        SettingShape(NextLine(f.text, pos).value);
        p := EnvSet(envp, envstr);
    }
    RoundsGrow(rounds, r);
  }

  /** What has been loaded when the reader stands at `pos`. */
  ghost predicate Progress(s: string, rounds: seq<Round>, pos: nat, crontab: seq<EntryView>, owner: Option<Passwd>,
                           accounts: map<string, Passwd>) {
    && pos <= |s| && Covers(s, rounds, pos, owner, accounts)
    && TabLoaded(crontab, s, Accepted(rounds), owner, accounts)
  }

  lemma ProgressStep(s: string, rounds: seq<Round>, r: Round, pos: nat, crontab: seq<EntryView>,
                     loaded: Option<EntryView>, owner: Option<Passwd>, accounts: map<string, Passwd>)
    requires Progress(s, rounds, r.pos, crontab, owner, accounts)
    requires RoundDone(s, rounds, r, pos, loaded, owner, accounts)
    ensures Progress(s, rounds + [r], pos, if loaded.Some? then [loaded.value] + crontab else crontab, owner, accounts)
  {
    RoundsGrow(rounds, r);
    CoversGrow(s, rounds, r, pos, owner, accounts);
    if loaded.Some? {
      TabGrows(crontab, loaded.value, s, Accepted(rounds), r.pos, EnvAfter(rounds), owner, accounts);
    }
  }

  /** A round and what it adds to the list of entries. */
  method LoadStep(f: CrontabFile, owner: Option<Passwd>, accounts: map<string, Passwd>, envp: array<Option<string>>,
                  status: EnvLine, crontab: seq<EntryView>, ghost rounds: seq<Round>, ghost pos: nat)
    returns (p: array<Option<string>>, tab: seq<EntryView>, hang: bool, ghost r: Round)
    requires f.Valid() && IsEnv(envp) && Entries(envp) == EnvAfter(rounds)
    requires AccountsOk(owner, accounts)
    requires Progress(f.text, rounds, pos, crontab, owner, accounts)
    requires Status(f.text, pos, status, f.pos) && status != EndOfFile
    modifies f, envp
    ensures f.Valid() && (p == envp || fresh(p)) && IsEnv(p)
    ensures hang ==> LineHangs(f.text, pos) && tab == crontab
    ensures !hang ==> pos < f.pos && Entries(p) == EnvAfter(rounds + [r])
    ensures !hang ==> Progress(f.text, rounds + [r], f.pos, tab, owner, accounts)
  {
    var loaded;
    p, loaded, hang, r := LoadRound(f, owner, accounts, envp, status, rounds, pos);
    tab := crontab;
    if !hang {
      ProgressStep(f.text, rounds, r, f.pos, crontab, loaded, owner, accounts);
      if loaded.Some? {
        tab := [loaded.value] + crontab;
      }
    }
  }

  /** No round stands at a line on which the compiler loops. */
  ghost predicate NoneHangs(s: string, rounds: seq<Round>) {
    rounds == [] || (!LineHangs(s, rounds[|rounds| - 1].pos) && NoneHangs(s, rounds[..|rounds| - 1]))
  }

  lemma {:induction false} CoversNoHang(s: string, rounds: seq<Round>, pos: nat, owner: Option<Passwd>,
                                        accounts: map<string, Passwd>)
    requires Covers(s, rounds, pos, owner, accounts)
    ensures NoneHangs(s, rounds)
  {
    if rounds != [] {
      var last := rounds[|rounds| - 1];
      CoversLast(s, rounds, last, pos, owner, accounts);
      CoversNoHang(s, rounds[..|rounds| - 1], last.pos, owner, accounts);
    }
  }

  /** The body of the loop of `load_user`, and the look at the next line that follows it. */
  method LoadNext(f: CrontabFile, owner: Option<Passwd>, accounts: map<string, Passwd>, envp: array<Option<string>>,
                  status: EnvLine, crontab: seq<EntryView>, ghost rounds: seq<Round>, ghost pos: nat)
    returns (p: array<Option<string>>, tab: seq<EntryView>, hang: bool, ghost r: Round, ghost end: nat, next: EnvLine)
    requires f.Valid() && IsEnv(envp) && Entries(envp) == EnvAfter(rounds)
    requires AccountsOk(owner, accounts)
    requires Progress(f.text, rounds, pos, crontab, owner, accounts)
    requires Status(f.text, pos, status, f.pos) && status != EndOfFile
    modifies f, envp
    ensures f.Valid() && (p == envp || fresh(p)) && IsEnv(p)
    ensures hang ==> LineHangs(f.text, pos) && tab == crontab
    ensures !hang ==> pos < end <= |f.text| && Entries(p) == EnvAfter(rounds + [r])
    ensures !hang ==> Progress(f.text, rounds + [r], end, tab, owner, accounts) && Status(f.text, end, next, f.pos)
  {
    p, tab, hang, r := LoadStep(f, owner, accounts, envp, status, crontab, rounds, pos);
    end, next := f.pos, status;
    if !hang {
      next := LoadEnv(f);
    }
  }

  /** The loop of `load_user`: round after round, until the text ends or the compiler loops. */
  method LoadRounds(f: CrontabFile, owner: Option<Passwd>, accounts: map<string, Passwd>)
    returns (crontab: seq<EntryView>, hang: bool, ghost rounds: seq<Round>, ghost pos: nat)
    requires f.Valid() && f.pos == 0
    requires AccountsOk(owner, accounts)
    modifies f
    ensures Progress(f.text, rounds, pos, crontab, owner, accounts)
    ensures if hang then LineHangs(f.text, pos) else NextLine(f.text, pos) == None
  {
    ghost var text := f.text;
    crontab, hang, rounds, pos := [], false, [], 0;
    var envp := EnvInit();
    var status := LoadEnv(f);
    while status != EndOfFile
      invariant f.Valid()
      invariant fresh(envp) && IsEnv(envp) && Entries(envp) == EnvAfter(rounds)
      invariant Progress(text, rounds, pos, crontab, owner, accounts)
      invariant Status(text, pos, status, f.pos)
      decreases |text| - pos
    {
      ghost var r, end;
      envp, crontab, hang, r, end, status := LoadNext(f, owner, accounts, envp, status, crontab, rounds, pos);
      if hang {
        return;
      }
      rounds, pos := rounds + [r], end;
    }
  }

  /** The whole text is covered by rounds, and the entries are those that the rounds accept. `hang`
      says that the loader has come to a line on which the field compiler loops; otherwise there was
      none, and loading ends. */
  method LoadUser(f: CrontabFile, owner: Option<Passwd>, accounts: map<string, Passwd>)
    returns (crontab: seq<EntryView>, hang: bool, ghost rounds: seq<Round>, ghost pos: nat)
    requires f.Valid() && f.pos == 0
    requires AccountsOk(owner, accounts)
    modifies f
    ensures Progress(f.text, rounds, pos, crontab, owner, accounts)
    ensures if hang then LineHangs(f.text, pos) else NextLine(f.text, pos) == None
    ensures NoneHangs(f.text, rounds)
  {
    crontab, hang, rounds, pos := LoadRounds(f, owner, accounts);
    CoversNoHang(f.text, rounds, pos, owner, accounts);
  }

  lemma SameRound(s: string, r: Round, r': Round, owner: Option<Passwd>, accounts: map<string, Passwd>)
    requires RoundOk(s, r, owner, accounts) && RoundOk(s, r', owner, accounts) && r.pos == r'.pos
    ensures r == r'
  {}

  lemma CoversLast(s: string, rounds: seq<Round>, last: Round, pos: nat, owner: Option<Passwd>,
                   accounts: map<string, Passwd>)
    requires rounds != [] && last == rounds[|rounds| - 1] && Covers(s, rounds, pos, owner, accounts)
    ensures RoundOk(s, last, owner, accounts) && Leaves(s, last, pos, owner, accounts)
    ensures Covers(s, rounds[..|rounds| - 1], last.pos, owner, accounts)
  {}

  /** Two rounds at one position are the same, and leave the reader at the same place. */
  lemma SameEnd(s: string, r: Round, p: nat, r': Round, p': nat, owner: Option<Passwd>, accounts: map<string, Passwd>)
    requires RoundOk(s, r, owner, accounts) && RoundOk(s, r', owner, accounts) && r.pos == r'.pos
    requires Leaves(s, r, p, owner, accounts) && Leaves(s, r', p', owner, accounts)
    ensures r == r' && p == p'
  {
    SameRound(s, r, r', owner, accounts);
  }

  /** Of two courses over the same text one begins with the other, which goes on from where the first
      ended. */
  ghost predicate Agree(s: string, a: seq<Round>, pa: nat, b: seq<Round>, pb: nat) {
    && |a| <= |b| && a == b[..|a|]
    && (if |a| < |b| then pa <= |s| && NextLine(s, pa).Some? else pa == pb)
  }

  lemma AgreeLonger(s: string, a: seq<Round>, pa: nat, b: seq<Round>, pb: nat, r: Round, owner: Option<Passwd>,
                    accounts: map<string, Passwd>)
    requires b != [] && r == b[|b| - 1] && RoundOk(s, r, owner, accounts) && Agree(s, a, pa, b[..|b| - 1], r.pos)
    ensures Agree(s, a, pa, b, pb)
  {
    assert b[..|b| - 1][..|a|] == b[..|a|];
  }

  lemma UpToLast(a: seq<Round>)
    requires a != []
    ensures a == a[..|a| - 1] + [a[|a| - 1]]
  {}

  lemma AgreeEqual(s: string, a: seq<Round>, pa: nat, b: seq<Round>, pb: nat, q: Round, r: Round,
                   owner: Option<Passwd>, accounts: map<string, Passwd>)
    requires |a| == |b| > 0 && q == a[|a| - 1] && r == b[|b| - 1] && Agree(s, a[..|a| - 1], q.pos, b[..|b| - 1], r.pos)
    requires RoundOk(s, q, owner, accounts) && RoundOk(s, r, owner, accounts)
    requires Leaves(s, q, pa, owner, accounts) && Leaves(s, r, pb, owner, accounts)
    ensures Agree(s, a, pa, b, pb)
  {
    SameEnd(s, q, pa, r, pb, owner, accounts);
    UpToLast(a);
    UpToLast(b);
  }

  lemma {:induction false} CoversAgree(s: string, a: seq<Round>, pa: nat, b: seq<Round>, pb: nat,
                                       owner: Option<Passwd>, accounts: map<string, Passwd>)
    requires Covers(s, a, pa, owner, accounts) && Covers(s, b, pb, owner, accounts) && |a| <= |b|
    ensures Agree(s, a, pa, b, pb)
    decreases |b|
  {
    if b != [] {
      var n := |b| - 1;
      CoversLast(s, b, b[n], pb, owner, accounts);
      if |a| < |b| {
        CoversAgree(s, a, pa, b[..n], b[n].pos, owner, accounts);
        AgreeLonger(s, a, pa, b, pb, b[n], owner, accounts);
      } else {
        CoversLast(s, a, a[n], pa, owner, accounts);
        CoversAgree(s, a[..n], a[n].pos, b[..n], b[n].pos, owner, accounts);
        AgreeEqual(s, a, pa, b, pb, a[n], b[n], owner, accounts);
      }
    }
  }

  /** The text determines the rounds of a loader that reads it to its end, and with them the entries
      that are accepted, and their environments. */
  lemma RoundsAreDetermined(s: string, a: seq<Round>, pa: nat, b: seq<Round>, pb: nat, owner: Option<Passwd>,
                            accounts: map<string, Passwd>)
    requires Covers(s, a, pa, owner, accounts) && pa <= |s| && NextLine(s, pa) == None
    requires Covers(s, b, pb, owner, accounts) && pb <= |s| && NextLine(s, pb) == None
    ensures a == b && pa == pb
  {
    if |a| <= |b| {
      CoversAgree(s, a, pa, b, pb, owner, accounts);
    } else {
      CoversAgree(s, b, pb, a, pa, owner, accounts);
    }
  }

  lemma FirstDetermined(a: seq<EntryView>, b: seq<EntryView>, s: string, loads: seq<(nat, seq<string>)>,
                        owner: Option<Passwd>, accounts: map<string, Passwd>)
    requires EntryAt(a, s, loads, 0, owner, accounts) && EntryAt(b, s, loads, 0, owner, accounts)
    ensures a[0] == b[0]
  {
    var load := loads[|loads| - 1];
    ViewDetermined(a[0], b[0], s, CommentsEnd(s, load.0), owner, accounts, load.1);
  }

  lemma SameRest(a: seq<EntryView>, b: seq<EntryView>)
    requires a != [] && b != [] && a[0] == b[0] && a[1..] == b[1..]
    ensures a == b
  {
    assert a == [a[0]] + a[1..] && b == [b[0]] + b[1..];
  }

  lemma {:induction false} TabDetermined(a: seq<EntryView>, b: seq<EntryView>, s: string,
                                         loads: seq<(nat, seq<string>)>, owner: Option<Passwd>,
                                         accounts: map<string, Passwd>)
    requires TabLoaded(a, s, loads, owner, accounts) && TabLoaded(b, s, loads, owner, accounts)
    ensures a == b
    decreases |a|
  {
    if a != [] {
      TabFirst(a, s, loads, owner, accounts);
      TabFirst(b, s, loads, owner, accounts);
      FirstDetermined(a, b, s, loads, owner, accounts);
      var ra, rb, before := a[1..], b[1..], loads[..|loads| - 1];
      TabDetermined(ra, rb, s, before, owner, accounts);
      SameRest(a, b);
    }
  }

  predicate AtEnd(s: string, pos: nat) {
    pos <= |s| && NextLine(s, pos) == None
  }

  /** These rounds take the whole text, and load `tab`. */
  ghost predicate Complete(s: string, rounds: seq<Round>, pos: nat, tab: seq<EntryView>, owner: Option<Passwd>,
                           accounts: map<string, Passwd>) {
    Progress(s, rounds, pos, tab, owner, accounts) && AtEnd(s, pos)
  }

  /** What a crontab loads to is determined by its text, byte for byte. */
  lemma LoadDetermined(s: string, a: seq<Round>, pa: nat, ta: seq<EntryView>, b: seq<Round>, pb: nat,
                       tb: seq<EntryView>, owner: Option<Passwd>, accounts: map<string, Passwd>)
    requires Complete(s, a, pa, ta, owner, accounts) && Complete(s, b, pb, tb, owner, accounts)
    ensures ta == tb
  {
    RoundsAreDetermined(s, a, pa, b, pb, owner, accounts);
    TabDetermined(ta, tb, s, Accepted(a), owner, accounts);
  }

  lemma SameCourse(s: string, a: seq<Round>, pa: nat, b: seq<Round>, pb: nat, owner: Option<Passwd>,
                   accounts: map<string, Passwd>)
    requires Covers(s, a, pa, owner, accounts) && Covers(s, b, pb, owner, accounts) && |a| == |b|
    ensures a == b && pa == pb
  {
    CoversAgree(s, a, pa, b, pb, owner, accounts);
    assert a == b[..|a|] == b;
  }

  lemma RoundHangsNot(s: string, r: Round, owner: Option<Passwd>, accounts: map<string, Passwd>)
    requires RoundOk(s, r, owner, accounts)
    ensures !LineHangs(s, r.pos)
  {}

  /** A course that goes on goes on where the shorter one ended, at a line that does not hang. */
  lemma {:induction false} CoversGoesOn(s: string, a: seq<Round>, pa: nat, b: seq<Round>, pb: nat,
                                        owner: Option<Passwd>, accounts: map<string, Passwd>)
    requires Covers(s, a, pa, owner, accounts) && Covers(s, b, pb, owner, accounts) && |a| < |b|
    ensures !LineHangs(s, pa)
    decreases |b|
  {
    var n := |b| - 1;
    var before, last := b[..n], b[n];
    CoversLast(s, b, last, pb, owner, accounts);
    if |a| < n {
      CoversGoesOn(s, a, pa, before, last.pos, owner, accounts);
    } else {
      SameCourse(s, a, pa, before, last.pos, owner, accounts);
      RoundHangsNot(s, last, owner, accounts);
    }
  }

  /** If the whole text can be loaded, no course comes to a line that hangs. */
  lemma CompleteNoHang(s: string, a: seq<Round>, pa: nat, b: seq<Round>, pb: nat, owner: Option<Passwd>,
                       accounts: map<string, Passwd>)
    requires Covers(s, a, pa, owner, accounts) && Covers(s, b, pb, owner, accounts) && AtEnd(s, pb)
    ensures !LineHangs(s, pa)
  {
    if |a| < |b| {
      CoversGoesOn(s, a, pa, b, pb, owner, accounts);
    } else {
      CoversAgree(s, b, pb, a, pa, owner, accounts);
    }
  }

  /** The `k`-th entry of the list is the accepted one that is `k` from the last. */
  ghost predicate EntryAt(views: seq<EntryView>, s: string, loads: seq<(nat, seq<string>)>, k: nat,
                          owner: Option<Passwd>, accounts: map<string, Passwd>) {
    && k < |views| && k < |loads|
    && LoadedFrom(views[k], s, loads[|loads| - 1 - k], owner, accounts)
  }

  ghost predicate LoadedFrom(v: EntryView, s: string, load: (nat, seq<string>), owner: Option<Passwd>,
                             accounts: map<string, Passwd>) {
    LoadedAt(v, s, load.0, load.1, owner, accounts)
  }

  lemma TabFirst(views: seq<EntryView>, s: string, loads: seq<(nat, seq<string>)>, owner: Option<Passwd>,
                 accounts: map<string, Passwd>)
    requires TabLoaded(views, s, loads, owner, accounts) && views != []
    ensures EntryAt(views, s, loads, 0, owner, accounts)
    ensures TabLoaded(views[1..], s, loads[..|loads| - 1], owner, accounts)
  {}

  lemma {:induction false} TabLength(views: seq<EntryView>, s: string, loads: seq<(nat, seq<string>)>,
                                     owner: Option<Passwd>, accounts: map<string, Passwd>)
    requires TabLoaded(views, s, loads, owner, accounts)
    ensures |loads| == |views|
    decreases |views|
  {
    if views != [] {
      TabFirst(views, s, loads, owner, accounts);
      TabLength(views[1..], s, loads[..|loads| - 1], owner, accounts);
    }
  }

  lemma DropAndTake<T, U>(a: seq<T>, b: seq<U>, k: nat)
    requires k < |a| == |b|
    ensures a[k..] != [] && a[k..][0] == a[k] && a[k..][1..] == a[k + 1..]
    ensures var m := |b| - k;
            b[..m] != [] && b[..m][m - 1] == b[|b| - 1 - k] && b[..m][..m - 1] == b[..|b| - (k + 1)]
  {}

  /** Without the `k` first entries, the list is what the loads but for the `k` last give. */
  lemma {:induction false} TabDrop(views: seq<EntryView>, s: string, loads: seq<(nat, seq<string>)>, k: nat,
                                   owner: Option<Passwd>, accounts: map<string, Passwd>)
    requires TabLoaded(views, s, loads, owner, accounts) && k <= |views| == |loads|
    ensures TabLoaded(views[k..], s, loads[..|loads| - k], owner, accounts)
  {
    if k == 0 {
      assert views[k..] == views && loads[..|loads| - k] == loads;
    } else {
      TabDrop(views, s, loads, k - 1, owner, accounts);
      DropAndTake(views, loads, k - 1);
      TabFirst(views[k - 1..], s, loads[..|loads| - (k - 1)], owner, accounts);
    }
  }

  lemma EntryMoves(rest: seq<EntryView>, before: seq<(nat, seq<string>)>, views: seq<EntryView>,
                   loads: seq<(nat, seq<string>)>, s: string, k: nat, owner: Option<Passwd>,
                   accounts: map<string, Passwd>)
    requires EntryAt(rest, s, before, 0, owner, accounts) && k < |views| && k < |loads|
    requires rest[0] == views[k] && before[|before| - 1] == loads[|loads| - 1 - k]
    ensures EntryAt(views, s, loads, k, owner, accounts)
  {}

  lemma TabEntry(views: seq<EntryView>, s: string, loads: seq<(nat, seq<string>)>, k: nat, owner: Option<Passwd>,
                 accounts: map<string, Passwd>)
    requires TabLoaded(views, s, loads, owner, accounts) && k < |views|
    ensures EntryAt(views, s, loads, k, owner, accounts)
  {
    TabLength(views, s, loads, owner, accounts);
    TabDrop(views, s, loads, k, owner, accounts);
    DropAndTake(views, loads, k);
    var rest, before := views[k..], loads[..|loads| - k];
    TabFirst(rest, s, before, owner, accounts);
    EntryMoves(rest, before, views, loads, s, k, owner, accounts);
  }
}
