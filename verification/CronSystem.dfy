/** From the text of the crontabs on disk to the jobs that the ticks of a run queue. */
module CronSystem {
  import opened Common
  import opened CronText
  import opened CronRecord
  import opened CronEntry
  import opened CrontabLoader
  import opened CronDatabase
  import opened JobQueue
  import opened CronLog
  import opened CronDaemon
  import CronPlain
  import CronSchedule

  lemma {:induction false} ReloadSources(users: seq<UserView>, files: seq<Spooled>, v: UserView)
    requires v in Reload(users, files)
    ensures v in users || exists f :: f in files && FromFile(v, f)
    decreases |files|
  {
    var f := files[0];
    if v in Added(users, f) {
      assert v in users || FromFile(v, f);
    } else {
      ReloadSources(Remaining(users, f), files[1..], v);
    }
  }

  lemma ReloadedSource(b: Base, d: Disk, v: UserView) returns (f: Spooled)
    requires v in Reloaded(b, d).users && v !in b.users
    ensures f in Files(d) && FromFile(v, f)
  {
    ReloadSources(b.users, Files(d), v);
    f :| f in Files(d) && FromFile(v, f);
  }

  /** Every user of the database was loaded from a file that was on disk at some reload. */
  lemma {:induction false} UsersComeFromFiles(disks: seq<Disk>, k: nat, v: UserView) returns (i: nat, f: Spooled)
    requires k <= |disks| && v in BaseAfter(disks, k).users
    ensures i < k && f in Files(disks[i]) && FromFile(v, f)
  {
    var before := BaseAfter(disks, k - 1);
    if v in before.users {
      i, f := UsersComeFromFiles(disks, k - 1, v);
    } else {
      i := k - 1;
      f := ReloadedSource(before, disks[i], v);
    }
  }

  lemma FullReloadHas(files: seq<Spooled>, f: Spooled)
    requires f in files && Usable(f) && f.load.Some?
    ensures UserView(f.fname, f.mtime, f.load.value) in FullReload(files)
  {
    var v := UserView(f.fname, f.mtime, f.load.value);
    FullReloadMembers(files, v);
    assert FromFile(v, f);
  }

  /** Where the entry at `line` of a crontab begins in its text: the list is built from its end. */
  function LineStart(loads: seq<(nat, seq<string>)>, line: nat): nat
    requires line < |loads|
  {
    loads[|loads| - 1 - line].0
  }

  /** Line `line` of the file's crontab is queued at the time `tm` exactly when its text names it. */
  ghost predicate QueuedAsWritten(due: seq<Job>, u: User, line: nat, f: Spooled, rounds: seq<Round>, tm: Tm) {
    && line < |Accepted(rounds)|
    && LineStart(Accepted(rounds), line) <= |f.text|
    && CommentsEnd(f.text, LineStart(Accepted(rounds), line)) < |f.text|
    && (Job(line, u) in due <==> EntryNames(f.text, CommentsEnd(f.text, LineStart(Accepted(rounds), line)), tm))
  }

  lemma FiringIsQueued(log: seq<Event>, zone: Zone, tick: Event, u: User, line: nat)
    requires LogOk(log, zone) && tick in Ticks(log) && tick.Tick? && u in tick.users && line < |u.tab|
    ensures Job(line, u) in tick.due <==> Fires(u.tab[line], Minute(zone(tick.at).0))
  {
    TicksAreOk(log, zone, tick);
    DueMembers(tick.users, Minute(zone(tick.at).0), Job(line, u));
  }

  lemma WrittenFires(tab: Tab, line: nat, f: Spooled, rounds: seq<Round>, accounts: map<string, Passwd>, tm: Tm)
    requires line < |tab| && ValidTm(tm) && LoadedBy(f, tab, rounds, accounts)
    ensures |Accepted(rounds)| == |tab| && FiresAsAt(tab[line], f.text, LineStart(Accepted(rounds), line), tm)
  {
    var pos: nat :| CrontabLoader.Complete(f.text, rounds, pos, tab, f.account, accounts);
    CompleteLineFires(f, tab, line, rounds, pos, accounts, tm);
  }

  lemma LineStartIs(loads: seq<(nat, seq<string>)>, line: nat, start: nat)
    requires line < |loads| && start == loads[|loads| - 1 - line].0
    ensures LineStart(loads, line) == start
  {}

  lemma CompleteLineFires(f: Spooled, tab: Tab, line: nat, rounds: seq<Round>, pos: nat,
                          accounts: map<string, Passwd>, tm: Tm)
    requires line < |tab| && ValidTm(tm) && CrontabLoader.Complete(f.text, rounds, pos, tab, f.account, accounts)
    ensures |Accepted(rounds)| == |tab| && FiresAsAt(tab[line], f.text, LineStart(Accepted(rounds), line), tm)
  {
    var loads := Accepted(rounds);
    TabLength(tab, f.text, loads, f.account, accounts);
    LineStartIs(loads, line, loads[|loads| - 1 - line].0);
    LoadedLineFires(f.text, rounds, loads, pos, tab, line, f.account, accounts, tm);
  }

  lemma WrittenIsQueued(due: seq<Job>, u: User, line: nat, f: Spooled, rounds: seq<Round>, tm: Tm)
    requires line < |u.tab| == |Accepted(rounds)|
    requires FiresAsAt(u.tab[line], f.text, LineStart(Accepted(rounds), line), tm)
    requires Job(line, u) in due <==> Fires(u.tab[line], Minute(tm))
    ensures QueuedAsWritten(due, u, line, f, rounds, tm)
  {}

  lemma LineIsQueued(log: seq<Event>, zone: Zone, tick: Event, u: User, line: nat, f: Spooled, rounds: seq<Round>,
                     accounts: map<string, Passwd>)
    requires LogOk(log, zone) && tick in Ticks(log) && tick.Tick? && u in tick.users && line < |u.tab|
    requires LoadedBy(f, u.tab, rounds, accounts)
    ensures QueuedAsWritten(tick.due, u, line, f, rounds, zone(tick.at).0)
  {
    FiringIsQueued(log, zone, tick, u, line);
    WrittenFires(u.tab, line, f, rounds, accounts, zone(tick.at).0);
    WrittenIsQueued(tick.due, u, line, f, rounds, zone(tick.at).0);
  }

  /** The `k`-th tick of a run over these states of the disk. */
  ghost predicate TickOf(tick: Event, k: nat, log: seq<Event>, zone: Zone, start: int, disks: seq<Disk>) {
    LogOk(log, zone) && OnTime(Ticks(log), start, disks) && k < |Ticks(log)| && tick == Ticks(log)[k] && tick.Tick?
  }

  lemma TickIsOnTime(tick: Event, k: nat, log: seq<Event>, zone: Zone, start: int, disks: seq<Disk>)
    requires TickOf(tick, k, log, zone, start, disks)
    ensures k + 2 <= |disks| && TickOnTime(tick, k, start, disks) && tick in Ticks(log)
  {}

  /** Every user that a tick of a run goes through was loaded from a crontab that was on disk at one of the
      reloads so far, and each of his lines is queued exactly when its text there names the time of the
      tick. */
  lemma TickFollowsText(tick: Event, k: nat, log: seq<Event>, zone: Zone, start: int, disks: seq<Disk>,
                        u: User, line: nat)
    returns (i: nat, f: Spooled, rounds: seq<Round>)
    requires TickOf(tick, k, log, zone, start, disks) && DisksOk(disks)
    requires u in tick.users && line < |u.tab|
    ensures i < k + 2 <= |disks| && f in Files(disks[i]) && FromFile(ViewOf(u), f)
    ensures LoadedBy(f, u.tab, rounds, disks[i].accounts)
    ensures tick.at == start + 60 * k && QueuedAsWritten(tick.due, u, line, f, rounds, zone(tick.at).0)
  {
    TickIsOnTime(tick, k, log, zone, start, disks);
    i, f, rounds := UserText(tick.users, u, k + 2, disks);
    LineIsQueued(log, zone, tick, u, line, f, rounds, disks[i].accounts);
  }

  lemma UserText(users: seq<User>, u: User, k: nat, disks: seq<Disk>)
    returns (i: nat, f: Spooled, rounds: seq<Round>)
    requires k <= |disks| && DisksOk(disks) && u in users && Views(users) == BaseAfter(disks, k).users
    ensures i < k && f in Files(disks[i]) && FromFile(ViewOf(u), f)
    ensures LoadedBy(f, u.tab, rounds, disks[i].accounts)
  {
    var n :| 0 <= n < |users| && users[n] == u;
    assert Views(users)[n] == ViewOf(u);
    i, f := UsersComeFromFiles(disks, k, ViewOf(u));
    assert FileOk(f, disks[i].accounts);
    rounds :| LoadedBy(f, u.tab, rounds, disks[i].accounts);
  }

  /** The database after `k` reloads holds what is on disk at the last of them. */
  ghost predicate UpToDate(disks: seq<Disk>, k: nat)
    requires 0 < k <= |disks|
  {
    BaseAfter(disks, k).users == FullReload(Files(disks[k - 1]))
  }

  /** What was on disk at the reload before the `k`-th, and its stamp. */
  function FilesBefore(disks: seq<Disk>, k: nat): seq<Spooled>
    requires 0 < k <= |disks|
  {
    if k == 1 then [] else Files(disks[k - 2])
  }

  function StampBefore(disks: seq<Disk>, k: nat): int
    requires 0 < k <= |disks|
  {
    if k == 1 then 0 else Newest(disks[k - 2])
  }

  /** The `k`-th reload sees what has changed on disk: if the directories kept their times, loading
      everything gives what it gave before; otherwise no crontab that is taken for unchanged has changed. */
  ghost predicate ChangeIsSeen(disks: seq<Disk>, k: nat)
    requires 0 < k <= |disks|
  {
    if Newest(disks[k - 1]) == StampBefore(disks, k)
    then FullReload(Files(disks[k - 1])) == FullReload(FilesBefore(disks, k))
    else Coherent(FullReload(FilesBefore(disks, k)), Files(disks[k - 1]))
  }

  lemma BaseStamp(disks: seq<Disk>, k: nat)
    requires 0 < k <= |disks|
    ensures BaseAfter(disks, k - 1).mtime == StampBefore(disks, k)
  {}

  /** A database that is up to date stays so exactly when the next reload sees what has changed. */
  lemma StaysUpToDate(disks: seq<Disk>, k: nat)
    requires 0 < k <= |disks| && (k > 1 ==> UpToDate(disks, k - 1))
    ensures UpToDate(disks, k) <==> ChangeIsSeen(disks, k)
  {
    BaseStamp(disks, k);
    ReloadIsFullReload(BaseAfter(disks, k - 1).users, Files(disks[k - 1]));
  }

  ghost predicate AllSeen(disks: seq<Disk>, n: nat)
    requires n <= |disks|
  {
    forall k :: 0 < k <= n ==> ChangeIsSeen(disks, k)
  }

  ghost predicate AlwaysUpToDate(disks: seq<Disk>, n: nat)
    requires n <= |disks|
  {
    forall k :: 0 < k <= n ==> UpToDate(disks, k)
  }

  lemma OneMore(disks: seq<Disk>, n: nat)
    requires 0 < n <= |disks|
    ensures AllSeen(disks, n) <==> AllSeen(disks, n - 1) && ChangeIsSeen(disks, n)
    ensures AlwaysUpToDate(disks, n) <==> AlwaysUpToDate(disks, n - 1) && UpToDate(disks, n)
    ensures n > 1 && AlwaysUpToDate(disks, n - 1) ==> UpToDate(disks, n - 1)
  {}

  /** The database is up to date after every reload if and only if every reload sees what has changed on
      disk since the one before. */
  lemma {:induction false} WhenUpToDate(disks: seq<Disk>, n: nat)
    requires n <= |disks|
    ensures AlwaysUpToDate(disks, n) <==> AllSeen(disks, n)
  {
    if n > 0 {
      WhenUpToDate(disks, n - 1);
      OneMore(disks, n);
      if AllSeen(disks, n - 1) {
        StaysUpToDate(disks, n);
      }
    }
  }

  lemma {:induction false} FullReloadSource(files: seq<Spooled>, i: nat) returns (j: nat)
    requires i < |FullReload(files)|
    ensures j < |files| && FromFile(FullReload(files)[i], files[j])
  {
    var first := if Usable(files[0]) then CronDatabase.Loaded(files[0]) else [];
    if i < |first| {
      j := 0;
    } else {
      j := FullReloadSource(files[1..], i - |first|);
      j := j + 1;
    }
  }

  /** Two usable crontabs of one name and time, of which the first is loaded. */
  ghost predicate SameStamp(f: Spooled, g: Spooled) {
    Usable(f) && f.load.Some? && Usable(g) && f.fname == g.fname && f.mtime == g.mtime
  }

  /** No usable crontab has the name and the time of one that was loaded before, and another content. */
  ghost predicate StampsDiffer(before: seq<Spooled>, files: seq<Spooled>) {
    forall f, g :: f in before && g in files && SameStamp(f, g) ==> g.load == f.load
  }

  lemma StampsOfFiles(before: seq<Spooled>, files: seq<Spooled>)
    ensures StampsTell(FullReload(before), files) <==> StampsDiffer(before, files)
  {
    var users := FullReload(before);
    if StampsDiffer(before, files) {
      forall i, j | 0 <= i < |users| && 0 <= j < |files| && Usable(files[j])
                    && users[i].name == files[j].fname && users[i].mtime == files[j].mtime
        ensures files[j].load == Some(users[i].tab)
      {
        var m := FullReloadSource(before, i);
        assert before[m] in before && files[j] in files && SameStamp(before[m], files[j]);
      }
    }
    if StampsTell(users, files) {
      forall f, g | f in before && g in files && SameStamp(f, g) ensures g.load == f.load
      {
        FullReloadHas(before, f);
        var i :| 0 <= i < |users| && users[i] == UserView(f.fname, f.mtime, f.load.value);
        var j :| 0 <= j < |files| && files[j] == g;
      }
    }
  }

  lemma {:induction false} FullReloadNames(files: seq<Spooled>)
    requires Distinct(FileNames(files))
    ensures Distinct(ViewNames(FullReload(files)))
    decreases |files|
  {
    if files != [] {
      var rest, users := files[1..], FullReload(files[1..]);
      RestDistinct(files);
      FullReloadNames(rest);
      forall i | 0 <= i < |users| ensures users[i].name != files[0].fname {
        var j := FullReloadSource(rest, i);
        assert FileNames(files)[0] != FileNames(files)[j + 1];
      }
    }
  }

  /** With new times and no name twice, a reload sees what has changed exactly if the stamps tell. */
  lemma SeenIfStamped(disks: seq<Disk>, k: nat)
    requires 0 < k <= |disks| && Newest(disks[k - 1]) != StampBefore(disks, k)
    requires Distinct(FileNames(FilesBefore(disks, k))) && Distinct(FileNames(Files(disks[k - 1])))
    ensures ChangeIsSeen(disks, k) <==> StampsDiffer(FilesBefore(disks, k), Files(disks[k - 1]))
  {
    FullReloadNames(FilesBefore(disks, k));
    StampsDecide(FullReload(FilesBefore(disks, k)), Files(disks[k - 1]));
    StampsOfFiles(FilesBefore(disks, k), Files(disks[k - 1]));
  }

  /** Stamps that tell: the first is not 0, the directories get new times when anything changes, and a
      crontab gets a new time when its content changes. */
  ghost predicate Stamped(disks: seq<Disk>, k: nat)
    requires 0 < k <= |disks|
  {
    && (Newest(disks[k - 1]) != StampBefore(disks, k) || Files(disks[k - 1]) == FilesBefore(disks, k))
    && StampsDiffer(FilesBefore(disks, k), Files(disks[k - 1]))
  }

  ghost predicate AllStamped(disks: seq<Disk>, n: nat)
    requires n <= |disks|
  {
    forall k :: 0 < k <= n ==> Stamped(disks, k)
  }

  /** That is enough for every reload to see every change. */
  lemma StampedIsSeen(disks: seq<Disk>, n: nat)
    requires n <= |disks| && AllStamped(disks, n)
    ensures AllSeen(disks, n)
  {
    forall k | 0 < k <= n ensures ChangeIsSeen(disks, k) {
      assert Stamped(disks, k);
      StampsOfFiles(FilesBefore(disks, k), Files(disks[k - 1]));
      StampsSuffice(FullReload(FilesBefore(disks, k)), Files(disks[k - 1]));
    }
  }

  lemma TextIsQueuedNow(tick: Event, k: nat, log: seq<Event>, zone: Zone, start: int, disks: seq<Disk>,
                        f: Spooled, line: nat)
    returns (u: User, rounds: seq<Round>)
    requires TickOf(tick, k, log, zone, start, disks) && DisksOk(disks)
    requires k + 2 <= |disks| && UpToDate(disks, k + 2)
    requires f in Files(disks[k + 1]) && Usable(f) && f.load.Some? && line < |f.load.value|
    ensures u in tick.users && FromFile(ViewOf(u), f) && LoadedBy(f, u.tab, rounds, disks[k + 1].accounts)
    ensures tick.at == start + 60 * k && QueuedAsWritten(tick.due, u, line, f, rounds, zone(tick.at).0)
  {
    TickIsOnTime(tick, k, log, zone, start, disks);
    u, rounds := TextUser(tick.users, f, Files(disks[k + 1]), disks[k + 1].accounts);
    LineIsQueued(log, zone, tick, u, line, f, rounds, disks[k + 1].accounts);
  }

  /** And nothing is missed: if every reload sees what has changed on disk, every line of every crontab on
      disk is queued at tick `k` exactly when its text names the time of the tick. */
  lemma TextIsQueued(tick: Event, k: nat, log: seq<Event>, zone: Zone, start: int, disks: seq<Disk>,
                     f: Spooled, line: nat)
    returns (u: User, rounds: seq<Round>)
    requires TickOf(tick, k, log, zone, start, disks) && DisksOk(disks)
    requires k + 2 <= |disks| && AllSeen(disks, k + 2)
    requires f in Files(disks[k + 1]) && Usable(f) && f.load.Some? && line < |f.load.value|
    ensures u in tick.users && FromFile(ViewOf(u), f) && LoadedBy(f, u.tab, rounds, disks[k + 1].accounts)
    ensures tick.at == start + 60 * k && QueuedAsWritten(tick.due, u, line, f, rounds, zone(tick.at).0)
  {
    WhenUpToDate(disks, k + 2);
    OneMore(disks, k + 2);
    u, rounds := TextIsQueuedNow(tick, k, log, zone, start, disks, f, line);
  }

  /** So it is if all changes are stamped. */
  lemma StampedTextIsQueued(tick: Event, k: nat, log: seq<Event>, zone: Zone, start: int, disks: seq<Disk>,
                            f: Spooled, line: nat)
    returns (u: User, rounds: seq<Round>)
    requires TickOf(tick, k, log, zone, start, disks) && DisksOk(disks)
    requires k + 2 <= |disks| && AllStamped(disks, k + 2)
    requires f in Files(disks[k + 1]) && Usable(f) && f.load.Some? && line < |f.load.value|
    ensures u in tick.users && FromFile(ViewOf(u), f) && LoadedBy(f, u.tab, rounds, disks[k + 1].accounts)
    ensures tick.at == start + 60 * k && QueuedAsWritten(tick.due, u, line, f, rounds, zone(tick.at).0)
  {
    StampedIsSeen(disks, k + 2);
    u, rounds := TextIsQueued(tick, k, log, zone, start, disks, f, line);
  }

  lemma UserOfFile(tick: Event, k: nat, log: seq<Event>, zone: Zone, start: int, disks: seq<Disk>, f: Spooled)
    returns (u: User, rounds: seq<Round>)
    requires TickOf(tick, k, log, zone, start, disks) && DisksOk(disks)
    requires k + 2 <= |disks| && AllSeen(disks, k + 2)
    requires f in Files(disks[k + 1]) && Usable(f) && f.load.Some?
    ensures LogOk(log, zone) && tick in Ticks(log) && tick.Tick? && tick.at == start + 60 * k
    ensures u in tick.users && FromFile(ViewOf(u), f) && LoadedBy(f, u.tab, rounds, disks[k + 1].accounts)
  {
    TickIsOnTime(tick, k, log, zone, start, disks);
    WhenUpToDate(disks, k + 2);
    OneMore(disks, k + 2);
    u, rounds := TextUser(tick.users, f, Files(disks[k + 1]), disks[k + 1].accounts);
  }

  /** The text of the file is these plain lines, and its `n`-th job is scheduled by `sch`. */
  ghost predicate PlainJob(f: Spooled, lines: seq<CronPlain.Line>, n: nat, sch: CronSchedule.Schedule,
                           accounts: map<string, Passwd>) {
    && CronPlain.LinesOk(lines, f.account == None, accounts) && CronPlain.AllPrintable(lines)
    && f.text == CronPlain.Text(lines, f.account == None)
    && n < |CronPlain.Jobs(lines)| && sch == lines[CronPlain.Jobs(lines)[n]].sch
  }

  lemma PlainTabJob(f: Spooled, tab: Tab, rounds: seq<Round>, lines: seq<CronPlain.Line>, n: nat,
                    sch: CronSchedule.Schedule, tm: Tm, accounts: map<string, Passwd>)
    returns (m: nat, v: EntryView)
    requires LoadedBy(f, tab, rounds, accounts) && ValidTm(tm) && PlainJob(f, lines, n, sch, accounts)
    ensures |tab| == |CronPlain.Jobs(lines)| && m < |tab| && m + n == |tab| - 1 && v == tab[m]
    ensures CronSchedule.ScheduleOk(sch) && (Fires(v, Minute(tm)) <==> CronSchedule.Runs(sch, tm))
  {
    var pos: nat :| CrontabLoader.Complete(f.text, rounds, pos, tab, f.account, accounts);
    var i := CronPlain.Jobs(lines)[n];
    m, v := CronPlain.PlainCrontabLoads(lines, f.text, rounds, pos, tab, n, i, lines[..i], f.account, accounts);
  }

  /** The job is queued exactly when the schedule runs. */
  ghost predicate QueuedAsScheduled(due: seq<Job>, job: Job, sch: CronSchedule.Schedule, tm: Tm) {
    CronSchedule.ScheduleOk(sch) && ValidTm(tm) && (job in due <==> CronSchedule.Runs(sch, tm))
  }

  lemma ScheduledIsQueued(due: seq<Job>, job: Job, v: EntryView, sch: CronSchedule.Schedule, tm: Tm)
    requires CronSchedule.ScheduleOk(sch) && ValidTm(tm)
    requires Fires(v, Minute(tm)) <==> CronSchedule.Runs(sch, tm)
    requires job in due <==> Fires(v, Minute(tm))
    ensures QueuedAsScheduled(due, job, sch, tm)
  {}

  lemma TabJobIsQueued(log: seq<Event>, zone: Zone, tick: Event, u: User, m: nat, v: EntryView,
                       sch: CronSchedule.Schedule, tm: Tm)
    requires LogOk(log, zone) && tick in Ticks(log) && tick.Tick? && u in tick.users && tm == zone(tick.at).0
    requires m < |u.tab| && v == u.tab[m] && CronSchedule.ScheduleOk(sch) && ValidTm(tm)
    requires Fires(v, Minute(tm)) <==> CronSchedule.Runs(sch, tm)
    ensures QueuedAsScheduled(tick.due, Job(m, u), sch, tm)
  {
    FiringIsQueued(log, zone, tick, u, m);
    assert Job(m, u) in tick.due <==> Fires(v, Minute(tm));
    ScheduledIsQueued(tick.due, Job(m, u), v, sch, tm);
  }

  lemma PlainJobOfUser(log: seq<Event>, zone: Zone, tick: Event, u: User, rounds: seq<Round>, f: Spooled,
                       lines: seq<CronPlain.Line>, n: nat, sch: CronSchedule.Schedule, tm: Tm,
                       accounts: map<string, Passwd>)
    returns (m: nat)
    requires LogOk(log, zone) && tick in Ticks(log) && tick.Tick? && u in tick.users && tm == zone(tick.at).0
    requires LoadedBy(f, u.tab, rounds, accounts) && PlainJob(f, lines, n, sch, accounts)
    ensures |u.tab| == |CronPlain.Jobs(lines)| && m + n == |u.tab| - 1
    ensures QueuedAsScheduled(tick.due, Job(m, u), sch, tm)
  {
    var v;
    m, v := PlainTabJob(f, u.tab, rounds, lines, n, sch, tm, accounts);
    TabJobIsQueued(log, zone, tick, u, m, v, sch, tm);
  }

  /** From the schedule to the queue: if every reload sees what has changed on disk, the `n`-th job of a crontab
      of plain lines on disk is queued at tick `k` exactly when its schedule runs at the time of the tick. */
  lemma PlainJobIsQueued(tick: Event, k: nat, log: seq<Event>, zone: Zone, start: int, disks: seq<Disk>, f: Spooled,
                         lines: seq<CronPlain.Line>, n: nat, sch: CronSchedule.Schedule)
    returns (u: User, m: nat)
    requires TickOf(tick, k, log, zone, start, disks) && DisksOk(disks)
    requires k + 2 <= |disks| && AllSeen(disks, k + 2)
    requires f in Files(disks[k + 1]) && Usable(f) && f.load.Some?
    requires PlainJob(f, lines, n, sch, disks[k + 1].accounts)
    ensures u in tick.users && FromFile(ViewOf(u), f) && |u.tab| == |CronPlain.Jobs(lines)| && m + n == |u.tab| - 1
    ensures tick.at == start + 60 * k && QueuedAsScheduled(tick.due, Job(m, u), sch, zone(tick.at).0)
  {
    var rounds;
    u, rounds := UserOfFile(tick, k, log, zone, start, disks, f);
    m := PlainJobOfUser(log, zone, tick, u, rounds, f, lines, n, sch, zone(tick.at).0, disks[k + 1].accounts);
  }

  /** A removed system crontab goes on running: while the spool directory is the newer one, its time does
      not tell. */
  lemma RemovedCrontabStays(f: Spooled, spoolMtime: int, sysMtime: int, accounts: map<string, Passwd>)
    requires Usable(f) && f.load.Some? && 0 < sysMtime <= spoolMtime
    ensures var disks := [Disk(spoolMtime, sysMtime, f, [], accounts), Disk(spoolMtime, 0, f, [], accounts)];
            BaseAfter(disks, 2).users == [UserView(f.fname, f.mtime, f.load.value)]
            && FullReload(Files(disks[1])) == []
  {
    var d, d' := Disk(spoolMtime, sysMtime, f, [], accounts), Disk(spoolMtime, 0, f, [], accounts);
    assert Files(d) == [f] && Files(d') == [];
    assert Found([], f) == 0;
    assert Reload([], [f]) == Added([], f) + Reload(Remaining([], f), [f][1..]);
    var none: seq<Disk> := [d, d'];
    assert BaseAfter(none, 1) == Reloaded(BaseAfter(none, 0), d);
    assert BaseAfter(none, 2) == Reloaded(BaseAfter(none, 1), d');
  }

  lemma TextUser(users: seq<User>, f: Spooled, files: seq<Spooled>, accounts: map<string, Passwd>)
    returns (u: User, rounds: seq<Round>)
    requires Views(users) == FullReload(files) && f in files && Usable(f) && f.load.Some? && FileOk(f, accounts)
    ensures u in users && FromFile(ViewOf(u), f) && LoadedBy(f, u.tab, rounds, accounts)
  {
    var v := UserView(f.fname, f.mtime, f.load.value);
    FullReloadHas(files, f);
    var n :| 0 <= n < |users| && Views(users)[n] == v;
    u := users[n];
    rounds :| LoadedBy(f, u.tab, rounds, accounts);
  }
}
