/** What the daemon does, as a log of its ticks and of the times it empties the job queue, and what
    follows for every run: nothing due is lost, and nothing runs more often than it was due. */
module CronLog {
  import opened Common
  import opened CronText
  import opened CronRecord
  import opened CronEntry
  import opened CronDatabase
  import opened JobQueue

  /** A call of the clock. */
  datatype ClockCall = Reading(t: int) | Sleeping(n: nat, left: nat)

  /** Why jobs are queued: the daemon has started, or a minute has come. */
  datatype Occasion = Reboot | Minute(tm: Tm)

  /** What the daemon does. `Boot`, `Tick`: the jobs `due` of the entries of `users` that fire at the
      start, or at the time `at` (TargetTime), are queued. `Sync`, `Read`: `cron_sync` or `cron_sleep`
      reads the clock. `Sleep`: it sleeps `n` seconds but for the `left` last ones. `Drain`: the queue was
      not empty, and all its jobs are run. */
  datatype Event =
    | Boot(users: seq<User>, due: seq<Job>)
    | Sync(t: int)
    | Read(t: int)
    | Sleep(n: nat, left: nat)
    | Tick(at: int, users: seq<User>, due: seq<Job>)
    | Drain(jobs: seq<Job>)

  predicate Fires(v: EntryView, when: Occasion) {
    match when
    case Reboot => v.flags.whenReboot
    case Minute(tm) => |v.bytes| == RECORD_SIZE && ValidTm(tm) && Matches(v.bytes, v.flags, tm)
  }

  function DueAt(u: User, k: nat, when: Occasion): seq<Job>
    requires k < |u.tab|
  {
    if Fires(u.tab[k], when) then [Job(k, u)] else []
  }

  /** The jobs of a user's crontab from line `k` on. */
  function DueFrom(u: User, k: nat, when: Occasion): seq<Job>
    requires k <= |u.tab|
    decreases |u.tab| - k
  {
    if k == |u.tab| then []
    else DueAt(u, k, when) + DueFrom(u, k + 1, when)
  }

  function Due(users: seq<User>, when: Occasion): seq<Job> {
    if users == [] then [] else DueFrom(users[0], 0, when) + Due(users[1..], when)
  }

  lemma DueAtMembers(u: User, k: nat, when: Occasion, j: Job)
    requires k < |u.tab|
    ensures j in DueAt(u, k, when) <==> j.u == u && j.line == k && Fires(u.tab[j.line], when)
  {}

  /** A job is due exactly when its entry fires. */
  lemma {:induction false} DueFromMembers(u: User, k: nat, when: Occasion, j: Job)
    requires k <= |u.tab|
    ensures j in DueFrom(u, k, when) <==> j.u == u && k <= j.line < |u.tab| && Fires(u.tab[j.line], when)
    decreases |u.tab| - k
  {
    if k < |u.tab| {
      DueFromMembers(u, k + 1, when, j);
      DueAtMembers(u, k, when, j);
    }
  }

  lemma {:induction false} DueMembers(users: seq<User>, when: Occasion, j: Job)
    ensures j in Due(users, when) <==> j.u in users && j.line < |j.u.tab| && Fires(j.u.tab[j.line], when)
  {
    if users != [] {
      DueFromMembers(users[0], 0, when, j);
      DueMembers(users[1..], when, j);
    }
  }

  /** Users come one after the other, */
  lemma {:induction false} DueJoins(a: seq<User>, b: seq<User>, when: Occasion)
    ensures Due(a + b, when) == Due(a, when) + Due(b, when)
    decreases |a|
  {
    if a == [] {
      assert a + b == b;
    } else {
      var first := DueFrom(a[0], 0, when);
      assert (a + b)[0] == a[0] && (a + b)[1..] == a[1..] + b;
      DueJoins(a[1..], b, when);
      assert first + (Due(a[1..], when) + Due(b, when)) == (first + Due(a[1..], when)) + Due(b, when);
    }
  }

  ghost predicate LinesAscend(jobs: seq<Job>, k: nat) {
    && (forall i :: 0 <= i < |jobs| ==> jobs[i].line >= k)
    && forall i, j :: 0 <= i < j < |jobs| ==> jobs[i].line < jobs[j].line
  }

  lemma LinesAscendMore(job: Job, rest: seq<Job>, k: nat)
    requires job.line == k && LinesAscend(rest, k + 1)
    ensures LinesAscend([job] + rest, k)
  {}

  /** and the lines of each from the first to the last, none twice. */
  lemma {:induction false} DueAscending(u: User, k: nat, when: Occasion)
    requires k <= |u.tab|
    ensures LinesAscend(DueFrom(u, k, when), k)
    decreases |u.tab| - k
  {
    if k < |u.tab| {
      var rest := DueFrom(u, k + 1, when);
      DueAscending(u, k + 1, when);
      LinesAscendMore(Job(k, u), rest, k);
      assert DueFrom(u, k, when) == if Fires(u.tab[k], when) then [Job(k, u)] + rest else rest;
    }
  }

  lemma DueOfOne(u: User, when: Occasion)
    ensures Due([u], when) == DueFrom(u, 0, when)
  {
    assert Due([u], when) == DueFrom(u, 0, when) + Due([u][1..], when);
  }

  /** An entry that was loaded from text fires exactly when the text says so. */
  lemma FiresAsWritten(v: EntryView, s: string, p: nat, owner: Option<Passwd>, accounts: map<string, Passwd>,
                       env: seq<string>, tm: Tm)
    requires p < |s| && ViewLoaded(v, s, p, owner, accounts, env) && ValidTm(tm)
    ensures Fires(v, Minute(tm)) <==> EntryNames(s, p, tm)
    ensures Fires(v, Reboot) <==> s[p] == '@' && ShorthandWord(s, p) == "reboot"
  {
    assert Matches(v.bytes, v.flags, tm) <==> EntryNames(s, p, tm);
  }

  /** The entry that was loaded from position `from` of a text fires exactly when the text there says
      so. */
  ghost predicate FiresAsAt(v: EntryView, text: string, from: nat, tm: Tm) {
    && from <= |text| && CommentsEnd(text, from) < |text|
    && (Fires(v, Minute(tm)) <==> EntryNames(text, CommentsEnd(text, from), tm))
  }

  lemma EntryFires(v: EntryView, text: string, from: nat, env: seq<string>, owner: Option<Passwd>,
                   accounts: map<string, Passwd>, tm: Tm)
    requires CrontabLoader.LoadedAt(v, text, from, env, owner, accounts) && ValidTm(tm)
    ensures FiresAsAt(v, text, from, tm)
  {
    FiresAsWritten(v, text, CommentsEnd(text, from), owner, accounts, env, tm);
  }

  lemma EntryAtFires(tab: seq<EntryView>, text: string, loads: seq<(nat, seq<string>)>, k: nat,
                     owner: Option<Passwd>, accounts: map<string, Passwd>, tm: Tm)
    requires CrontabLoader.EntryAt(tab, text, loads, k, owner, accounts) && ValidTm(tm)
    ensures FiresAsAt(tab[k], text, loads[|loads| - 1 - k].0, tm)
  {
    EntryFires(tab[k], text, loads[|loads| - 1 - k].0, loads[|loads| - 1 - k].1, owner, accounts, tm);
  }

  /** Line `k` of a crontab that was loaded from a whole text fires exactly when the text of the entry
      that it was loaded from says so: the accepted one that is `k` from the last. */
  lemma LoadedLineFires(text: string, rounds: seq<CrontabLoader.Round>, loads: seq<(nat, seq<string>)>, pos: nat,
                        tab: seq<EntryView>, k: nat, owner: Option<Passwd>, accounts: map<string, Passwd>, tm: Tm)
    requires CrontabLoader.Progress(text, rounds, pos, tab, owner, accounts) && loads == CrontabLoader.Accepted(rounds)
    requires k < |tab| && ValidTm(tm)
    ensures |loads| == |tab| && FiresAsAt(tab[k], text, loads[|loads| - 1 - k].0, tm)
  {
    assert CrontabLoader.TabLoaded(tab, text, loads, owner, accounts);
    CrontabLoader.TabLength(tab, text, loads, owner, accounts);
    CrontabLoader.TabEntry(tab, text, loads, k, owner, accounts);
    EntryAtFires(tab, text, loads, k, owner, accounts, tm);
  }

  // ---------------------------------------------------------------- logs

  function EventDue(e: Event): seq<Job> {
    if e.Boot? || e.Tick? then e.due else []
  }

  /** What a log leaves on the queue. */
  function Pending(log: seq<Event>): seq<Job> {
    if log == [] then []
    else
      var e := log[|log| - 1];
      if e.Drain? then [] else QueuedAll(Pending(log[..|log| - 1]), EventDue(e))
  }

  /** The commands that a log has started, in order. */
  function Commands(log: seq<Event>): seq<Job> {
    if log == [] then []
    else Commands(log[..|log| - 1]) + (if log[|log| - 1].Drain? then log[|log| - 1].jobs else [])
  }

  /** The calls of the clock in a log. */
  function Calls(log: seq<Event>): seq<ClockCall> {
    if log == [] then []
    else
      var e := log[|log| - 1];
      Calls(log[..|log| - 1]) +
      (if e.Sync? || e.Read? then [Reading(e.t)] else if e.Sleep? then [Sleeping(e.n, e.left)] else [])
  }

  function Ticks(log: seq<Event>): seq<Event> {
    if log == [] then []
    else Ticks(log[..|log| - 1]) + (if log[|log| - 1].Tick? then [log[|log| - 1]] else [])
  }

  /** What the clock showed when the `cron_sleep` that is under way, if any, looked at it first. */
  function FirstRead(log: seq<Event>): Option<int> {
    if log == [] then None
    else
      var e := log[|log| - 1];
      if e.Tick? || e.Sync? || e.Boot? then None
      else if e.Read? && FirstRead(log[..|log| - 1]) == None then Some(e.t)
      else FirstRead(log[..|log| - 1])
  }

  /** The time that has come by the calls of the clock: the last reading and what has been slept since. */
  function Elapsed(log: seq<Event>): int {
    if log == [] then 0
    else
      var e := log[|log| - 1];
      if e.Sync? || e.Read? then e.t
      else if e.Sleep? then Elapsed(log[..|log| - 1]) + e.n - e.left
      else Elapsed(log[..|log| - 1])
  }

  /** Local time: broken-down time and seconds. */
  type Zone = z: int -> (Tm, nat) | forall t :: ValidTm(z(t).0) && z(t).1 <= 60 witness (t => (Tm(0, 0, 1, 0, 0), 0))

  /** TargetTime: the next minute after the clock was read at the start, and a minute more with every tick. */
  function Target(log: seq<Event>, zone: Zone): int {
    if log == [] then 0
    else
      var e := log[|log| - 1];
      if e.Sync? then e.t + 60 - zone(e.t).1
      else if e.Tick? then e.at + 60
      else Target(log[..|log| - 1], zone)
  }

  /** What may follow a log. The queue is run after the reboot jobs are queued, or after a look at the
      clock that is in time, and then as a whole. The daemon sleeps only with an empty queue, after a look
      at the clock, and until the target time. A tick is for the target time and never early, queues what
      fires then, and finds the queue empty if its `cron_sleep` first looked at the clock in time. */
  ghost predicate MayFollow(log: seq<Event>, e: Event, zone: Zone) {
    match e
    case Boot(users, due) => log == [] && due == Due(users, Reboot)
    case Sync(_) => forall i :: 0 <= i < |log| ==> log[i].Boot? || log[i].Drain?
    case Read(_) => true
    case Sleep(n, left) =>
      left <= n && n == Target(log, zone) - Elapsed(log) && Pending(log) == [] && FirstRead(log).Some?
    case Tick(at, users, due) =>
      && at == Target(log, zone) <= Elapsed(log) && due == Due(users, Minute(zone(at).0))
      && FirstRead(log).Some? && (FirstRead(log).value < at ==> Pending(log) == [])
    case Drain(jobs) =>
      jobs != [] && jobs == Pending(log) && MayDrain(log, zone)
  }

  /** Where `job_runqueue` is called. */
  predicate MayDrain(log: seq<Event>, zone: Zone) {
    && log != []
    && (log[|log| - 1].Boot? || (log[|log| - 1].Read? && log[|log| - 1].t < Target(log, zone)))
  }

  ghost predicate LogOk(log: seq<Event>, zone: Zone) {
    log == [] || (LogOk(log[..|log| - 1], zone) && MayFollow(log[..|log| - 1], log[|log| - 1], zone))
  }

  lemma LogGrows(log: seq<Event>, zone: Zone, e: Event)
    requires LogOk(log, zone) && MayFollow(log, e, zone)
    ensures LogOk(log + [e], zone)
  {
    assert (log + [e])[..|log|] == log;
  }

  lemma {:induction false} TicksAreOk(log: seq<Event>, zone: Zone, tick: Event)
    requires LogOk(log, zone) && tick in Ticks(log)
    ensures tick.Tick? && tick.due == Due(tick.users, Minute(zone(tick.at).0))
  {
    var n := |log| - 1;
    if tick in Ticks(log[..n]) {
      TicksAreOk(log[..n], zone, tick);
    } else {
      assert tick == log[n];
    }
  }

  // ---------------------------------------------------------------- what every run keeps

  /** Everything that came due since the last drain, in order. */
  function DueSinceDrain(log: seq<Event>): seq<Job> {
    if log == [] || log[|log| - 1].Drain? then []
    else DueSinceDrain(log[..|log| - 1]) + EventDue(log[|log| - 1])
  }

  /** The queue, and with it every drain, holds what came due since the last drain: each job once, in
      the order in which they first came due. */
  lemma {:induction false} PendingIsFirsts(log: seq<Event>)
    ensures FirstsOf(Pending(log), DueSinceDrain(log))
  {
    if log != [] && !log[|log| - 1].Drain? {
      PendingIsFirsts(log[..|log| - 1]);
      QueuedAllFirsts(Pending(log[..|log| - 1]), DueSinceDrain(log[..|log| - 1]), EventDue(log[|log| - 1]));
    }
  }

  lemma {:induction false} QueuedMembers(q: seq<Job>, js: seq<Job>, j: Job)
    ensures j in QueuedAll(q, js) <==> j in q || j in js
    decreases |js|
  {
    if js != [] {
      QueuedMembers(Queued(q, js[0]), js[1..], j);
    }
  }

  /** The job of event `i` is on the queue or was run after it. */
  ghost predicate Served(log: seq<Event>, i: nat, j: Job) {
    j in Pending(log) || exists k :: i < k < |log| && log[k].Drain? && j in log[k].jobs
  }

  lemma ServedLater(log: seq<Event>, i: nat, k: nat, j: Job)
    requires i < k < |log| && log[k].Drain? && j in log[k].jobs
    ensures Served(log, i, j)
  {}

  lemma StaysPending(before: seq<Event>, e: Event, zone: Zone, j: Job)
    requires MayFollow(before, e, zone) && j in Pending(before)
    ensures if e.Drain? then j in e.jobs else j in QueuedAll(Pending(before), EventDue(e))
  {
    QueuedMembers(Pending(before), EventDue(e), j);
  }

  lemma ServedStays(log: seq<Event>, zone: Zone, before: seq<Event>, i: nat, j: Job)
    requires log != [] && LogOk(log, zone) && before == log[..|log| - 1] && i < |before| && Served(before, i, j)
    ensures Served(log, i, j)
  {
    if j in Pending(before) {
      StaysPending(before, log[|before|], zone, j);
      if log[|before|].Drain? {
        ServedLater(log, i, |before|, j);
      }
    } else {
      var k :| i < k < |before| && before[k].Drain? && j in before[k].jobs;
      assert log[k] == before[k];
      ServedLater(log, i, k, j);
    }
  }

  lemma DueIsPending(log: seq<Event>, before: seq<Event>, e: Event, j: Job)
    requires log != [] && before == log[..|log| - 1] && e == log[|log| - 1] && j in EventDue(e)
    ensures j in Pending(log)
  {
    QueuedMembers(Pending(before), EventDue(e), j);
  }

  /** No due job is lost: it is still queued, or a later drain ran it. */
  lemma {:induction false} EveryDueIsServed(log: seq<Event>, zone: Zone, i: nat, j: Job)
    requires LogOk(log, zone) && i < |log| && j in EventDue(log[i])
    ensures Served(log, i, j)
    decreases |log|
  {
    var n := |log| - 1;
    if i < n {
      EveryDueIsServed(log[..n], zone, i, j);
      ServedStays(log, zone, log[..n], i, j);
    } else {
      DueIsPending(log, log[..n], log[n], j);
    }
  }

  // ---------------------------------------------------------------- how often a job runs

  function One(b: bool): nat { if b then 1 else 0 }

  /** At how many starts and ticks it was due. */
  function Dues(log: seq<Event>, j: Job): nat {
    if log == [] then 0 else Dues(log[..|log| - 1], j) + One(j in EventDue(log[|log| - 1]))
  }

  /** At how many of these it was still queued from an earlier one. */
  function Coalesced(log: seq<Event>, j: Job): nat {
    if log == [] then 0
    else Coalesced(log[..|log| - 1], j) + One(j in EventDue(log[|log| - 1]) && j in Pending(log[..|log| - 1]))
  }

  lemma {:induction false} QueuedOnce(q: seq<Job>, js: seq<Job>, j: Job)
    requires multiset(q)[j] <= 1
    ensures multiset(QueuedAll(q, js))[j] == One(j in q || j in js)
    decreases |js|
  {
    if js != [] {
      QueuedOnce(Queued(q, js[0]), js[1..], j);
    }
  }

  lemma {:induction false} PendingOnce(log: seq<Event>, j: Job)
    ensures multiset(Pending(log))[j] == One(j in Pending(log))
  {
    if log != [] && !log[|log| - 1].Drain? {
      PendingOnce(log[..|log| - 1], j);
      QueuedOnce(Pending(log[..|log| - 1]), EventDue(log[|log| - 1]), j);
      QueuedMembers(Pending(log[..|log| - 1]), EventDue(log[|log| - 1]), j);
    }
  }

  /** Conservation: every time a job comes due its command is started, it is still queued, or it had not
      yet been run for an earlier time. So no job runs more often than it was due. */
  lemma {:induction false} RunsAreAccounted(log: seq<Event>, zone: Zone, j: Job)
    requires LogOk(log, zone)
    ensures multiset(Commands(log))[j] + One(j in Pending(log)) + Coalesced(log, j) == Dues(log, j)
  {
    if log != [] {
      var n := |log| - 1;
      var before := log[..n];
      RunsAreAccounted(before, zone, j);
      PendingOnce(before, j);
      if log[n].Drain? {
        assert Commands(log) == Commands(before) + log[n].jobs;
      } else {
        assert Commands(log) == Commands(before);
        QueuedMembers(Pending(before), EventDue(log[n]), j);
      }
    }
  }

  /** No `cron_sleep` starts late: it first looks at the clock before the time it is to sleep until. */
  predicate Prompt(log: seq<Event>) {
    log == [] ||
    (var before, e := log[..|log| - 1], log[|log| - 1];
     Prompt(before) && (e.Tick? ==> FirstRead(before).Some? && FirstRead(before).value < e.at))
  }

  lemma {:induction false} NoneCoalesced(log: seq<Event>, zone: Zone, j: Job)
    requires LogOk(log, zone) && Prompt(log)
    ensures Coalesced(log, j) == 0
  {
    if log != [] {
      NoneCoalesced(log[..|log| - 1], zone, j);
    }
  }

  /** If no `cron_sleep` starts late, the command of every job is started exactly as often as the job was
      due, but for those still queued. */
  lemma PunctualRuns(log: seq<Event>, zone: Zone, j: Job)
    requires LogOk(log, zone) && Prompt(log)
    ensures multiset(Commands(log))[j] + One(j in Pending(log)) == Dues(log, j)
  {
    NoneCoalesced(log, zone, j);
    RunsAreAccounted(log, zone, j);
  }
}
