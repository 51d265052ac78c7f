/** The daemon (cron.c): synchronisation with the clock, sleeping, reloading and ticking. */
module CronDaemon {
  import opened Common
  import opened CronEntry
  import opened CronDatabase
  import opened JobQueue
  import opened CronLog

  /** What the surroundings do at a call: `delay` seconds pass, and a sleep is cut short by `unslept`
      seconds at most. */
  datatype Move = Move(delay: nat, unslept: nat)

  /** A clock that never goes back. Any finite number of calls behaves as scripted, later ones take
      no time and are not interrupted. */
  class Clock {
    var now: int
    var script: seq<Move>
    /** The calls so far, and what they gave. */
    ghost var trace: seq<ClockCall>

    method Next() returns (m: Move)
      modifies this`script
      ensures |script| <= old(|script|)
      ensures m.unslept > 0 ==> |script| < old(|script|)
    {
      m := Move(0, 0);
      if script != [] {
        m := script[0];
        script := script[1..];
      }
    }

    method Time() returns (t: int)
      modifies this
      ensures t == now >= old(now) && trace == old(trace) + [Reading(t)]
    {
      var m := Next();
      now := now + m.delay;
      t := now;
      trace := trace + [Reading(t)];
    }

    /** Sleeps `n` seconds or until interrupted; `left` is what remained. */
    method Sleep(n: nat) returns (left: nat)
      modifies this
      ensures left <= n && now >= old(now) + (n - left) && trace == old(trace) + [Sleeping(n, left)]
      ensures |script| <= old(|script|) && (left > 0 ==> |script| < old(|script|))
    {
      var m := Next();
      left := if m.unslept < n then m.unslept else n;
      now := now + (n - left) + m.delay;
      trace := trace + [Sleeping(n, left)];
    }
  }

  /** What a reload finds on disk, and the accounts there are by then. */
  datatype Disk = Disk(spoolMtime: int, sysMtime: int, system: Spooled, dir: seq<Spooled>,
                       accounts: map<string, Passwd>)

  /** The time stamp of a reload: that of the newer of the two directories. */
  function Newest(d: Disk): int {
    Max(d.spoolMtime, d.sysMtime)
  }

  function Files(d: Disk): seq<Spooled> {
    Scan(d.sysMtime, d.system, d.dir)
  }

  ghost predicate DiskOk(d: Disk) {
    FilesOk(Files(d), d.accounts)
  }

  ghost predicate DisksOk(disks: seq<Disk>) {
    forall i :: 0 <= i < |disks| ==> DiskOk(disks[i])
  }

  /** The database as a value, and one reload of it. */
  datatype Base = Base(mtime: int, users: seq<UserView>)

  function Reloaded(b: Base, d: Disk): Base {
    if b.mtime == Newest(d) then b else Base(Newest(d), Reload(b.users, Files(d)))
  }

  /** The database after `k` reloads. */
  function BaseAfter(disks: seq<Disk>, k: nat): Base
    requires k <= |disks|
  {
    if k == 0 then Base(0, []) else Reloaded(BaseAfter(disks, k - 1), disks[k - 1])
  }

  /** The `k`-th tick is evaluated at `start` plus `k` minutes, with the database that the start and
      `k + 1` reloads make. */
  ghost predicate TickOnTime(e: Event, k: nat, start: int, disks: seq<Disk>)
    requires k + 2 <= |disks|
  {
    e.Tick? && e.at == start + 60 * k && Views(e.users) == BaseAfter(disks, k + 2).users
  }

  ghost predicate OnTime(ticks: seq<Event>, start: int, disks: seq<Disk>) {
    |ticks| + 1 <= |disks| && forall k: nat :: k < |ticks| ==> TickOnTime(ticks[k], k, start, disks)
  }

  // ---------------------------------------------------------------- queueing what is due

  lemma {:induction false} QueuedAllAppend(q: seq<Job>, a: seq<Job>, b: seq<Job>)
    ensures QueuedAll(q, a + b) == QueuedAll(QueuedAll(q, a), b)
    decreases |a|
  {
    if a == [] {
      assert a + b == b;
    } else {
      assert (a + b)[1..] == a[1..] + b;
      QueuedAllAppend(Queued(q, a[0]), a[1..], b);
    }
  }

  lemma QueuedAllOne(q: seq<Job>, j: Job)
    ensures QueuedAll(q, [j]) == Queued(q, j)
  {
    assert QueuedAll(q, [j]) == QueuedAll(Queued(q, j), [j][1..]);
  }

  /** Queueing the jobs of `rest` after `q` gives `goal`. */
  ghost predicate LeadsTo(q: seq<Job>, rest: seq<Job>, goal: seq<Job>) {
    QueuedAll(q, rest) == goal
  }

  /** One entry, given that it and the entries after it lead to `goal`. */
  method QueueLine(u: User, k: nat, queue: Queue, when: Occasion, ghost goal: seq<Job>)
    requires k < |u.tab| && queue.Valid() && LeadsTo(queue.Jobs(), DueFrom(u, k, when), goal)
    modifies queue, queue.repr
    ensures queue.Valid() && LeadsTo(queue.Jobs(), DueFrom(u, k + 1, when), goal)
    ensures forall o :: o in queue.repr ==> o in old(queue.repr) || fresh(o)
  {
    QueuedAllAppend(queue.Jobs(), DueAt(u, k, when), DueFrom(u, k + 1, when));
    QueuedAllOne(queue.Jobs(), Job(k, u));
    if Fires(u.tab[k], when) {
      queue.JobAdd(Job(k, u));
    }
  }

  /** The entries of one user. */
  method QueueUser(u: User, queue: Queue, when: Occasion, ghost goal: seq<Job>)
    requires queue.Valid() && LeadsTo(queue.Jobs(), DueFrom(u, 0, when), goal)
    modifies queue, queue.repr
    ensures queue.Valid() && queue.Jobs() == goal
    ensures forall o :: o in queue.repr ==> o in old(queue.repr) || fresh(o)
  {
    var k := 0;
    while k < |u.tab|
      invariant 0 <= k <= |u.tab| && queue.Valid()
      invariant LeadsTo(queue.Jobs(), DueFrom(u, k, when), goal)
      invariant forall o :: o in queue.repr ==> o in old(queue.repr) || fresh(o)
    {
      QueueLine(u, k, queue, when, goal);
      k := k + 1;
    }
    assert DueFrom(u, k, when) == [];
  }

  lemma DueUser(q: seq<Job>, users: seq<User>, k: nat, when: Occasion)
    requires k < |users|
    ensures forall goal :: LeadsTo(q, Due(users[k..], when), goal) ==>
              LeadsTo(QueuedAll(q, DueFrom(users[k], 0, when)), Due(users[k + 1..], when), goal)
  {
    assert users[k..][1..] == users[k + 1..];
    QueuedAllAppend(q, DueFrom(users[k], 0, when), Due(users[k + 1..], when));
  }

  /** `next` leads from `u` through `users` to the end. */
  ghost predicate Linked(u: User?, users: seq<User>)
    reads users
  {
    && u == (if users == [] then null else users[0])
    && (users != [] ==> users[|users| - 1].next == null)
    && forall i {:trigger users[i].next} :: 0 <= i < |users| - 1 ==> users[i].next == users[i + 1]
  }

  /** The body of the loop over users, at user `k`. */
  method QueueNext(u: User, ghost k: nat, ghost users: seq<User>, ghost head: User?, queue: Queue, when: Occasion,
                   ghost goal: seq<Job>)
    returns (next: User?)
    requires Linked(head, users) && k < |users| && u == users[k]
    requires queue.Valid() && LeadsTo(queue.Jobs(), Due(users[k..], when), goal)
    modifies queue, queue.repr
    ensures Linked(head, users) && next == (if k + 1 < |users| then users[k + 1] else null)
    ensures queue.Valid() && LeadsTo(queue.Jobs(), Due(users[k + 1..], when), goal)
    ensures forall o :: o in queue.repr ==> o in old(queue.repr) || fresh(o)
  {
    next := u.next;
    DueUser(queue.Jobs(), users, k, when);
    QueueUser(u, queue, when, QueuedAll(queue.Jobs(), DueFrom(u, 0, when)));
  }

  /** The two nested loops of `cron_tick` and of `run_reboot_jobs`. */
  method QueueDue(head: User?, ghost users: seq<User>, queue: Queue, when: Occasion, ghost goal: seq<Job>)
    requires Linked(head, users) && queue.Valid() && LeadsTo(queue.Jobs(), Due(users, when), goal)
    modifies queue, queue.repr
    ensures queue.Valid() && queue.Jobs() == goal
    ensures forall o :: o in queue.repr ==> o in old(queue.repr) || fresh(o)
  {
    var u := head;
    ghost var k: nat := 0;
    assert users[k..] == users;
    while u != null
      invariant k <= |users| && u == (if k < |users| then users[k] else null)
      invariant queue.Valid() && Linked(head, users)
      invariant LeadsTo(queue.Jobs(), Due(users[k..], when), goal)
      invariant forall o :: o in queue.repr ==> o in old(queue.repr) || fresh(o)
      decreases |users| - k
    {
      u := QueueNext(u, k, users, head, queue, when, goal);
      k := k + 1;
    }
  }

  method QueueUsers(db: CronDb, queue: Queue, when: Occasion)
    requires db.Valid() && queue.Valid()
    modifies queue, queue.repr
    ensures db.Valid() && queue.Valid() && queue.Jobs() == QueuedAll(old(queue.Jobs()), Due(db.nodes, when))
    ensures forall o :: o in queue.repr ==> o in old(queue.repr) || fresh(o)
  {
    QueueDue(db.head, db.nodes, queue, when, QueuedAll(queue.Jobs(), Due(db.nodes, when)));
  }

  // ---------------------------------------------------------------- how the log grows

  /** What one more event does to what a log says. */
  lemma LogGrowth(log: seq<Event>, e: Event, zone: Zone)
    ensures Pending(log + [e]) == if e.Drain? then [] else QueuedAll(Pending(log), EventDue(e))
    ensures Commands(log + [e]) == Commands(log) + (if e.Drain? then e.jobs else [])
    ensures Calls(log + [e]) ==
            Calls(log) +
              (if e.Sync? || e.Read? then [Reading(e.t)] else if e.Sleep? then [Sleeping(e.n, e.left)] else [])
    ensures Ticks(log + [e]) == Ticks(log) + (if e.Tick? then [e] else [])
    ensures FirstRead(log + [e]) ==
            if e.Tick? || e.Sync? || e.Boot? then None
            else if e.Read? && FirstRead(log) == None then Some(e.t) else FirstRead(log)
    ensures Elapsed(log + [e]) ==
            if e.Sync? || e.Read? then e.t else if e.Sleep? then Elapsed(log) + e.n - e.left else Elapsed(log)
    ensures Target(log + [e], zone) ==
            if e.Sync? then e.t + 60 - zone(e.t).1 else if e.Tick? then e.at + 60 else Target(log, zone)
  {
    assert (log + [e])[..|log|] == log;
  }

  /** Queueing changes neither what the clock was asked nor what was started. */
  lemma LogQueues(log: seq<Event>, e: Event, zone: Zone)
    requires e.Boot? || e.Tick?
    ensures Pending(log + [e]) == QueuedAll(Pending(log), e.due)
    ensures Calls(log + [e]) == Calls(log) && Commands(log + [e]) == Commands(log)
  {
    LogGrowth(log, e, zone);
  }

  /** One more call of the clock. */
  lemma LogCalls(log: seq<Event>, e: Event, zone: Zone, calls: seq<ClockCall>)
    requires e.Sync? || e.Read? || e.Sleep?
    ensures Pending(log + [e]) == Pending(log) && Commands(log + [e]) == Commands(log)
    ensures calls + Calls(log + [e]) ==
            (calls + Calls(log)) + [if e.Sleep? then Sleeping(e.n, e.left) else Reading(e.t)]
  {
    LogGrowth(log, e, zone);
  }

  /** The event of a tick at the target time. */
  function TickAt(zone: Zone, target: int, users: seq<User>): Event {
    Tick(target, users, Due(users, Minute(zone(target).0)))
  }

  /** The log after the queue is run: nothing happens to an empty one. */
  function Drained(log: seq<Event>): seq<Event> {
    if Pending(log) == [] then log else log + [Drain(Pending(log))]
  }

  lemma LogDrains(log: seq<Event>, zone: Zone)
    requires LogOk(log, zone) && MayDrain(log, zone)
    ensures LogOk(Drained(log), zone) && Pending(Drained(log)) == [] && log <= Drained(log)
    ensures Commands(Drained(log)) == Commands(log) + Pending(log) && Calls(Drained(log)) == Calls(log)
    ensures Ticks(Drained(log)) == Ticks(log) && FirstRead(Drained(log)) == FirstRead(log)
    ensures Elapsed(Drained(log)) == Elapsed(log) && Target(Drained(log), zone) == Target(log, zone)
  {
    if Pending(log) != [] {
      LogGrows(log, zone, Drain(Pending(log)));
      LogGrowth(log, Drain(Pending(log)), zone);
    }
  }

  lemma JobsRegroup(a: seq<Job>, b: seq<Job>, c: seq<Job>)
    ensures a + (b + c) == (a + b) + c
  {}

  lemma LogStarts(log: seq<Event>, zone: Zone, started: seq<Job>)
    requires LogOk(log, zone) && MayDrain(log, zone)
    ensures started + Commands(Drained(log)) == (started + Commands(log)) + Pending(log)
  {
    LogDrains(log, zone);
    JobsRegroup(started, Commands(log), Pending(log));
  }

  /** The log after one round of the first loop of `cron_sleep`, which read the time `t`. */
  function Polled(log: seq<Event>, t: int, target: int): seq<Event> {
    if t < target then Drained(log + [Read(t)]) else log + [Read(t)]
  }

  lemma LogReads(log: seq<Event>, zone: Zone, t: int)
    requires LogOk(log, zone)
    ensures LogOk(log + [Read(t)], zone) && log <= log + [Read(t)] && Pending(log + [Read(t)]) == Pending(log)
    ensures Ticks(log + [Read(t)]) == Ticks(log) && Elapsed(log + [Read(t)]) == t
    ensures Target(log + [Read(t)], zone) == Target(log, zone)
    ensures FirstRead(log + [Read(t)]) == if FirstRead(log) == None then Some(t) else FirstRead(log)
    ensures t < Target(log, zone) ==> MayDrain(log + [Read(t)], zone)
  {
    LogGrows(log, zone, Read(t));
    LogGrowth(log, Read(t), zone);
  }

  lemma LogPolls(log: seq<Event>, zone: Zone, t: int, target: int)
    requires LogOk(log, zone) && target == Target(log, zone)
    ensures LogOk(Polled(log, t, target), zone) && log <= Polled(log, t, target)
    ensures Pending(Polled(log, t, target)) == if t < target then [] else Pending(log)
    ensures Ticks(Polled(log, t, target)) == Ticks(log) && Elapsed(Polled(log, t, target)) == t
    ensures Target(Polled(log, t, target), zone) == target
    ensures FirstRead(Polled(log, t, target)) == if FirstRead(log) == None then Some(t) else FirstRead(log)
  {
    LogReads(log, zone, t);
    if t < target {
      LogDrains(log + [Read(t)], zone);
    }
  }

  // ---------------------------------------------------------------- the parts side by side

  /** What a stretch of a run comes to: the database and the log it leads to, the objects that belong to
      the daemon by then, and what the clock and the shell had done before the run. */
  datatype Stage = Stage(base: Base, log: seq<Event>, repr: set<object>, calls: seq<ClockCall>, started: seq<Job>)

  ghost predicate DbIs(db: CronDb, b: Base)
    reads db, db.nodes
  {
    db.Valid() && db.mtime == b.mtime && Views(db.nodes) == b.users
  }

  ghost predicate QueueIs(queue: Queue, q: seq<Job>)
    reads queue, queue.repr
  {
    queue.Valid() && queue.Jobs() == q
  }

  /** What the clock and the shell have done. */
  ghost predicate Done(clock: Clock, shell: Shell, calls: seq<ClockCall>, started: seq<Job>)
    reads clock, shell
  {
    clock.trace == calls && shell.started == started
  }

  // Each of these changes one part and leaves the others alone.

  method TimeBeside(clock: Clock, shell: Shell, db: CronDb, queue: Queue, ghost b: Base, ghost q: seq<Job>)
    returns (t: int)
    requires DbIs(db, b) && QueueIs(queue, q)
    modifies clock
    ensures t == clock.now >= old(clock.now) && Done(clock, shell, old(clock.trace) + [Reading(t)], old(shell.started))
    ensures DbIs(db, b) && QueueIs(queue, q) && db.nodes == old(db.nodes) && queue.repr == old(queue.repr)
  {
    t := clock.Time();
  }

  method SleepBeside(clock: Clock, n: nat, shell: Shell, db: CronDb, queue: Queue, ghost b: Base, ghost q: seq<Job>)
    returns (left: nat)
    requires DbIs(db, b) && QueueIs(queue, q)
    modifies clock
    ensures left <= n && Done(clock, shell, old(clock.trace) + [Sleeping(n, left)], old(shell.started))
    ensures |clock.script| <= old(|clock.script|) && (left > 0 ==> |clock.script| < old(|clock.script|))
    ensures DbIs(db, b) && QueueIs(queue, q) && db.nodes == old(db.nodes) && queue.repr == old(queue.repr)
  {
    left := clock.Sleep(n);
  }

  method RunBeside(queue: Queue, shell: Shell, db: CronDb, clock: Clock, ghost b: Base, ghost q: seq<Job>)
    returns (run: nat)
    requires DbIs(db, b) && QueueIs(queue, q)
    modifies queue, shell
    ensures run == |q| && QueueIs(queue, []) && queue.repr == {}
    ensures Done(clock, shell, old(clock.trace), old(shell.started) + q) && clock.now == old(clock.now)
    ensures DbIs(db, b) && db.nodes == old(db.nodes)
  {
    run := queue.RunQueue(shell);
  }

  method QueueBeside(queue: Queue, shell: Shell, db: CronDb, clock: Clock, when: Occasion, ghost b: Base,
                     ghost q: seq<Job>)
    requires DbIs(db, b) && QueueIs(queue, q)
    modifies queue, queue.repr
    ensures QueueIs(queue, QueuedAll(q, Due(db.nodes, when)))
    ensures forall o :: o in queue.repr ==> o in old(queue.repr) || fresh(o)
    ensures Done(clock, shell, old(clock.trace), old(shell.started)) && clock.now == old(clock.now)
    ensures DbIs(db, b) && db.nodes == old(db.nodes)
  {
    QueueUsers(db, queue, when);
  }

  method LoadBeside(db: CronDb, queue: Queue, shell: Shell, clock: Clock, d: Disk, ghost b: Base, ghost q: seq<Job>)
    returns (ghost users: set<User>)
    requires DiskOk(d) && DbIs(db, b) && QueueIs(queue, q)
    modifies db, db.nodes
    ensures DbIs(db, Reloaded(b, d))
    ensures forall i :: 0 <= i < |db.nodes| ==> db.nodes[i] in users
    ensures forall u :: u in users ==> u in old(db.nodes) || fresh(u)
    ensures Done(clock, shell, old(clock.trace), old(shell.started)) && clock.now == old(clock.now)
    ensures QueueIs(queue, q) && queue.repr == old(queue.repr)
  {
    ghost var _ := LoadDatabase(db, d.spoolMtime, d.sysMtime, d.system, d.dir, d.accounts);
    users := set u | u in db.nodes;
  }

  // ---------------------------------------------------------------- the daemon

  class Daemon {
    const db: CronDb
    const queue: Queue
    const clock: Clock
    const shell: Shell
    const zone: Zone

    constructor (clock: Clock, shell: Shell, zone: Zone, ghost g: Stage)
      requires g.base == Base(0, []) && g.log == [] && g.repr == {clock, shell}
      requires Done(clock, shell, g.calls, g.started)
      ensures this.clock == clock && this.shell == shell && this.zone == zone && fresh(db) && fresh(queue)
      ensures db.nodes == [] && Valid(g.(repr := {clock, shell, db, queue}))
    {
      db := new CronDb(0);
      queue := new Queue();
      this.clock, this.shell, this.zone := clock, shell, zone;
    }

    /** Both linked structures are well formed, and the log accounts for the queue, for the commands
        that were started and for the calls of the clock. */
    ghost predicate Valid(g: Stage)
      reads db, db.nodes, queue, queue.repr, clock, shell
    {
      && db in g.repr && queue in g.repr && clock in g.repr && shell in g.repr
      && (forall i :: 0 <= i < |db.nodes| ==> db.nodes[i] in g.repr) && (forall o :: o in queue.repr ==> o in g.repr)
      && DbIs(db, g.base) && QueueIs(queue, Pending(g.log)) && LogOk(g.log, zone)
      && Done(clock, shell, g.calls + Calls(g.log), g.started + Commands(g.log))
    }

    /** `job_runqueue`, logged. */
    method RunQueue(ghost g: Stage) returns (run: nat, ghost g': Stage)
      requires Valid(g) && MayDrain(g.log, zone)
      modifies g.repr
      ensures Valid(g') && g' == g.(log := Drained(g.log)) && run == |Pending(g.log)| && clock.now == old(clock.now)
    {
      LogDrains(g.log, zone);
      LogStarts(g.log, zone, g.started);
      run := RunBeside(queue, shell, db, clock, g.base, Pending(g.log));
      g' := g.(log := Drained(g.log));
    }

    /** The loops over users and entries, logged as `e`. */
    method QueueAll(when: Occasion, ghost e: Event, ghost g: Stage) returns (ghost g': Stage)
      requires Valid(g) && MayFollow(g.log, e, zone) && (e.Boot? || e.Tick?) && e.due == Due(db.nodes, when)
      modifies g.repr
      ensures Valid(g') && g' == g.(log := g.log + [e], repr := g'.repr) && clock.now == old(clock.now)
      ensures forall o :: o in g'.repr ==> o in g.repr || fresh(o)
    {
      LogGrows(g.log, zone, e);
      LogQueues(g.log, e, zone);
      QueueBeside(queue, shell, db, clock, when, g.base, Pending(g.log));
      g' := g.(log := g.log + [e], repr := g.repr + queue.repr);
    }

    method Load(d: Disk, ghost g: Stage) returns (ghost g': Stage)
      requires DiskOk(d) && Valid(g)
      modifies g.repr
      ensures Valid(g') && g' == g.(base := Reloaded(g.base, d), repr := g'.repr) && clock.now == old(clock.now)
      ensures forall o :: o in g'.repr ==> o in g.repr || fresh(o)
    {
      ghost var users := LoadBeside(db, queue, shell, clock, d, g.base, Pending(g.log));
      g' := g.(base := Reloaded(g.base, d), repr := g.repr + users);
    }

    /** `run_reboot_jobs`: queues the jobs of the reboot entries and runs the queue. */
    method RunRebootJobs(ghost g: Stage) returns (ghost boot: Event, ghost g': Stage)
      requires Valid(g) && g.log == []
      modifies g.repr
      ensures boot == Boot(old(db.nodes), Due(old(db.nodes), Reboot)) && Views(boot.users) == g.base.users
      ensures Valid(g') && g' == g.(log := Drained(g.log + [boot]), repr := g'.repr) && clock.now == old(clock.now)
      ensures forall o :: o in g'.repr ==> o in g.repr || fresh(o)
    {
      boot := Boot(db.nodes, Due(db.nodes, Reboot));
      g' := QueueAll(Reboot, boot, g);
      var run;
      run, g' := RunQueue(g');
    }

    /** `cron_tick`: queues what fires at the target time. */
    method CronTick(target: int, ghost g: Stage) returns (ghost tick: Event, ghost g': Stage)
      requires Valid(g) && target == Target(g.log, zone) <= Elapsed(g.log)
      requires FirstRead(g.log).Some? && (FirstRead(g.log).value < target ==> Pending(g.log) == [])
      modifies g.repr
      ensures tick == TickAt(zone, target, old(db.nodes)) && Views(tick.users) == g.base.users
      ensures Valid(g') && g' == g.(log := g.log + [tick], repr := g'.repr)
      ensures forall o :: o in g'.repr ==> o in g.repr || fresh(o)
    {
      var tm := zone(target).0;
      tick := TickAt(zone, target, db.nodes);
      g' := QueueAll(Minute(tm), tick, g);
    }

    /** `cron_sync`: the first minute begins after the clock is read, and within a minute of it. */
    method CronSync(ghost g: Stage) returns (target: int, ghost t: int, ghost g': Stage)
      requires Valid(g) && SyncMayFollow(g.log, zone)
      modifies g.repr
      ensures Valid(g') && g' == g.(log := g.log + [Sync(t)]) && t >= old(clock.now) && target == t + 60 - zone(t).1
    {
      target := TimeBeside(clock, shell, db, queue, g.base, Pending(g.log));
      t := target;
      LogGrows(g.log, zone, Sync(t));
      LogCalls(g.log, Sync(t), zone, g.calls);
      g' := g.(log := g.log + [Sync(t)]);
      target := target + (60 - zone(target).1);
    }

    /** A look at the clock, in `cron_sleep`. */
    method Look(ghost g: Stage) returns (t: int, ghost g': Stage)
      requires Valid(g)
      modifies g.repr
      ensures Valid(g') && g' == g.(log := g.log + [Read(t)])
      ensures Pending(g'.log) == Pending(g.log) && (t < Target(g.log, zone) ==> MayDrain(g'.log, zone))
    {
      t := TimeBeside(clock, shell, db, queue, g.base, Pending(g.log));
      LogGrows(g.log, zone, Read(t));
      LogCalls(g.log, Read(t), zone, g.calls);
      LogGrowth(g.log, Read(t), zone);
      g' := g.(log := g.log + [Read(t)]);
    }

    /** Runs the queue if at `now` there is still time; `again` if there was anything to run. */
    method RunInTime(now: int, target: int, ghost log: seq<Event>, ghost g: Stage)
      returns (wait: int, again: bool, ghost g': Stage)
      requires Valid(g) && g.log == log + [Read(now)] && (now < target ==> MayDrain(g.log, zone))
      modifies g.repr
      ensures Valid(g') && g' == g.(log := Polled(log, now, target))
      ensures wait == target - now && again == (now < target && Pending(g.log) != [])
    {
      wait, again, g' := target - now, false, g;
      if wait > 0 {
        var run;
        run, g' := RunQueue(g);
        again := run > 0;
      }
    }

    /** One round of the first loop of `cron_sleep`: unless the target time has come, runs the queue;
        `again` if there was anything to run. */
    method Poll(target: int, ghost g: Stage) returns (wait: int, again: bool, ghost t: int, ghost g': Stage)
      requires Valid(g) && target == Target(g.log, zone)
      modifies g.repr
      ensures Valid(g') && g' == g.(log := Polled(g.log, t, target))
      ensures wait == target - t && again == (t < target && Pending(g.log) != [])
    {
      ghost var h;
      var now;
      now, h := Look(g);
      t := now;
      wait, again, g' := RunInTime(now, target, g.log, h);
    }

    /** The first loop of `cron_sleep`. `first` is the time that it read first. */
    method RunUntilIdle(target: int, ghost g: Stage) returns (wait: int, ghost first: int, ghost g': Stage)
      requires Valid(g) && target == Target(g.log, zone) && FirstRead(g.log) == None
      modifies g.repr
      ensures Valid(g') && g' == g.(log := g'.log) && Awake(g.log, g'.log, zone, first)
      ensures wait == target - Elapsed(g'.log) && (wait > 0 ==> Pending(g'.log) == [])
    {
      var again;
      ghost var t;
      wait, again, t, g' := Poll(target, g);
      LogPolls(g.log, zone, t, target);
      first := t;
      while again
        invariant Valid(g') && g' == g.(log := g'.log) && Awake(g.log, g'.log, zone, first)
        invariant wait == target - Elapsed(g'.log) && (wait > 0 || again ==> Pending(g'.log) == [])
        decreases again
      {
        ghost var h := g';
        wait, again, t, g' := Poll(target, h);
        LogPolls(h.log, zone, t, target);
      }
    }

    /** One call of `sleep`. */
    method Nap(n: nat, ghost g: Stage) returns (left: nat, ghost g': Stage)
      requires Valid(g) && Pending(g.log) == [] && FirstRead(g.log).Some? && n == Target(g.log, zone) - Elapsed(g.log)
      modifies g.repr
      ensures left <= n && Valid(g') && g' == g.(log := g.log + [Sleep(n, left)])
      ensures |clock.script| <= old(|clock.script|) && (left > 0 ==> |clock.script| < old(|clock.script|))
    {
      left := SleepBeside(clock, n, shell, db, queue, g.base, Pending(g.log));
      LogGrows(g.log, zone, Sleep(n, left));
      LogCalls(g.log, Sleep(n, left), zone, g.calls);
      g' := g.(log := g.log + [Sleep(n, left)]);
    }

    /** The second loop of `cron_sleep`: sleeps again whenever it is interrupted. */
    method SleepOut(target: int, wait: int, ghost g: Stage) returns (ghost g': Stage)
      requires Valid(g) && target == Target(g.log, zone) && wait == target - Elapsed(g.log)
      requires FirstRead(g.log).Some? && (wait > 0 ==> Pending(g.log) == [])
      modifies g.repr
      ensures Valid(g') && g' == g.(log := g'.log) && Slept(g.log, g'.log, zone) && target <= Elapsed(g'.log)
    {
      var left := wait;
      g' := g;
      while left > 0
        invariant Valid(g') && g' == g.(log := g'.log) && Slept(g.log, g'.log, zone)
        invariant left == target - Elapsed(g'.log) && (left > 0 ==> Pending(g'.log) == [])
        decreases |clock.script|, left
      {
        ghost var h, n := g', left;
        left, g' := Nap(left, h);
        LogGrowth(h.log, Sleep(n, left), zone);
      }
    }

    /** `cron_sleep`: returns no earlier than at the target time, and has emptied the queue unless it
        was already late. */
    method CronSleep(target: int, ghost g: Stage) returns (ghost first: int, ghost g': Stage)
      requires Valid(g) && target == Target(g.log, zone) && FirstRead(g.log) == None
      modifies g.repr
      ensures Valid(g') && g' == g.(log := g'.log) && Awake(g.log, g'.log, zone, first) && target <= Elapsed(g'.log)
    {
      var wait;
      wait, first, g' := RunUntilIdle(target, g);
      g' := SleepOut(target, wait, g');
    }

    /** The start of the daemon: load everything, run the reboot jobs. */
    method Start(d: Disk, ghost g: Stage) returns (ghost boot: Event, ghost g': Stage)
      requires DiskOk(d) && Valid(g) && g.log == []
      modifies g.repr
      ensures boot.Boot? && boot.due == Due(boot.users, Reboot) && Views(boot.users) == Reloaded(g.base, d).users
      ensures Valid(g') && g' == g.(base := Reloaded(g.base, d), log := Drained(g.log + [boot]), repr := g'.repr)
      ensures clock.now == old(clock.now) && forall o :: o in g'.repr ==> o in g.repr || fresh(o)
    {
      g' := Load(d, g);
      boot, g' := RunRebootJobs(g');
    }

    /** The first half of a round of the main loop: sleep, then reload. */
    method SleepAndLoad(target: int, d: Disk, ghost g: Stage) returns (ghost first: int, ghost g': Stage)
      requires DiskOk(d) && Valid(g) && target == Target(g.log, zone) && FirstRead(g.log) == None
      modifies g.repr
      ensures Valid(g') && g' == g.(base := Reloaded(g.base, d), log := g'.log, repr := g'.repr)
      ensures Awake(g.log, g'.log, zone, first) && target <= Elapsed(g'.log)
      ensures forall o :: o in g'.repr ==> o in g.repr || fresh(o)
    {
      first, g' := CronSleep(target, g);
      g' := Load(d, g');
    }

    /** One round of the main loop: sleep, reload, tick. */
    method Round(target: int, d: Disk, ghost g: Stage) returns (ghost tick: Event, ghost g': Stage)
      requires DiskOk(d) && Valid(g) && target == Target(g.log, zone) && FirstRead(g.log) == None
      modifies g.repr
      ensures Valid(g') && g' == g.(base := Reloaded(g.base, d), log := g'.log, repr := g'.repr)
      ensures RoundLogged(g.log, g'.log, zone, tick) && tick.Tick? && tick.at == target
      ensures Views(tick.users) == g'.base.users
      ensures forall o :: o in g'.repr ==> o in g.repr || fresh(o)
    {
      ghost var first, h := SleepAndLoad(target, d, g);
      tick, g' := CronTick(target, h);
      LogGrowth(h.log, tick, zone);
    }

    /** The main loop, for as many rounds as there are states of the disk. */
    method Loop(start: int, disks: seq<Disk>, ghost g: Stage) returns (ghost g': Stage)
      requires disks != [] && DisksOk(disks) && Valid(g) && Reached(g, 1, zone, start, disks)
      modifies g.repr
      ensures Valid(g') && Reached(g', |disks|, zone, start, disks) && g.log <= g'.log && g'.calls == g.calls
      ensures g'.started == g.started
    {
      g' := g;
      var target := start;
      var k := 1;
      while k < |disks|
        invariant 1 <= k <= |disks| && target == start + 60 * (k - 1)
        invariant Valid(g') && Reached(g', k, zone, start, disks)
        invariant g.log <= g'.log && g'.calls == g.calls && g'.started == g.started
        invariant forall o :: o in g'.repr ==> o in g.repr || fresh(o)
      {
        ghost var h := g';
        ghost var tick;
        tick, g' := Round(target, disks[k], h);
        ReachedGrows(h, g', k, zone, start, disks, tick);
        target := target + 60;
        k := k + 1;
      }
    }
  }

  /** What `cron_sleep` leaves: it read the time `first`, and the queue is empty if that was in time and
      as before otherwise. */
  ghost predicate Awake(log: seq<Event>, log': seq<Event>, zone: Zone, first: int) {
    && log <= log' && Ticks(log') == Ticks(log) && FirstRead(log') == Some(first)
    && Target(log', zone) == Target(log, zone)
    && Pending(log') == if first < Target(log, zone) then [] else Pending(log)
  }

  /** Only sleep has come to the log. */
  ghost predicate Slept(log: seq<Event>, log': seq<Event>, zone: Zone) {
    && log <= log' && Ticks(log') == Ticks(log) && FirstRead(log') == FirstRead(log) && Pending(log') == Pending(log)
    && Target(log', zone) == Target(log, zone)
  }

  /** What a round adds to the log ends in a tick. */
  ghost predicate RoundLogged(log: seq<Event>, log': seq<Event>, zone: Zone, tick: Event) {
    && log <= log' && Ticks(log') == Ticks(log) + [tick] && FirstRead(log') == None
    && tick.Tick? && Target(log', zone) == tick.at + 60
  }

  /** A run of the daemon up to its `k`-th reload and the tick after it. */
  ghost predicate Reached(g: Stage, k: nat, zone: Zone, start: int, disks: seq<Disk>)
    requires k <= |disks|
  {
    && g.base == BaseAfter(disks, k) && FirstRead(g.log) == None
    && Target(g.log, zone) == start + 60 * (k - 1) && |Ticks(g.log)| == k - 1 && OnTime(Ticks(g.log), start, disks)
  }

  lemma ReachedFirst(g: Stage, g': Stage, zone: Zone, start: int, disks: seq<Disk>)
    requires disks != [] && g.base == BaseAfter(disks, 0) && g'.base == Reloaded(g.base, disks[0])
    requires Ticks(g'.log) == [] && FirstRead(g'.log) == None && Target(g'.log, zone) == start
    ensures Reached(g', 1, zone, start, disks)
  {}

  lemma ReachedGrows(g: Stage, g': Stage, k: nat, zone: Zone, start: int, disks: seq<Disk>, tick: Event)
    requires k < |disks| && Reached(g, k, zone, start, disks)
    requires g'.base == Reloaded(g.base, disks[k]) && RoundLogged(g.log, g'.log, zone, tick)
    requires tick.Tick? && tick.at == start + 60 * (k - 1) && Views(tick.users) == g'.base.users
    ensures Reached(g', k + 1, zone, start, disks)
  {
    OnTimeGrows(Ticks(g.log), start, disks, tick, k);
  }

  lemma OnTimeGrows(ticks: seq<Event>, start: int, disks: seq<Disk>, tick: Event, k: nat)
    requires OnTime(ticks, start, disks) && k == |ticks| + 1 < |disks|
    requires tick.Tick? && tick.at == start + 60 * (k - 1)
    requires Views(tick.users) == Reloaded(BaseAfter(disks, k), disks[k]).users
    ensures OnTime(ticks + [tick], start, disks)
    ensures BaseAfter(disks, k + 1) == Reloaded(BaseAfter(disks, k), disks[k])
  {
    assert TickOnTime(tick, |ticks|, start, disks);
  }

  /** How a log begins: the reboot jobs of the first database are queued, and run if there are any; then
      the clock is read. */
  ghost predicate Begins(log: seq<Event>, boot: Event, sync: int, disks: seq<Disk>) {
    && disks != [] && boot.Boot? && Views(boot.users) == BaseAfter(disks, 1).users
    && boot.due == Due(boot.users, Reboot)
    && Drained([boot]) + [Sync(sync)] <= log
  }

  ghost predicate SyncMayFollow(log: seq<Event>, zone: Zone) {
    forall t :: MayFollow(log, Sync(t), zone)
  }

  lemma SyncFollows(log: seq<Event>, zone: Zone)
    requires forall i :: 0 <= i < |log| ==> log[i].Boot?
    ensures SyncMayFollow(Drained(log), zone)
  {}

  lemma BootLogged(log: seq<Event>, boot: Event, zone: Zone)
    requires log == [] && boot.Boot? && boot.due == Due(boot.users, Reboot)
    ensures log + [boot] == [boot] && SyncMayFollow(Drained(log + [boot]), zone)
    ensures MayDrain(log + [boot], zone) && LogOk(log + [boot], zone)
    ensures Ticks(log + [boot]) == [] && FirstRead(log + [boot]) == None
  {
    LogGrows(log, zone, boot);
    LogGrowth(log, boot, zone);
    SyncFollows(log + [boot], zone);
  }

  lemma StartLogged(boot: Event, sync: int, zone: Zone)
    requires boot.Boot? && LogOk([boot], zone) && MayDrain([boot], zone) && Ticks([boot]) == []
    requires FirstRead([boot]) == None
    ensures Ticks(Drained([boot]) + [Sync(sync)]) == [] && FirstRead(Drained([boot]) + [Sync(sync)]) == None
    ensures Target(Drained([boot]) + [Sync(sync)], zone) == sync + 60 - zone(sync).1
  {
    LogDrains([boot], zone);
    LogGrowth(Drained([boot]), Sync(sync), zone);
  }

  /** The daemon from its start. Whatever the clock and the interruptions do: the reboot jobs are queued
      and run; the ticks are evaluated at `start`, `start + 60`, `start + 120`, ..., none skipped, repeated
      or early; each queues exactly what fires then in the database that the reloads so far have made, and
      finds the queue empty unless its `cron_sleep` started late; the daemon never sleeps on a queued job;
      and every drain runs exactly what is queued. The log tells the truth about the calls of the clock
      and about the commands that are started. */
  method Run(clock: Clock, shell: Shell, zone: Zone, disks: seq<Disk>)
    returns (ghost boot: Event, ghost sync: int, ghost start: int, ghost log: seq<Event>)
    requires disks != [] && DisksOk(disks)
    modifies clock, shell
    ensures clock.trace == old(clock.trace) + Calls(log) && shell.started == old(shell.started) + Commands(log)
    ensures LogOk(log, zone) && Begins(log, boot, sync, disks)
    ensures sync >= old(clock.now) && start == sync + 60 - zone(sync).1
    ensures |Ticks(log)| == |disks| - 1 && OnTime(Ticks(log), start, disks)
  {
    ghost var g := Stage(BaseAfter(disks, 0), [], {clock, shell}, clock.trace, shell.started);
    var daemon := new Daemon(clock, shell, zone, g);
    g := g.(repr := {clock, shell, daemon.db, daemon.queue});
    boot, sync, start, log := RunFrom(daemon, disks, g);
  }

  /** What comes before the main loop: load everything, run the reboot jobs, read the clock. */
  method Begin(daemon: Daemon, disks: seq<Disk>, ghost g: Stage)
    returns (target: int, ghost boot: Event, ghost sync: int, ghost g': Stage)
    requires disks != [] && DisksOk(disks) && daemon.Valid(g) && g.base == BaseAfter(disks, 0) && g.log == []
    modifies g.repr
    ensures daemon.Valid(g') && g'.calls == g.calls && g'.started == g.started
    ensures Begins(g'.log, boot, sync, disks) && Reached(g', 1, daemon.zone, target, disks)
    ensures sync >= old(daemon.clock.now) && target == sync + 60 - daemon.zone(sync).1
    ensures forall o :: o in g'.repr ==> o in g.repr || fresh(o)
  {
    ghost var h;
    boot, h := daemon.Start(disks[0], g);
    BootLogged(g.log, boot, daemon.zone);
    target, sync, g' := daemon.CronSync(h);
    StartLogged(boot, sync, daemon.zone);
    ReachedFirst(g, g', daemon.zone, target, disks);
  }

  method RunFrom(daemon: Daemon, disks: seq<Disk>, ghost g: Stage)
    returns (ghost boot: Event, ghost sync: int, ghost start: int, ghost log: seq<Event>)
    requires disks != [] && DisksOk(disks) && daemon.Valid(g) && g.base == BaseAfter(disks, 0) && g.log == []
    modifies g.repr
    ensures Done(daemon.clock, daemon.shell, g.calls + Calls(log), g.started + Commands(log))
    ensures LogOk(log, daemon.zone) && Begins(log, boot, sync, disks)
    ensures sync >= old(daemon.clock.now) && start == sync + 60 - daemon.zone(sync).1
    ensures |Ticks(log)| == |disks| - 1 && OnTime(Ticks(log), start, disks)
  {
    var target;
    ghost var h;
    target, boot, sync, h := Begin(daemon, disks, g);
    start := target;
    ghost var h' := daemon.Loop(target, disks, h);
    log := h'.log;
  }
}
