/** The crontab database (database.c): two doubly linked lists of users between which an incremental
    reload moves nodes, proved to give what a full reload would. */
module CronDatabase {
  import opened Common
  import opened CronText
  import opened CronEntry
  import CrontabLoader

  type Tab = seq<EntryView>

  /** A user as a value: name, modification time and loaded crontab. */
  datatype UserView = UserView(name: string, mtime: int, tab: Tab)

  class User {
    var next: User?
    var prev: User?
    const name: string
    const mtime: int
    const tab: Tab

    constructor (name: string, mtime: int, tab: Tab)
      ensures this.name == name && this.mtime == mtime && this.tab == tab
    {
      this.name, this.mtime, this.tab := name, mtime, tab;
      next, prev := null, null;
    }
  }

  /** The list control block. `nodes` is the list that the links spell. */
  class CronDb {
    var head: User?
    var tail: User?
    var mtime: int
    ghost var nodes: seq<User>

    constructor (mtime: int)
      ensures Valid() && nodes == [] && this.mtime == mtime
    {
      head, tail, this.mtime := null, null, mtime;
      nodes := [];
    }

    ghost predicate Valid()
      reads this, nodes
    {
      Forward(nodes) && Backward(nodes) && Distinct(nodes)
    }

    /** Appends a user that is on neither list. */
    method LinkUser(u: User)
      requires Valid() && u !in nodes
      modifies this, nodes, u
      ensures Valid() && nodes == old(nodes) + [u]
      ensures mtime == old(mtime)
    {
      if head == null {
        head := u;
      }
      if tail != null {
        tail.next := u;
      }
      u.prev := tail;
      u.next := null;
      tail := u;
      nodes := nodes + [u];
    }

    /** The links forward spell `ns`. */
    ghost predicate Forward(ns: seq<User>)
      reads this, ns
    {
      && (if ns == [] then head == null else head == ns[0] && ns[|ns| - 1].next == null)
      && (forall i {:trigger ns[i].next} :: 0 <= i < |ns| - 1 ==> ns[i].next == ns[i + 1])
    }

    /** The links back spell `ns`. */
    ghost predicate Backward(ns: seq<User>)
      reads this, ns
    {
      && (if ns == [] then tail == null else tail == ns[|ns| - 1] && ns[0].prev == null)
      && (forall i {:trigger ns[i].prev} :: 0 < i < |ns| ==> ns[i].prev == ns[i - 1])
    }

    /** The links forward pass the user at position `k` by. */
    method BypassForward(u: User, ghost ns: seq<User>, ghost k: nat)
      requires Distinct(ns) && k < |ns| && ns[k] == u && Forward(ns) && Backward(ns)
      modifies this`head, ns`next
      ensures Forward(Without(ns, k)) && Backward(ns) && u.next == (if k + 1 < |ns| then ns[k + 1] else null)
    {
      assert u.prev == (if k > 0 then ns[k - 1] else null);
      assert u.next == (if k + 1 < |ns| then ns[k + 1] else null);
      if u.prev == null {
        head := u.next;
      } else {
        u.prev.next := u.next;
      }
      forall i | 0 <= i < |ns| - 2 ensures Without(ns, k)[i].next == Without(ns, k)[i + 1] {
        var j := if i < k then i else i + 1;
        assert Without(ns, k)[i] == ns[j];
        assert i + 1 != k ==> old(ns[j].next) == ns[j + 1];
      }
    }

    /** And so do the links back. */
    method BypassBackward(u: User, ghost ns: seq<User>, ghost k: nat)
      requires Distinct(ns) && k < |ns| && ns[k] == u && Forward(Without(ns, k)) && Backward(ns)
      requires u.next == (if k + 1 < |ns| then ns[k + 1] else null)
      modifies this`tail, ns`prev
      ensures Forward(Without(ns, k)) && Backward(Without(ns, k))
    {
      if u.next == null {
        tail := u.prev;
      } else {
        u.next.prev := u.prev;
      }
      forall i | 0 < i < |ns| - 1 ensures Without(ns, k)[i].prev == Without(ns, k)[i - 1] {
        var j := if i < k then i else i + 1;
        assert Without(ns, k)[i] == ns[j];
        assert i != k ==> old(ns[j].prev) == ns[j - 1];
      }
    }

    /** Takes the user at position `k` off the list; the user's own links are left as they are. */
    method UnlinkUser(u: User, ghost k: nat)
      requires Valid() && k < |nodes| && nodes[k] == u
      modifies this, nodes
      ensures Valid() && nodes == Without(old(nodes), k) && u !in nodes
      ensures mtime == old(mtime)
    {
      ghost var was := nodes;
      DistinctWithout(was, k);
      BypassForward(u, was, k);
      BypassBackward(u, was, k);
      nodes := Without(was, k);
    }

    /** The first user of that name. */
    method FindUser(name: string) returns (u: User?, ghost k: nat)
      requires Valid()
      ensures k == FirstNamed(Names(nodes), name)
      ensures u == if FirstNamed(Names(nodes), name) < |nodes| then nodes[FirstNamed(Names(nodes), name)] else null
    {
      u := head;
      k := 0;
      while u != null
        invariant 0 <= k <= |nodes| && u == (if k < |nodes| then nodes[k] else null)
        invariant FirstNamed(Names(nodes), name) == k + FirstNamed(Names(nodes)[k..], name)
        decreases |nodes| - k
      {
        if u.name == name {
          return;
        }
        assert Names(nodes)[k..][1..] == Names(nodes)[k + 1..];
        u := u.next;
        k := k + 1;
      }
    }
  }

  lemma DistinctWithout<T>(s: seq<T>, k: nat)
    requires k < |s| && Distinct(s)
    ensures Distinct(Without(s, k)) && s[k] !in Without(s, k)
  {}

  ghost function Names(nodes: seq<User>): (names: seq<string>)
    ensures |names| == |nodes| && forall i :: 0 <= i < |names| ==> names[i] == nodes[i].name
  {
    ViewNames(Views(nodes))
  }

  /** The position of the first occurrence of `name`, or the number of names. */
  function FirstNamed(names: seq<string>, name: string): (k: nat)
    ensures k <= |names|
    ensures k < |names| ==> names[k] == name
    ensures forall i :: 0 <= i < k ==> names[i] != name
  {
    if names == [] || names[0] == name then 0 else 1 + FirstNamed(names[1..], name)
  }

  // ---------------------------------------------------------------- reloading, on values

  /** A crontab file as one scan finds it: the account of its name, whether it can be opened and examined,
      its modification time and text, and what loading it gives (None: the load fails). */
  datatype Spooled = Spooled(fname: string, account: Option<Passwd>, readable: bool, statable: bool, mtime: int,
                             text: string, load: Option<Tab>)

  const SYSTEM := "*system*"

  predicate Usable(f: Spooled) {
    (f.fname == SYSTEM || f.account.Some?) && f.readable && f.statable
  }

  /** The account of a file is that of its name, and none for the system crontab, whose lines name their own. Its
      entries are those that `load_user` makes of its whole text: no line has a field on which the compiler loops. */
  ghost predicate FileOk(f: Spooled, accounts: map<string, Passwd>) {
    && f.account == (if f.fname == SYSTEM || f.fname !in accounts then None else Some(accounts[f.fname]))
    && AccountsOk(f.account, accounts)
    && (f.load.Some? ==> exists rounds :: LoadedBy(f, f.load.value, rounds, accounts))
  }

  ghost predicate LoadedBy(f: Spooled, tab: Tab, rounds: seq<CrontabLoader.Round>, accounts: map<string, Passwd>) {
    exists pos: nat :: CrontabLoader.Complete(f.text, rounds, pos, tab, f.account, accounts)
  }

  ghost predicate FilesOk(files: seq<Spooled>, accounts: map<string, Passwd>) {
    forall f :: f in files ==> FileOk(f, accounts)
  }

  /** What loading a file from scratch adds to the database. */
  function Loaded(f: Spooled): seq<UserView> {
    if f.load.Some? then [UserView(f.fname, f.mtime, f.load.value)] else []
  }

  /** Every readable crontab loaded from scratch, in directory order. */
  function FullReload(files: seq<Spooled>): seq<UserView> {
    if files == [] then []
    else (if Usable(files[0]) then Loaded(files[0]) else []) + FullReload(files[1..])
  }

  /** Loading the file from scratch gives the user: its name is that of the system crontab or has an account, it
      can be opened and examined, and its text can be loaded. */
  ghost predicate FromFile(v: UserView, f: Spooled) {
    && (f.fname == "*system*" || f.account.Some?) && f.readable && f.statable
    && f.load == Some(v.tab) && v.name == f.fname && v.mtime == f.mtime
  }

  lemma FullReloadOne(f: Spooled, v: UserView)
    ensures FullReload([f]) == [v] <==> FromFile(v, f)
    ensures FullReload([f]) == [] <==> !exists u :: FromFile(u, f)
  {
    if f.load.Some? {
      var u := UserView(f.fname, f.mtime, f.load.value);
      assert FullReload([f])[..] == if Usable(f) then [u] else [];
      assert Usable(f) ==> FromFile(u, f);
    }
  }

  /** A full reload goes through the files one by one, in order. */
  lemma {:induction false} FullReloadJoins(a: seq<Spooled>, b: seq<Spooled>)
    ensures FullReload(a + b) == FullReload(a) + FullReload(b)
    decreases |a|
  {
    if a == [] {
      assert a + b == b;
    } else {
      var first, rest := if Usable(a[0]) then Loaded(a[0]) else [], a[1..];
      assert (a + b)[0] == a[0] && (a + b)[1..] == rest + b;
      FullReloadJoins(rest, b);
      assert first + (FullReload(rest) + FullReload(b)) == (first + FullReload(rest)) + FullReload(b);
    }
  }

  /** And so loads exactly the users that some file gives. */
  lemma {:induction false} FullReloadMembers(files: seq<Spooled>, v: UserView)
    ensures v in FullReload(files) <==> exists f :: f in files && FromFile(v, f)
  {
    if files != [] {
      FullReloadMembers(files[1..], v);
      assert FromFile(v, files[0]) <==> Usable(files[0]) && v in Loaded(files[0]);
      assert forall f :: f in files <==> f == files[0] || f in files[1..];
    }
  }

  function ViewNames(users: seq<UserView>): (names: seq<string>)
    ensures |names| == |users| && forall i :: 0 <= i < |names| ==> names[i] == users[i].name
  {
    seq(|users|, i requires 0 <= i < |users| => users[i].name)
  }

  function Found(users: seq<UserView>, f: Spooled): (k: nat)
    ensures k <= |users|
  {
    FirstNamed(ViewNames(users), f.fname)
  }

  function Without<T>(s: seq<T>, k: nat): (r: seq<T>)
    requires k < |s|
    ensures |r| == |s| - 1 && forall i :: 0 <= i < |r| ==> r[i] == if i < k then s[i] else s[i + 1]
  {
    s[..k] + s[k + 1..]
  }

  /** Whether the file is taken for unchanged since the user was loaded. */
  predicate Reused(users: seq<UserView>, f: Spooled) {
    Usable(f) && Found(users, f) < |users| && users[Found(users, f)].mtime == f.mtime
  }

  /** What one file adds to the new list. */
  function Added(users: seq<UserView>, f: Spooled): seq<UserView> {
    if !Usable(f) then []
    else if Reused(users, f) then [users[Found(users, f)]]
    else Loaded(f)
  }

  /** What one file leaves of the old list. */
  function Remaining(users: seq<UserView>, f: Spooled): seq<UserView> {
    if Usable(f) && Found(users, f) < |users| then Without(users, Found(users, f)) else users
  }

  /** The new list after a scan of `files`. */
  function Reload(users: seq<UserView>, files: seq<Spooled>): seq<UserView>
    decreases |files|
  {
    if files == [] then [] else Added(users, files[0]) + Reload(Remaining(users, files[0]), files[1..])
  }

  /** Every user that a scan takes over unchanged is what loading its file again would give. */
  predicate Coherent(users: seq<UserView>, files: seq<Spooled>)
    decreases |files|
  {
    files == [] ||
    (var f := files[0];
     && (Reused(users, f) ==> f.load == Some(users[Found(users, f)].tab))
     && Coherent(Remaining(users, f), files[1..]))
  }

  lemma AddedIsLoaded(users: seq<UserView>, f: Spooled)
    ensures |Added(users, f)| >= |if Usable(f) then Loaded(f) else []|
    ensures Added(users, f) == (if Usable(f) then Loaded(f) else [])
            <==> (Reused(users, f) ==> f.load == Some(users[Found(users, f)].tab))
  {
    if Reused(users, f) && f.load.Some? {
      assert Added(users, f)[0] == users[Found(users, f)];
      assert Loaded(f)[0] == UserView(f.fname, f.mtime, f.load.value);
    }
  }

  lemma {:induction false} ReloadIsLonger(users: seq<UserView>, files: seq<Spooled>)
    ensures |Reload(users, files)| >= |FullReload(files)|
    decreases |files|
  {
    if files != [] {
      AddedIsLoaded(users, files[0]);
      ReloadIsLonger(Remaining(users, files[0]), files[1..]);
    }
  }

  lemma AppendEqual<T>(a: seq<T>, b: seq<T>, c: seq<T>, d: seq<T>)
    requires |a| >= |c| && |b| >= |d|
    ensures a + b == c + d <==> a == c && b == d
  {
    if a + b == c + d {
      assert |a| == |c|;
      assert a == (a + b)[..|a|] && b == (a + b)[|a|..];
      assert c == (c + d)[..|c|] && d == (c + d)[|c|..];
    }
  }

  /** Incremental reload refines full reload: it gives the same list, in the same order, if and only
      if no changed crontab was taken for an unchanged one. */
  lemma {:induction false} ReloadIsFullReload(users: seq<UserView>, files: seq<Spooled>)
    ensures Reload(users, files) == FullReload(files) <==> Coherent(users, files)
    decreases |files|
  {
    if files != [] {
      var f := files[0];
      AddedIsLoaded(users, f);
      ReloadIsLonger(Remaining(users, f), files[1..]);
      ReloadIsFullReload(Remaining(users, f), files[1..]);
      AppendEqual(Added(users, f), Reload(Remaining(users, f), files[1..]),
                  if Usable(f) then Loaded(f) else [], FullReload(files[1..]));
    }
  }

  /** No usable crontab has the name and the modification time of a user and another content. */
  ghost predicate StampsTell(users: seq<UserView>, files: seq<Spooled>) {
    forall i, j :: 0 <= i < |users| && 0 <= j < |files| && Usable(files[j])
                   && users[i].name == files[j].fname && users[i].mtime == files[j].mtime ==>
      files[j].load == Some(users[i].tab)
  }

  lemma StampsTellRest(users: seq<UserView>, files: seq<Spooled>)
    requires files != [] && StampsTell(users, files)
    ensures StampsTell(Remaining(users, files[0]), files[1..])
  {
    var f := files[0];
    var left := Remaining(users, f);
    forall i, j | 0 <= i < |left| && 0 <= j < |files[1..]| && Usable(files[1..][j])
                  && left[i].name == files[1..][j].fname && left[i].mtime == files[1..][j].mtime
      ensures files[1..][j].load == Some(left[i].tab)
    {
      var i' := if |left| < |users| && i >= Found(users, f) then i + 1 else i;
      assert left[i] == users[i'] && files[1..][j] == files[j + 1];
    }
  }

  /** It is enough that a crontab that keeps its name and modification time keeps its meaning. */
  lemma {:induction false} StampsSuffice(users: seq<UserView>, files: seq<Spooled>)
    requires StampsTell(users, files)
    ensures Coherent(users, files)
    decreases |files|
  {
    if files != [] {
      StampsTellRest(users, files);
      StampsSuffice(Remaining(users, files[0]), files[1..]);
    }
  }

  function FileNames(files: seq<Spooled>): (names: seq<string>)
    ensures |names| == |files| && forall i :: 0 <= i < |names| ==> names[i] == files[i].fname
  {
    seq(|files|, i requires 0 <= i < |files| => files[i].fname)
  }

  lemma RestDistinct(files: seq<Spooled>)
    requires files != [] && Distinct(FileNames(files))
    ensures Distinct(FileNames(files[1..]))
  {
    forall i, j | 0 <= i < j < |files| - 1 ensures FileNames(files[1..])[i] != FileNames(files[1..])[j] {
      assert FileNames(files)[i + 1] != FileNames(files)[j + 1];
    }
  }

  lemma FirstIsOnly(users: seq<UserView>, f: Spooled, i: nat)
    requires Distinct(ViewNames(users)) && i < |users| && users[i].name == f.fname
    ensures Found(users, f) == i
  {
    assert ViewNames(users)[i] == f.fname;
  }

  lemma RemainingDistinct(users: seq<UserView>, f: Spooled)
    requires Distinct(ViewNames(users))
    ensures Distinct(ViewNames(Remaining(users, f)))
  {
    if Usable(f) && Found(users, f) < |users| {
      DistinctWithout(ViewNames(users), Found(users, f));
      assert ViewNames(Remaining(users, f)) == Without(ViewNames(users), Found(users, f));
    }
  }

  lemma OthersRemain(users: seq<UserView>, f: Spooled, i: nat)
    requires i < |users| && users[i].name != f.fname
    ensures users[i] in Remaining(users, f)
  {
    var k := Found(users, f);
    if Usable(f) && k < |users| {
      assert Remaining(users, f)[if i < k then i else i - 1] == users[i];
    }
  }

  lemma StampsTellFirst(users: seq<UserView>, files: seq<Spooled>)
    requires Distinct(ViewNames(users)) && Distinct(FileNames(files)) && files != []
    requires Reused(users, files[0]) ==> files[0].load == Some(users[Found(users, files[0])].tab)
    requires StampsTell(Remaining(users, files[0]), files[1..])
    ensures StampsTell(users, files)
  {
    var f, left := files[0], Remaining(users, files[0]);
    forall i, j | 0 <= i < |users| && 0 <= j < |files| && Usable(files[j])
                  && users[i].name == files[j].fname && users[i].mtime == files[j].mtime
      ensures files[j].load == Some(users[i].tab)
    {
      if j == 0 {
        FirstIsOnly(users, f, i);
      } else {
        assert FileNames(files)[0] != FileNames(files)[j];
        OthersRemain(users, f, i);
        var n :| 0 <= n < |left| && left[n] == users[i];
        assert files[1..][j - 1] == files[j];
      }
    }
  }

  /** With no name twice it is also necessary: the reload is then a full one if and only if the stamps
      tell. */
  lemma {:induction false} StampsDecide(users: seq<UserView>, files: seq<Spooled>)
    requires Distinct(ViewNames(users)) && Distinct(FileNames(files))
    ensures Coherent(users, files) <==> StampsTell(users, files)
    decreases |files|
  {
    if StampsTell(users, files) {
      StampsSuffice(users, files);
    } else if Coherent(users, files) && files != [] {
      RemainingDistinct(users, files[0]);
      RestDistinct(files);
      StampsDecide(Remaining(users, files[0]), files[1..]);
      StampsTellFirst(users, files);
    }
  }

  /** A crontab edited twice within one second keeps its old meaning: modification times count in
      seconds. */
  lemma SameSecondEditIsMissed(f: Spooled, before: Tab)
    requires Usable(f) && f.load.Some? && f.load.value != before
    ensures var users := [UserView(f.fname, f.mtime, before)];
            Reload(users, [f]) == users && Reload(users, [f]) != FullReload([f])
  {
    var users := [UserView(f.fname, f.mtime, before)];
    assert ViewNames(users)[0] == f.fname && Found(users, f) == 0;
    assert Reload(users, [f]) == Added(users, f) + Reload(Remaining(users, f), []);
    assert FullReload([f]) == Loaded(f) + FullReload([]);
    assert Reload(users, [f])[0] == users[0];
    assert FullReload([f])[0].tab == f.load.value;
  }

  // ---------------------------------------------------------------- reloading, in place

  function ViewOf(u: User): UserView {
    UserView(u.name, u.mtime, u.tab)
  }

  ghost function Views(nodes: seq<User>): (views: seq<UserView>)
    ensures |views| == |nodes| && forall i :: 0 <= i < |views| ==> views[i] == ViewOf(nodes[i])
  {
    seq(|nodes|, i requires 0 <= i < |nodes| => ViewOf(nodes[i]))
  }

  /** Both lists are well formed and share no node. */
  ghost predicate Separate(a: CronDb, b: CronDb)
    reads a, a.nodes, b, b.nodes
  {
    && a != b && a.Valid() && b.Valid()
    && Apart(a.nodes, b.nodes)
  }

  ghost predicate Apart(a: seq<User>, b: seq<User>) {
    forall i, j :: 0 <= i < |a| && 0 <= j < |b| ==> a[i] != b[j]
  }

  /** Every node of `before` is now in exactly one place: still on the old list, on the new one, or
      freed. */
  ghost predicate Accounted(before: seq<User>, oldList: seq<User>, newList: seq<User>, freed: seq<User>) {
    && Distinct(freed)
    && (forall u :: u in oldList ==> u in before)
    && (forall u :: u in freed ==> u in before)
    && (forall u :: u in before ==>
          (u in oldList && u !in newList && u !in freed)
          || (u !in oldList && u in newList && u !in freed)
          || (u !in oldList && u !in newList && u in freed))
  }

  lemma ViewsAppend(nodes: seq<User>, u: User)
    ensures Views(nodes + [u]) == Views(nodes) + [ViewOf(u)]
  {}

  lemma ViewsWithout(nodes: seq<User>, k: nat)
    requires k < |nodes|
    ensures Views(Without(nodes, k)) == Without(Views(nodes), k)
  {}

  lemma WithoutMembers(nodes: seq<User>, k: nat)
    requires k < |nodes|
    ensures forall u :: u in nodes ==> u in Without(nodes, k) || u == nodes[k]
    ensures forall u :: u in Without(nodes, k) ==> u in nodes
  {}

  /** What processing the file `f` makes of the two lists `was` (old) and `wasNew` (new). */
  ghost predicate Processed(f: Spooled, was: seq<User>, wasNew: seq<User>, left: seq<User>, now: seq<User>,
                       freed: seq<User>) {
    && Views(now) == Views(wasNew) + Added(Views(was), f)
    && Views(left) == Remaining(Views(was), f)
    && wasNew <= now
    && Accounted(was, left, now, freed)
  }

  lemma StepSkips(f: Spooled, was: seq<User>, now: seq<User>)
    requires Distinct(was) && Apart(now, was) && !Usable(f)
    ensures Processed(f, was, now, was, now, [])
  {}

  lemma StepMoves(f: Spooled, was: seq<User>, now: seq<User>, k: nat)
    requires Distinct(was) && Apart(now, was) && Usable(f)
    requires k == FirstNamed(Names(was), f.fname) < |was| && was[k].mtime == f.mtime
    ensures Processed(f, was, now, Without(was, k), now + [was[k]], [])
  {
    assert Names(was) == ViewNames(Views(was));
    WithoutMembers(was, k);
    ViewsWithout(was, k);
    ViewsAppend(now, was[k]);
  }

  lemma StepReplaces(f: Spooled, was: seq<User>, now: seq<User>, k: nat, added: seq<User>)
    requires Distinct(was) && Apart(now, was) && Apart(added, was) && Usable(f) && Views(added) == Loaded(f)
    requires k == FirstNamed(Names(was), f.fname) < |was| && was[k].mtime != f.mtime
    ensures Processed(f, was, now, Without(was, k), now + added, [was[k]])
  {
    assert Names(was) == ViewNames(Views(was));
    WithoutMembers(was, k);
    ViewsWithout(was, k);
    assert Views(now + added) == Views(now) + Views(added);
  }

  lemma StepLoads(f: Spooled, was: seq<User>, now: seq<User>, added: seq<User>)
    requires Distinct(was) && Apart(now, was) && Apart(added, was) && Usable(f) && Views(added) == Loaded(f)
    requires FirstNamed(Names(was), f.fname) == |was|
    ensures Processed(f, was, now, was, now + added, [])
  {
    assert Names(was) == ViewNames(Views(was));
    assert Views(now + added) == Views(now) + Views(added);
  }

  /** Moves a user to the end of the new list. */
  method MoveUser(newDb: CronDb, oldDb: CronDb, u: User, ghost k: nat)
    requires Separate(newDb, oldDb) && k < |oldDb.nodes| && oldDb.nodes[k] == u
    modifies newDb, newDb.nodes, oldDb, oldDb.nodes
    ensures Separate(newDb, oldDb) && newDb.mtime == old(newDb.mtime) && oldDb.mtime == old(oldDb.mtime)
    ensures newDb.nodes == old(newDb.nodes) + [u] && oldDb.nodes == Without(old(oldDb.nodes), k)
  {
    WithoutMembers(oldDb.nodes, k);
    oldDb.UnlinkUser(u, k);
    newDb.LinkUser(u);
  }

  method DropUser(newDb: CronDb, oldDb: CronDb, u: User, ghost k: nat)
    requires Separate(newDb, oldDb) && k < |oldDb.nodes| && oldDb.nodes[k] == u
    modifies oldDb, oldDb.nodes
    ensures Separate(newDb, oldDb) && oldDb.mtime == old(oldDb.mtime)
    ensures oldDb.nodes == Without(old(oldDb.nodes), k) && u !in oldDb.nodes
  {
    WithoutMembers(oldDb.nodes, k);
    oldDb.UnlinkUser(u, k);
  }

  /** Runs the loader on the text of a file, which gives its entries. */
  method LoadTab(f: Spooled, accounts: map<string, Passwd>) returns (tab: Tab)
    requires FileOk(f, accounts) && f.load.Some?
    ensures tab == f.load.value
  {
    var file := new CrontabFile(f.text);
    ghost var rounds, pos;
    var hang;
    tab, hang, rounds, pos := CrontabLoader.LoadUser(file, f.account, accounts);
    LoaderEnds(f, accounts, rounds, pos, tab);
  }

  lemma LoaderEnds(f: Spooled, accounts: map<string, Passwd>, rounds: seq<CrontabLoader.Round>, pos: nat, tab: Tab)
    requires FileOk(f, accounts) && f.load.Some?
    requires CrontabLoader.Progress(f.text, rounds, pos, tab, f.account, accounts)
    ensures !CrontabLoader.LineHangs(f.text, pos)
    ensures CrontabLoader.AtEnd(f.text, pos) ==> tab == f.load.value
  {
    var whole :| LoadedBy(f, f.load.value, whole, accounts);
    var end: nat :| CrontabLoader.Complete(f.text, whole, end, f.load.value, f.account, accounts);
    CrontabLoader.CompleteNoHang(f.text, rounds, pos, whole, end, f.account, accounts);
    if CrontabLoader.AtEnd(f.text, pos) {
      CrontabLoader.LoadDetermined(f.text, rounds, pos, tab, whole, end, f.load.value, f.account, accounts);
    }
  }

  /** Loads a file, if it can be read, and appends the user that it gives. */
  method AddLoaded(f: Spooled, accounts: map<string, Passwd>, newDb: CronDb, oldDb: CronDb)
    returns (ghost added: seq<User>)
    requires Separate(newDb, oldDb) && FileOk(f, accounts)
    modifies newDb, newDb.nodes
    ensures Separate(newDb, oldDb) && newDb.mtime == old(newDb.mtime)
    ensures newDb.nodes == old(newDb.nodes) + added && Views(added) == Loaded(f) && fresh(added)
  {
    added := [];
    if f.load.Some? {
      var tab := LoadTab(f, accounts);
      added := AppendUser(f, tab, newDb, oldDb);
    }
  }

  method AppendUser(f: Spooled, tab: Tab, newDb: CronDb, oldDb: CronDb) returns (ghost added: seq<User>)
    requires Separate(newDb, oldDb)
    modifies newDb, newDb.nodes
    ensures Separate(newDb, oldDb) && newDb.mtime == old(newDb.mtime)
    ensures newDb.nodes == old(newDb.nodes) + added && Views(added) == [UserView(f.fname, f.mtime, tab)] && fresh(added)
  {
    var v := new User(f.fname, f.mtime, tab);
    newDb.LinkUser(v);
    added := [v];
  }

  /** The branch for a file whose user, if it is on the old list, is out of date. */
  method LoadFile(f: Spooled, accounts: map<string, Passwd>, newDb: CronDb, oldDb: CronDb, u: User?, ghost k: nat)
    returns (ghost freed: seq<User>)
    requires Separate(newDb, oldDb) && Usable(f) && FileOk(f, accounts) && k == FirstNamed(Names(oldDb.nodes), f.fname)
    requires if k < |oldDb.nodes| then u == oldDb.nodes[k] && u.mtime != f.mtime else u == null
    modifies newDb, newDb.nodes, oldDb, oldDb.nodes
    ensures Separate(newDb, oldDb) && newDb.mtime == old(newDb.mtime) && oldDb.mtime == old(oldDb.mtime)
    ensures Processed(f, old(oldDb.nodes), old(newDb.nodes), oldDb.nodes, newDb.nodes, freed)
    ensures forall i :: 0 <= i < |newDb.nodes| ==> newDb.nodes[i] in old(newDb.nodes) || fresh(newDb.nodes[i])
  {
    freed := [];
    ghost var was, now := oldDb.nodes, newDb.nodes;
    if u != null {
      DropUser(newDb, oldDb, u, k);
      freed := [was[k]];
    }
    LoadAnew(f, accounts, newDb, oldDb, was, k, freed);
  }

  /** Loads the file once its user, the `k`-th of `was`, is off the old list. */
  method LoadAnew(f: Spooled, accounts: map<string, Passwd>, newDb: CronDb, oldDb: CronDb, ghost was: seq<User>,
                  ghost k: nat, ghost freed: seq<User>)
    requires Separate(newDb, oldDb) && Usable(f) && FileOk(f, accounts) && k == FirstNamed(Names(was), f.fname)
    requires Distinct(was) && Apart(newDb.nodes, was)
    requires if k < |was| then was[k].mtime != f.mtime && oldDb.nodes == Without(was, k) && freed == [was[k]]
             else oldDb.nodes == was && freed == []
    modifies newDb, newDb.nodes
    ensures Separate(newDb, oldDb) && newDb.mtime == old(newDb.mtime)
    ensures Processed(f, was, old(newDb.nodes), oldDb.nodes, newDb.nodes, freed)
    ensures forall i :: 0 <= i < |newDb.nodes| ==> newDb.nodes[i] in old(newDb.nodes) || fresh(newDb.nodes[i])
  {
    ghost var now := newDb.nodes;
    ghost var left := oldDb.nodes;
    ghost var added := AddLoaded(f, accounts, newDb, oldDb);
    StepAnew(f, was, now, k, added, left, freed);
  }

  lemma StepAnew(f: Spooled, was: seq<User>, now: seq<User>, k: nat, added: seq<User>, left: seq<User>,
                 freed: seq<User>)
    requires Distinct(was) && Apart(now, was) && Apart(added, was) && Usable(f) && Views(added) == Loaded(f)
    requires k == FirstNamed(Names(was), f.fname)
    requires if k < |was| then was[k].mtime != f.mtime && left == Without(was, k) && freed == [was[k]]
             else left == was && freed == []
    ensures Processed(f, was, now, left, now + added, freed)
  {
    if k < |was| {
      StepReplaces(f, was, now, k, added);
    } else {
      StepLoads(f, was, now, added);
    }
  }

  /** The branch for a file whose user is up to date. */
  method KeepUser(f: Spooled, newDb: CronDb, oldDb: CronDb, u: User, ghost k: nat)
    requires Separate(newDb, oldDb) && Usable(f) && k == FirstNamed(Names(oldDb.nodes), f.fname)
    requires k < |oldDb.nodes| && oldDb.nodes[k] == u && u.mtime == f.mtime
    modifies newDb, newDb.nodes, oldDb, oldDb.nodes
    ensures Separate(newDb, oldDb) && newDb.mtime == old(newDb.mtime) && oldDb.mtime == old(oldDb.mtime)
    ensures Processed(f, old(oldDb.nodes), old(newDb.nodes), oldDb.nodes, newDb.nodes, [])
    ensures forall i :: 0 <= i < |newDb.nodes| ==>
              newDb.nodes[i] in old(newDb.nodes) || newDb.nodes[i] in old(oldDb.nodes)
  {
    ghost var was, now := oldDb.nodes, newDb.nodes;
    MoveUser(newDb, oldDb, u, k);
    StepMoves(f, was, now, k);
  }

  /** A crontab file that can be loaded: move the user, replace it, or load it. */
  method ProcessUsable(f: Spooled, accounts: map<string, Passwd>, newDb: CronDb, oldDb: CronDb)
    returns (ghost freed: seq<User>)
    requires Separate(newDb, oldDb) && Usable(f) && FileOk(f, accounts)
    modifies newDb, newDb.nodes, oldDb, oldDb.nodes
    ensures Separate(newDb, oldDb) && newDb.mtime == old(newDb.mtime) && oldDb.mtime == old(oldDb.mtime)
    ensures Processed(f, old(oldDb.nodes), old(newDb.nodes), oldDb.nodes, newDb.nodes, freed)
    ensures forall i :: 0 <= i < |newDb.nodes| ==>
              newDb.nodes[i] in old(newDb.nodes) || newDb.nodes[i] in old(oldDb.nodes) || fresh(newDb.nodes[i])
  {
    freed := [];
    var u, k := oldDb.FindUser(f.fname);
    if u != null && u.mtime == f.mtime {
      KeepUser(f, newDb, oldDb, u, k);
    } else {
      freed := LoadFile(f, accounts, newDb, oldDb, u, k);
    }
  }

  /** One crontab file: move the user, replace it, load it, or pass the file over. */
  method ProcessCrontab(f: Spooled, accounts: map<string, Passwd>, newDb: CronDb, oldDb: CronDb)
    returns (ghost freed: seq<User>)
    requires Separate(newDb, oldDb) && FileOk(f, accounts)
    modifies newDb, newDb.nodes, oldDb, oldDb.nodes
    ensures Separate(newDb, oldDb) && newDb.mtime == old(newDb.mtime) && oldDb.mtime == old(oldDb.mtime)
    ensures Processed(f, old(oldDb.nodes), old(newDb.nodes), oldDb.nodes, newDb.nodes, freed)
    ensures forall i :: 0 <= i < |newDb.nodes| ==>
              newDb.nodes[i] in old(newDb.nodes) || newDb.nodes[i] in old(oldDb.nodes) || fresh(newDb.nodes[i])
  {
    freed := [];
    ghost var was, now := oldDb.nodes, newDb.nodes;
    if (f.fname != SYSTEM && f.account == None) || !f.readable || !f.statable {
      StepSkips(f, was, now);
      return;
    }
    freed := ProcessUsable(f, accounts, newDb, oldDb);
  }

  /** The files that a scan processes: the system crontab if it exists, then the spool directory but
      for names that begin with a dot. */
  predicate Hidden(f: Spooled) {
    f.fname != "" && f.fname[0] == '.'
  }

  function Visible(dir: seq<Spooled>): seq<Spooled> {
    if dir == [] then [] else (if Hidden(dir[0]) then [] else [dir[0]]) + Visible(dir[1..])
  }

  function Scan(sysMtime: int, system: Spooled, dir: seq<Spooled>): seq<Spooled> {
    (if sysMtime != 0 then [system] else []) + Visible(dir)
  }

  lemma {:induction false} VisibleMembers(dir: seq<Spooled>, f: Spooled)
    ensures f in Visible(dir) <==> f in dir && (f.fname == "" || f.fname[0] != '.')
  {
    if dir != [] {
      var rest := Visible(dir[1..]);
      VisibleMembers(dir[1..], f);
      assert Visible(dir) == if Hidden(dir[0]) then rest else [dir[0]] + rest;
      assert f in dir <==> f == dir[0] || f in dir[1..];
    }
  }

  /** What a scan lets through: the system crontab when it exists, and of the spool directory every name that does
      not begin with a dot. */
  lemma ScanMembers(sysMtime: int, system: Spooled, dir: seq<Spooled>, f: Spooled)
    ensures f in Scan(sysMtime, system, dir)
            <==> (sysMtime != 0 && f == system) || (f in dir && (f.fname == "" || f.fname[0] != '.'))
  {
    VisibleMembers(dir, f);
  }

  lemma {:induction false} VisibleJoins(a: seq<Spooled>, b: seq<Spooled>)
    ensures Visible(a + b) == Visible(a) + Visible(b)
    decreases |a|
  {
    if a == [] {
      assert a + b == b;
    } else {
      var first, rest := if Hidden(a[0]) then [] else [a[0]], a[1..];
      assert (a + b)[0] == a[0] && (a + b)[1..] == rest + b;
      VisibleJoins(rest, b);
      assert first + (Visible(rest) + Visible(b)) == (first + Visible(rest)) + Visible(b);
    }
  }

  lemma ScanSpool(system: Spooled, dir: seq<Spooled>)
    ensures Scan(0, system, dir) == Visible(dir)
  {}

  /** The system crontab comes first. */
  lemma ScanJoins(sysMtime: int, system: Spooled, dir: seq<Spooled>)
    ensures Scan(sysMtime, system, dir) == (if sysMtime != 0 then [system] else []) + Scan(0, system, dir)
  {
    ScanSpool(system, dir);
  }

  /** And the directory is gone through in its order. */
  lemma SpoolJoins(system: Spooled, a: seq<Spooled>, b: seq<Spooled>)
    ensures Scan(0, system, a + b) == Scan(0, system, a) + Scan(0, system, b)
  {
    VisibleJoins(a, b);
    ScanSpool(system, a);
    ScanSpool(system, b);
    ScanSpool(system, a + b);
  }

  lemma AccountedTrans(before: seq<User>, old0: seq<User>, new0: seq<User>, freed0: seq<User>,
                       old1: seq<User>, new1: seq<User>, freed1: seq<User>)
    requires Accounted(before, old0, new0, freed0) && Accounted(old0, old1, new1, freed1) && new0 <= new1
    requires forall u :: u in new1 ==> u in new0 || u in old0 || u !in before
    ensures Accounted(before, old1, new1, freed0 + freed1)
  {
    forall i, j | 0 <= i < j < |freed0 + freed1| ensures (freed0 + freed1)[i] != (freed0 + freed1)[j] {
      if i < |freed0| && j >= |freed0| {
        assert freed0[i] in freed0 && freed1[j - |freed0|] in freed1;
      }
    }
    assert forall u :: u in new0 ==> u in new1;
  }

  /** How far a reload has come: `now` is the new list, `left` what remains of the list `before`, and
      with the files `rest` still to be processed the result will be `goal`. */
  ghost predicate UnderWay(before: seq<User>, left: seq<User>, now: seq<User>, freed: seq<User>, rest: seq<Spooled>,
                           goal: seq<UserView>) {
    && Accounted(before, left, now, freed)
    && Views(now) + Reload(Views(left), rest) == goal
  }

  lemma ReloadStep(now: seq<UserView>, left: seq<UserView>, f: Spooled, rest: seq<Spooled>)
    ensures now + Reload(left, [f] + rest) == (now + Added(left, f)) + Reload(Remaining(left, f), rest)
  {
    assert ([f] + rest)[1..] == rest;
  }

  lemma UnderWayStep(before: seq<User>, left: seq<User>, now: seq<User>, freed: seq<User>, f: Spooled,
                     rest: seq<Spooled>, goal: seq<UserView>, left': seq<User>, now': seq<User>, freed': seq<User>)
    requires UnderWay(before, left, now, freed, [f] + rest, goal) && Processed(f, left, now, left', now', freed')
    requires forall u :: u in now' ==> u in now || u in left || u !in before
    ensures UnderWay(before, left', now', freed + freed', rest, goal)
  {
    ReloadStep(Views(now), Views(left), f, rest);
    AccountedTrans(before, left, now, freed, left', now', freed');
  }

  /** `repr` holds the nodes of both lists. */
  ghost predicate NodesIn(newDb: CronDb, oldDb: CronDb, repr: set<User>)
    reads newDb, oldDb
  {
    && (forall i :: 0 <= i < |newDb.nodes| ==> newDb.nodes[i] in repr)
    && (forall i :: 0 <= i < |oldDb.nodes| ==> oldDb.nodes[i] in repr)
  }

  method ProcessWithin(f: Spooled, accounts: map<string, Passwd>, newDb: CronDb, oldDb: CronDb, ghost repr: set<User>)
    returns (ghost freed: seq<User>, ghost repr': set<User>)
    requires FileOk(f, accounts) && Separate(newDb, oldDb) && NodesIn(newDb, oldDb, repr)
    modifies newDb, oldDb, repr
    ensures Separate(newDb, oldDb) && newDb.mtime == old(newDb.mtime)
    ensures NodesIn(newDb, oldDb, repr') && forall o :: o in repr' ==> o in repr || fresh(o)
    ensures Processed(f, old(oldDb.nodes), old(newDb.nodes), oldDb.nodes, newDb.nodes, freed)
    ensures forall u :: u in newDb.nodes ==> u in old(newDb.nodes) || u in old(oldDb.nodes) || u !in repr
  {
    freed := ProcessCrontab(f, accounts, newDb, oldDb);
    repr' := repr + set u | u in newDb.nodes;
  }

  /** One file of a scan. */
  method ReloadOne(f: Spooled, accounts: map<string, Passwd>, newDb: CronDb, oldDb: CronDb, ghost before: seq<User>,
                   ghost freed: seq<User>, ghost rest: seq<Spooled>, ghost goal: seq<UserView>, ghost repr: set<User>)
    returns (ghost freed': seq<User>, ghost repr': set<User>)
    requires FileOk(f, accounts) && Separate(newDb, oldDb) && NodesIn(newDb, oldDb, repr)
             && (forall u :: u in before ==> u in repr)
    requires UnderWay(before, oldDb.nodes, newDb.nodes, freed, [f] + rest, goal)
    modifies newDb, oldDb, repr
    ensures Separate(newDb, oldDb) && newDb.mtime == old(newDb.mtime)
    ensures NodesIn(newDb, oldDb, repr') && repr <= repr' && forall o :: o in repr' ==> o in repr || fresh(o)
    ensures UnderWay(before, oldDb.nodes, newDb.nodes, freed', rest, goal)
  {
    ghost var left, now := oldDb.nodes, newDb.nodes;
    ghost var more;
    more, repr' := ProcessWithin(f, accounts, newDb, oldDb, repr);
    repr' := repr' + repr;
    freed' := freed + more;
    UnderWayStep(before, left, now, freed, f, rest, goal, oldDb.nodes, newDb.nodes, more);
  }

  lemma UnderWayStarts(before: seq<User>, rest: seq<Spooled>)
    requires Distinct(before)
    ensures UnderWay(before, before, [], [], rest, Reload(Views(before), rest))
  {
    assert Views([]) + Reload(Views(before), rest) == Reload(Views(before), rest);
  }

  /** One name of the spool directory. */
  method ReloadShown(f: Spooled, accounts: map<string, Passwd>, newDb: CronDb, oldDb: CronDb, ghost before: seq<User>,
                     ghost freed: seq<User>, ghost rest: seq<Spooled>, ghost goal: seq<UserView>, ghost repr: set<User>)
    returns (ghost freed': seq<User>, ghost repr': set<User>)
    requires (Hidden(f) || FileOk(f, accounts)) && Separate(newDb, oldDb) && NodesIn(newDb, oldDb, repr)
             && (forall u :: u in before ==> u in repr)
    requires UnderWay(before, oldDb.nodes, newDb.nodes, freed, if Hidden(f) then rest else [f] + rest, goal)
    modifies newDb, oldDb, repr
    ensures Separate(newDb, oldDb) && newDb.mtime == old(newDb.mtime)
    ensures NodesIn(newDb, oldDb, repr') && repr <= repr' && forall o :: o in repr' ==> o in repr || fresh(o)
    ensures UnderWay(before, oldDb.nodes, newDb.nodes, freed', rest, goal)
  {
    freed', repr' := freed, repr;
    if !Hidden(f) {
      freed', repr' := ReloadOne(f, accounts, newDb, oldDb, before, freed, rest, goal, repr);
    }
  }

  /** The loop over the spool directory. */
  method ScanDir(newDb: CronDb, oldDb: CronDb, accounts: map<string, Passwd>, dir: seq<Spooled>,
                 ghost before: seq<User>, ghost freed: seq<User>, ghost goal: seq<UserView>, ghost repr: set<User>)
    returns (ghost freed': seq<User>, ghost repr': set<User>)
    requires FilesOk(Visible(dir), accounts) && Separate(newDb, oldDb) && NodesIn(newDb, oldDb, repr)
             && (forall u :: u in before ==> u in repr)
    requires UnderWay(before, oldDb.nodes, newDb.nodes, freed, Visible(dir), goal)
    modifies newDb, oldDb, repr
    ensures Separate(newDb, oldDb) && newDb.mtime == old(newDb.mtime)
    ensures NodesIn(newDb, oldDb, repr') && forall o :: o in repr' ==> o in repr || fresh(o)
    ensures UnderWay(before, oldDb.nodes, newDb.nodes, freed', [], goal)
  {
    freed', repr' := freed, repr;
    var i := 0;
    ghost var rest := Visible(dir);
    assert dir[0..] == dir;
    while i < |dir|
      invariant 0 <= i <= |dir| && rest == Visible(dir[i..]) && FilesOk(rest, accounts)
      invariant Separate(newDb, oldDb) && newDb.mtime == old(newDb.mtime)
      invariant NodesIn(newDb, oldDb, repr') && repr <= repr' && forall o :: o in repr' ==> o in repr || fresh(o)
      invariant UnderWay(before, oldDb.nodes, newDb.nodes, freed', rest, goal)
    {
      ShownStep(dir, i);
      rest := Visible(dir[i + 1..]);
      freed', repr' := ReloadShown(dir[i], accounts, newDb, oldDb, before, freed', rest, goal, repr');
      i := i + 1;
    }
  }

  /** The system crontab, if it exists. */
  method ScanSystem(newDb: CronDb, oldDb: CronDb, accounts: map<string, Passwd>, sysMtime: int, system: Spooled,
                    ghost dir: seq<Spooled>, ghost goal: seq<UserView>, ghost repr: set<User>)
    returns (ghost freed: seq<User>, ghost repr': set<User>)
    requires (sysMtime != 0 ==> FileOk(system, accounts)) && Separate(newDb, oldDb) && newDb.nodes == []
             && NodesIn(newDb, oldDb, repr)
    requires goal == Reload(Views(oldDb.nodes), Scan(sysMtime, system, dir))
    modifies newDb, oldDb, repr
    ensures Separate(newDb, oldDb) && newDb.mtime == old(newDb.mtime)
    ensures NodesIn(newDb, oldDb, repr') && repr <= repr' && forall o :: o in repr' ==> o in repr || fresh(o)
    ensures UnderWay(old(oldDb.nodes), oldDb.nodes, newDb.nodes, freed, Visible(dir), goal)
  {
    freed, repr' := [], repr;
    UnderWayStarts(oldDb.nodes, Scan(sysMtime, system, dir));
    if sysMtime != 0 {
      freed, repr' := ReloadOne(system, accounts, newDb, oldDb, oldDb.nodes, freed, Visible(dir), goal, repr);
    } else {
      assert Scan(sysMtime, system, dir) == Visible(dir);
    }
  }

  /** The scan of `load_database`: the system crontab, then the spool directory. */
  method ScanAll(newDb: CronDb, oldDb: CronDb, accounts: map<string, Passwd>, sysMtime: int, system: Spooled,
                 dir: seq<Spooled>, ghost repr: set<User>)
    returns (ghost freed: seq<User>, ghost repr': set<User>)
    requires FilesOk(Scan(sysMtime, system, dir), accounts) && Separate(newDb, oldDb) && newDb.nodes == []
    requires NodesIn(newDb, oldDb, repr)
    modifies newDb, oldDb, repr
    ensures Separate(newDb, oldDb) && newDb.mtime == old(newDb.mtime)
    ensures NodesIn(newDb, oldDb, repr') && forall o :: o in repr' ==> o in repr || fresh(o)
    ensures Accounted(old(oldDb.nodes), oldDb.nodes, newDb.nodes, freed)
    ensures Views(newDb.nodes) == Reload(old(Views(oldDb.nodes)), Scan(sysMtime, system, dir))
  {
    ghost var before := oldDb.nodes;
    ghost var goal := Reload(Views(before), Scan(sysMtime, system, dir));
    freed, repr' := ScanSystem(newDb, oldDb, accounts, sysMtime, system, dir, goal, repr);
    freed, repr' := ScanDir(newDb, oldDb, accounts, dir, before, freed, goal, repr');
    UnderWayEnds(before, oldDb.nodes, newDb.nodes, freed, goal);
  }

  lemma UnderWayEnds(before: seq<User>, left: seq<User>, now: seq<User>, freed: seq<User>, goal: seq<UserView>)
    requires UnderWay(before, left, now, freed, [], goal)
    ensures Accounted(before, left, now, freed) && Views(now) == goal
  {
    assert Views(now) + Reload(Views(left), []) == Views(now);
  }

  lemma ShownStep(dir: seq<Spooled>, i: nat)
    requires i < |dir|
    ensures Visible(dir[i..]) == (if Hidden(dir[i]) then Visible(dir[i + 1..]) else [dir[i]] + Visible(dir[i + 1..]))
  {
    assert dir[i..][1..] == dir[i + 1..];
  }

  /** Unlinks and frees the first user of the old list. */
  method FreeFirst(newDb: CronDb, oldDb: CronDb, u: User) returns (nu: User?)
    requires Separate(newDb, oldDb) && u == oldDb.head
    modifies oldDb, oldDb.nodes
    ensures Separate(newDb, oldDb) && nu == oldDb.head && oldDb.mtime == old(oldDb.mtime)
    ensures old(oldDb.nodes) != [] && oldDb.nodes == old(oldDb.nodes)[1..]
  {
    nu := u.next;
    ghost var was := oldDb.nodes;
    DropUser(newDb, oldDb, u, 0);
    assert oldDb.nodes == was[1..];
  }

  /** Unlinks and frees whatever is left on the old list. */
  method FreeAll(newDb: CronDb, oldDb: CronDb) returns (ghost freed: seq<User>)
    requires Separate(newDb, oldDb)
    modifies oldDb, oldDb.nodes
    ensures Separate(newDb, oldDb) && oldDb.nodes == [] && freed == old(oldDb.nodes)
  {
    freed := oldDb.nodes;
    ghost var k := 0;
    var u := oldDb.head;
    while u != null
      invariant Separate(newDb, oldDb) && 0 <= k <= |freed| && oldDb.nodes == freed[k..] && u == oldDb.head
      invariant freed == old(oldDb.nodes)
      decreases |freed| - k
    {
      u := FreeFirst(newDb, oldDb, u);
      k := k + 1;
    }
  }

  /** The new list is built and what is left of the old one freed. */
  method Rebuild(newDb: CronDb, oldDb: CronDb, accounts: map<string, Passwd>, sysMtime: int, system: Spooled,
                 dir: seq<Spooled>, ghost repr: set<User>)
    returns (ghost freed: seq<User>, ghost repr': set<User>)
    requires FilesOk(Scan(sysMtime, system, dir), accounts) && Separate(newDb, oldDb) && newDb.nodes == []
    requires NodesIn(newDb, oldDb, repr)
    modifies newDb, oldDb, repr
    ensures newDb.Valid() && newDb.mtime == old(newDb.mtime)
    ensures NodesIn(newDb, oldDb, repr') && forall o :: o in repr' ==> o in repr || fresh(o)
    ensures Accounted(old(oldDb.nodes), [], newDb.nodes, freed)
    ensures Views(newDb.nodes) == Reload(old(Views(oldDb.nodes)), Scan(sysMtime, system, dir))
  {
    ghost var before := oldDb.nodes;
    freed, repr' := ScanAll(newDb, oldDb, accounts, sysMtime, system, dir, repr);
    ghost var left := oldDb.nodes;
    ghost var more := FreeAll(newDb, oldDb);
    AccountedFree(before, left, newDb.nodes, freed);
    freed := freed + more;
  }

  /** Rebuilds the database unless its time stamp is that of the newer of the two directories. Then
      the new list is what an incremental reload of the scanned files gives, and every old node was
      moved to it or freed. */
  method LoadDatabase(db: CronDb, spoolMtime: int, sysMtime: int, system: Spooled, dir: seq<Spooled>,
                      accounts: map<string, Passwd>)
    returns (ghost freed: seq<User>)
    requires db.Valid() && FilesOk(Scan(sysMtime, system, dir), accounts)
    modifies db, db.nodes
    ensures db.Valid() && db.mtime == Max(spoolMtime, sysMtime)
    ensures if old(db.mtime) == Max(spoolMtime, sysMtime)
            then db.nodes == old(db.nodes) && freed == []
            else Views(db.nodes) == Reload(old(Views(db.nodes)), Scan(sysMtime, system, dir))
                 && Accounted(old(db.nodes), [], db.nodes, freed)
                 && (Views(db.nodes) == FullReload(Scan(sysMtime, system, dir)) <==>
                     Coherent(old(Views(db.nodes)), Scan(sysMtime, system, dir)))
    ensures forall i :: 0 <= i < |db.nodes| ==> db.nodes[i] in old(db.nodes) || fresh(db.nodes[i])
  {
    ReloadIsFullReload(Views(db.nodes), Scan(sysMtime, system, dir));
    freed := [];
    if db.mtime == Max(spoolMtime, sysMtime) {
      return;
    }
    var newDb := new CronDb(Max(spoolMtime, sysMtime));
    ghost var repr;
    freed, repr := Rebuild(newDb, db, accounts, sysMtime, system, dir, set u | u in db.nodes);
    Overwrite(db, newDb);
  }

  /** The old control block becomes a copy of the new one. */
  method Overwrite(db: CronDb, newDb: CronDb)
    requires newDb.Valid()
    modifies db
    ensures db.Valid() && db.nodes == newDb.nodes && db.mtime == newDb.mtime
  {
    db.head, db.tail, db.mtime, db.nodes := newDb.head, newDb.tail, newDb.mtime, newDb.nodes;
  }

  lemma AccountedFree(before: seq<User>, left: seq<User>, now: seq<User>, freed: seq<User>)
    requires Accounted(before, left, now, freed) && Distinct(left)
    ensures Accounted(before, [], now, freed + left)
  {
    forall i, j | 0 <= i < j < |freed + left| ensures (freed + left)[i] != (freed + left)[j] {
      if i < |freed| && j >= |freed| {
        assert freed[i] in freed && left[j - |freed|] in left;
      }
    }
  }
}
