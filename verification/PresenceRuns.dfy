/** What holds after every run of sightings: durations add up, the time credited to a user is time
    covered by the sightings, and the last arrival is the start of the visit that goes on. */
module PresenceRuns {
  import opened Common
  import opened Presence

  // ---------------------------------------------------------------- conservation

  function SumOf<K>(m: map<K, int>, keys: seq<K>): int {
    if keys == [] then 0 else SumOf(m, keys[..|keys| - 1]) + Get(m, keys[|keys| - 1], 0)
  }

  lemma {:induction false} SumIncr<K>(m: map<K, int>, keys: seq<K>, key: K, amount: int)
    requires Distinct(keys)
    ensures SumOf(Incr(m, key, amount), keys) == SumOf(m, keys) + (if key in keys then amount else 0)
  {
    if keys != [] {
      var k := |keys| - 1;
      SumIncr(m, keys[..k], key, amount);
      if keys[k] == key {
        assert key !in keys[..k];
      }
    }
  }

  lemma {:induction false} SumEmpty<K>(keys: seq<K>)
    ensures SumOf(map[], keys) == 0
  {
    if keys != [] {
      SumEmpty(keys[..|keys| - 1]);
    }
  }

  function UserKeys(date: string, mall: int, shop: int, users: seq<int>): (keys: seq<UserKey>)
    ensures |keys| == |users| && forall i :: 0 <= i < |keys| ==> keys[i] == UserKey(date, mall, shop, users[i])
  {
    seq(|users|, i requires 0 <= i < |users| => UserKey(date, mall, shop, users[i]))
  }

  function ShopKeys(date: string, mall: int, shops: seq<int>): (keys: seq<ShopKey>)
    ensures |keys| == |shops| && forall i :: 0 <= i < |keys| ==> keys[i] == ShopKey(date, mall, shops[i])
  {
    seq(|shops|, i requires 0 <= i < |shops| => ShopKey(date, mall, shops[i]))
  }

  lemma UserKeyIn(date: string, mall: int, shop: int, users: seq<int>, x: Sighting)
    ensures UserKey(x.date, x.mall, x.shop, x.user) in UserKeys(date, mall, shop, users) <==>
            x.date == date && x.mall == mall && x.shop == shop && x.user in users
  {
    if x.date == date && x.mall == mall && x.shop == shop && x.user in users {
      var i :| 0 <= i < |users| && users[i] == x.user;
      assert UserKeys(date, mall, shop, users)[i] == UserKey(x.date, x.mall, x.shop, x.user);
    }
  }

  lemma ShopKeyIn(date: string, mall: int, shops: seq<int>, x: Sighting)
    ensures ShopKey(x.date, x.mall, x.shop) in ShopKeys(date, mall, shops) <==>
            x.date == date && x.mall == mall && x.shop in shops
  {
    if x.date == date && x.mall == mall && x.shop in shops {
      var i :| 0 <= i < |shops| && shops[i] == x.shop;
      assert ShopKeys(date, mall, shops)[i] == ShopKey(x.date, x.mall, x.shop);
    }
  }

  /** On each date a shop's total is the sum over its users. */
  lemma {:induction false} ShopTimeIsSum(xs: seq<Sighting>, g: Gaps, date: string, mall: int, shop: int,
                                         users: seq<int>)
    requires Distinct(users)
    requires forall x :: x in xs && x.date == date && x.mall == mall && x.shop == shop ==> x.user in users
    ensures Get(AfterAll(xs, g).shopTime, ShopKey(date, mall, shop), 0) ==
            SumOf(AfterAll(xs, g).userTime, UserKeys(date, mall, shop, users))
  {
    var keys := UserKeys(date, mall, shop, users);
    if xs == [] {
      SumEmpty(keys);
    } else {
      var k := |xs| - 1;
      var x, s := xs[k], AfterAll(xs[..k], g);
      ShopTimeIsSum(xs[..k], g, date, mall, shop, users);
      var credit := Credit(x.now - Get(s.lastTime, PlaceKey(x.mall, x.shop, x.mac), 0), g);
      SumIncr(s.userTime, keys, UserKey(x.date, x.mall, x.shop, x.user), credit);
      UserKeyIn(date, mall, shop, users, x);
    }
  }

  /** On each date a mall's total is the sum over its shops. */
  lemma {:induction false} MallTimeIsSum(xs: seq<Sighting>, g: Gaps, date: string, mall: int, shops: seq<int>)
    requires Distinct(shops)
    requires forall x :: x in xs && x.date == date && x.mall == mall ==> x.shop in shops
    ensures Get(AfterAll(xs, g).mallTime, MallKey(date, mall), 0) ==
            SumOf(AfterAll(xs, g).shopTime, ShopKeys(date, mall, shops))
  {
    var keys := ShopKeys(date, mall, shops);
    if xs == [] {
      SumEmpty(keys);
    } else {
      var k := |xs| - 1;
      var x, s := xs[k], AfterAll(xs[..k], g);
      MallTimeIsSum(xs[..k], g, date, mall, shops);
      var credit := Credit(x.now - Get(s.lastTime, PlaceKey(x.mall, x.shop, x.mac), 0), g);
      SumIncr(s.shopTime, keys, ShopKey(x.date, x.mall, x.shop), credit);
      ShopKeyIn(date, mall, shops, x);
    }
  }

  // ---------------------------------------------------------------- one device in one shop

  /** A user in a shop, seen by one device. */
  datatype Guest = Guest(mall: int, shop: int, user: int, mac: nat)

  predicate IsOf(x: Sighting, who: Guest) {
    x.mall == who.mall && x.shop == who.shop && x.mac == who.mac
  }

  /** In this shop the user has this device and no other, and nobody else has it. */
  ghost predicate Paired(xs: seq<Sighting>, who: Guest) {
    forall i :: 0 <= i < |xs| && xs[i].mall == who.mall && xs[i].shop == who.shop ==>
      (xs[i].user == who.user <==> xs[i].mac == who.mac)
  }

  function Times(xs: seq<Sighting>, who: Guest): seq<int> {
    if xs == [] then []
    else Times(xs[..|xs| - 1], who) + (if IsOf(xs[|xs| - 1], who) then [xs[|xs| - 1].now] else [])
  }

  lemma TimesGrow(xs: seq<Sighting>, who: Guest)
    requires xs != []
    ensures var ts := Times(xs[..|xs| - 1], who);
            Times(xs, who) == if IsOf(xs[|xs| - 1], who) then ts + [xs[|xs| - 1].now] else ts
  {}

  /** The time before any sighting is 0. */
  function LastOf(ts: seq<int>): int {
    if ts == [] then 0 else ts[|ts| - 1]
  }

  ghost predicate Ordered(ts: seq<int>) {
    (ts != [] ==> ts[0] >= 0) && forall i, j :: 0 <= i <= j < |ts| ==> ts[i] <= ts[j]
  }

  function LastGap(ts: seq<int>): int
    requires ts != []
  {
    ts[|ts| - 1] - LastOf(ts[..|ts| - 1])
  }

  function Credited(ts: seq<int>, g: Gaps): int {
    if ts == [] then 0
    else Credited(ts[..|ts| - 1], g) + Credit(LastGap(ts), g)
  }

  lemma {:induction false} LastTime(xs: seq<Sighting>, g: Gaps, who: Guest)
    ensures Get(AfterAll(xs, g).lastTime, PlaceKey(who.mall, who.shop, who.mac), 0) == LastOf(Times(xs, who))
  {
    if xs != [] {
      LastTime(xs[..|xs| - 1], g, who);
    }
  }

  function DateKeys(dates: seq<string>, who: Guest): (keys: seq<UserKey>)
    ensures |keys| == |dates| && forall i :: 0 <= i < |keys| ==>
            keys[i] == UserKey(dates[i], who.mall, who.shop, who.user)
  {
    seq(|dates|, i requires 0 <= i < |dates| => UserKey(dates[i], who.mall, who.shop, who.user))
  }

  lemma DateKeyIn(dates: seq<string>, who: Guest, x: Sighting)
    ensures UserKey(x.date, x.mall, x.shop, x.user) in DateKeys(dates, who) <==>
            x.mall == who.mall && x.shop == who.shop && x.user == who.user && x.date in dates
  {
    if x.mall == who.mall && x.shop == who.shop && x.user == who.user && x.date in dates {
      var i :| 0 <= i < |dates| && dates[i] == x.date;
      assert DateKeys(dates, who)[i] == UserKey(x.date, x.mall, x.shop, x.user);
    }
  }

  /** What a sighting credits, given what the store holds. */
  function CreditAt(s: Store, x: Sighting, g: Gaps): int {
    Credit(x.now - Get(s.lastTime, PlaceKey(x.mall, x.shop, x.mac), 0), g)
  }

  lemma UserTimeStep(s: Store, x: Sighting, g: Gaps, who: Guest, dates: seq<string>)
    requires Distinct(dates) && x.date in dates
    ensures SumOf(Sighted(s, x, g).userTime, DateKeys(dates, who)) ==
            SumOf(s.userTime, DateKeys(dates, who)) +
            (if x.mall == who.mall && x.shop == who.shop && x.user == who.user then CreditAt(s, x, g) else 0)
  {
    SumIncr(s.userTime, DateKeys(dates, who), UserKey(x.date, x.mall, x.shop, x.user), CreditAt(s, x, g));
    DateKeyIn(dates, who, x);
  }

  lemma CreditedStep(xs: seq<Sighting>, x: Sighting, g: Gaps, who: Guest)
    ensures Credited(Times(xs + [x], who), g) ==
            Credited(Times(xs, who), g) + (if IsOf(x, who) then CreditAt(AfterAll(xs, g), x, g) else 0)
  {
    assert (xs + [x])[..|xs|] == xs;
    TimesGrow(xs + [x], who);
    if IsOf(x, who) {
      LastTime(xs, g, who);
      CreditedGrows(Times(xs, who), x.now, g);
      assert PlaceKey(x.mall, x.shop, x.mac) == PlaceKey(who.mall, who.shop, who.mac);
    }
  }

  lemma UserTimeOneMore(before: seq<Sighting>, x: Sighting, g: Gaps, who: Guest, dates: seq<string>)
    requires Paired(before + [x], who) && Distinct(dates) && x.date in dates
    requires SumOf(AfterAll(before, g).userTime, DateKeys(dates, who)) == Credited(Times(before, who), g)
    ensures SumOf(AfterAll(before + [x], g).userTime, DateKeys(dates, who)) == Credited(Times(before + [x], who), g)
  {
    assert (before + [x])[|before|] == x;
    UserTimeStep(AfterAll(before, g), x, g, who, dates);
    CreditedStep(before, x, g, who);
    AfterLast(before, x, g);
  }

  /** What is stored for the user over all dates is what the sightings of the device credit, whatever
      other sightings come between. */
  lemma {:induction false} UserTimeIsCredited(xs: seq<Sighting>, g: Gaps, who: Guest, dates: seq<string>)
    requires Paired(xs, who) && Distinct(dates)
    requires forall x :: x in xs ==> x.date in dates
    ensures SumOf(AfterAll(xs, g).userTime, DateKeys(dates, who)) == Credited(Times(xs, who), g)
  {
    if xs == [] {
      SumEmpty(DateKeys(dates, who));
    } else {
      var before, x := xs[..|xs| - 1], xs[|xs| - 1];
      assert before + [x] == xs;
      UserTimeIsCredited(before, g, who, dates);
      UserTimeOneMore(before, x, g, who, dates);
    }
  }

  lemma CreditedGrows(ts: seq<int>, t: int, g: Gaps)
    ensures Credited(ts + [t], g) == Credited(ts, g) + Credit(t - LastOf(ts), g)
  {
    assert (ts + [t])[..|ts|] == ts;
  }

  // ---------------------------------------------------------------- credited time is covered time

  /** The seconds after `a` up to `b`. */
  function Interval(a: int, b: int): (r: set<int>)
    ensures forall s :: s in r <==> a < s <= b
    ensures |r| == Max(0, b - a)
    decreases b - a
  {
    if b <= a then {} else Interval(a, b - 1) + {b}
  }

  /** The seconds of the union of the windows `(t - G, t]`, from the first second of time on. */
  function Covered(ts: seq<int>, gap: int): set<int> {
    if ts == [] then {}
    else Covered(ts[..|ts| - 1], gap) + Interval(Max(0, ts[|ts| - 1] - gap), ts[|ts| - 1])
  }

  lemma {:induction false} CoveredUntil(ts: seq<int>, gap: int)
    requires Ordered(ts)
    ensures forall s :: s in Covered(ts, gap) ==> 0 < s <= LastOf(ts)
  {
    if ts != [] {
      CoveredUntil(ts[..|ts| - 1], gap);
    }
  }

  /** Of the last window only what comes after the last time before adds anything. */
  lemma CoveredAnew(ts: seq<int>, gap: int)
    requires Ordered(ts) && ts != [] && gap >= 0
    ensures var before, t := ts[..|ts| - 1], ts[|ts| - 1];
            Covered(ts, gap) == Covered(before, gap) + Interval(Max(LastOf(before), t - gap), t)
  {
    var before, t := ts[..|ts| - 1], ts[|ts| - 1];
    var last := LastOf(before);
    forall s | Max(0, t - gap) < s <= last ensures s in Covered(before, gap) {
      assert s in Interval(Max(0, last - gap), last);
    }
  }

  lemma DisjointSize(a: set<int>, b: set<int>)
    requires a !! b
    ensures |a + b| == |a| + |b|
  {}

  lemma CoveredGrows(ts: seq<int>, gap: int)
    requires Ordered(ts) && ts != [] && gap >= 0
    ensures LastGap(ts) >= 0 && |Covered(ts, gap)| == |Covered(ts[..|ts| - 1], gap)| + Min(LastGap(ts), gap)
  {
    var before, t := ts[..|ts| - 1], ts[|ts| - 1];
    CoveredUntil(before, gap);
    CoveredAnew(ts, gap);
    DisjointSize(Covered(before, gap), Interval(Max(LastOf(before), t - gap), t));
  }

  /** Whether the conversion of the gap to a C int does no harm. */
  predicate GapFits(gap: int, g: Gaps) {
    gap % 0x1_0000_0000 < 0x8000_0000 && gap % 0x1_0000_0000 >= Min(gap, g.duration)
  }

  lemma CreditIsClamp(gap: int, g: Gaps)
    requires gap >= 0 && GapsOk(g)
    ensures Credit(gap, g) <= Min(gap, g.duration)
    ensures Credit(gap, g) == Min(gap, g.duration) <==> GapFits(gap, g)
  {
    var r := gap % 0x1_0000_0000;
    assert 0 <= r <= gap && Int32(gap) == if r < 0x8000_0000 then r else r - 0x1_0000_0000;
  }

  predicate AllFit(ts: seq<int>, g: Gaps) {
    ts == [] || (AllFit(ts[..|ts| - 1], g) && GapFits(LastGap(ts), g))
  }

  lemma SumsAgree(a: int, b: int, allFit: bool, c: int, d: int, fits: bool)
    requires a <= b && (a == b <==> allFit) && c <= d && (c == d <==> fits)
    ensures a + c <= b + d && (a + c == b + d <==> allFit && fits)
  {}

  lemma {:induction false} CreditedIsAtMostCovered(ts: seq<int>, g: Gaps)
    requires Ordered(ts) && GapsOk(g)
    ensures Credited(ts, g) <= |Covered(ts, g.duration)|
    ensures Credited(ts, g) == |Covered(ts, g.duration)| <==> AllFit(ts, g)
  {
    if ts != [] {
      var before, gap := ts[..|ts| - 1], LastGap(ts);
      CreditedIsAtMostCovered(before, g);
      CoveredGrows(ts, g.duration);
      CreditIsClamp(gap, g);
      SumsAgree(Credited(before, g), |Covered(before, g.duration)|, AllFit(before, g),
                Credit(gap, g), Min(gap, g.duration), GapFits(gap, g));
    }
  }

  /** Credited time is covered time: over all dates the user is credited the number of seconds that
      the windows of the sightings cover together, if and only if no gap overflows a C int. */
  lemma CreditedTimeIsCovered(xs: seq<Sighting>, g: Gaps, who: Guest, dates: seq<string>)
    requires GapsOk(g) && Paired(xs, who) && Ordered(Times(xs, who))
    requires Distinct(dates) && forall x :: x in xs ==> x.date in dates
    ensures var ts := Times(xs, who);
            var credited := SumOf(AfterAll(xs, g).userTime, DateKeys(dates, who));
            && credited <= |Covered(ts, g.duration)|
            && (credited == |Covered(ts, g.duration)| <==> AllFit(ts, g))
            && (ts != [] ==> credited <= g.duration + (LastOf(ts) - ts[0]))
  {
    var ts := Times(xs, who);
    UserTimeIsCredited(xs, g, who, dates);
    CreditedIsAtMostCovered(ts, g);
    if ts != [] {
      CoveredSpan(ts, g.duration);
    }
  }

  lemma {:induction false} CoveredFrom(ts: seq<int>, gap: int)
    requires Ordered(ts) && ts != [] && gap >= 0
    ensures forall s :: s in Covered(ts, gap) ==> ts[0] - gap < s <= LastOf(ts)
  {
    if |ts| > 1 {
      CoveredFrom(ts[..|ts| - 1], gap);
    }
  }

  lemma CoveredSpan(ts: seq<int>, gap: int)
    requires Ordered(ts) && ts != [] && gap >= 0
    ensures |Covered(ts, gap)| <= gap + (LastOf(ts) - ts[0])
  {
    CoveredFrom(ts, gap);
    Subset(Covered(ts, gap), Interval(ts[0] - gap, LastOf(ts)));
  }

  lemma Subset(a: set<int>, b: set<int>)
    requires a <= b
    ensures |a| <= |b|
  {
    assert b == a + (b - a);
  }

  /** From January 2038 on, the first sighting of a user takes time away: the gap since 0 no longer
      fits. */
  lemma FirstSightingAfter2038(t: int, g: Gaps)
    requires GapsOk(g) && 0x8000_0000 <= t < 0x1_0000_0000
    ensures Credited([t], g) == t - 0x1_0000_0000 < 0
    ensures !AllFit([t], g)
  {
    assert [t][..0] == [];
    assert Credited([t], g) == Credited([], g) + Credit(t - 0, g);
    assert AllFit([t], g) <==> AllFit([], g) && GapFits(t - 0, g);
  }

  // ---------------------------------------------------------------- visits

  /** The latest arrival of a user over both kinds of membership. */
  function Arrival(s: Store, who: Guest): int {
    Max(Get(s.arrival, ArriveKey(true, who.mall, who.shop, who.user), 0),
        Get(s.arrival, ArriveKey(false, who.mall, who.shop, who.user), 0))
  }

  /** The last sighting that came after a long gap. */
  function VisitStart(ts: seq<int>, gap: int): int {
    if ts == [] then 0
    else if ts[|ts| - 1] - LastOf(ts[..|ts| - 1]) > gap then ts[|ts| - 1]
    else VisitStart(ts[..|ts| - 1], gap)
  }

  lemma {:induction false} VisitStartUntil(ts: seq<int>, gap: int)
    requires Ordered(ts)
    ensures 0 <= VisitStart(ts, gap) <= LastOf(ts)
  {
    if ts != [] {
      VisitStartUntil(ts[..|ts| - 1], gap);
    }
  }

  predicate Arrives(x: Sighting, who: Guest, last: int, g: Gaps) {
    x.mall == who.mall && x.shop == who.shop && x.user == who.user && x.now - last > g.inShop
  }

  lemma ArrivalStep(s: Store, x: Sighting, g: Gaps, who: Guest)
    requires var last := Get(s.lastTime, PlaceKey(x.mall, x.shop, x.mac), 0);
             Arrives(x, who, last, g) ==> x.now >= Arrival(s, who)
    ensures var last := Get(s.lastTime, PlaceKey(x.mall, x.shop, x.mac), 0);
            Arrival(Sighted(s, x, g), who) == if Arrives(x, who, last, g) then x.now else Arrival(s, who)
  {
    var now, key := Sighted(s, x, g).arrival, ArriveKey(x.vip, x.mall, x.shop, x.user);
    var member, other := ArriveKey(true, who.mall, who.shop, who.user), ArriveKey(false, who.mall, who.shop, who.user);
    assert now == s.arrival || now == s.arrival[key := x.now];
    assert Get(now, member, 0) == Get(s.arrival, member, 0) || key == member;
    assert Get(now, other, 0) == Get(s.arrival, other, 0) || key == other;
  }

  lemma OrderedPrefix(ts: seq<int>, t: int)
    requires Ordered(ts + [t])
    ensures Ordered(ts) && LastOf(ts) <= t && t >= 0
  {
    var all := ts + [t];
    forall i, j | 0 <= i <= j < |ts| ensures ts[i] <= ts[j] {
      assert all[i] <= all[j];
    }
    assert all[0] <= all[|ts|];
    if ts != [] {
      assert all[0] == ts[0] && all[|ts| - 1] <= all[|ts|];
    }
  }

  lemma VisitStartGrows(ts: seq<int>, t: int, gap: int)
    ensures VisitStart(ts + [t], gap) == if t - LastOf(ts) > gap then t else VisitStart(ts, gap)
  {
    assert (ts + [t])[..|ts|] == ts;
  }

  lemma {:induction false} ArrivalIsVisitStart(xs: seq<Sighting>, g: Gaps, who: Guest)
    requires GapsOk(g) && Paired(xs, who) && Ordered(Times(xs, who))
    ensures Arrival(AfterAll(xs, g), who) == VisitStart(Times(xs, who), g.inShop)
  {
    if xs != [] {
      var k := |xs| - 1;
      var x, ts := xs[k], Times(xs[..k], who);
      TimesGrow(xs, who);
      if IsOf(x, who) {
        OrderedPrefix(ts, x.now);
        VisitStartGrows(ts, x.now, g.inShop);
      }
      ArrivalIsVisitStart(xs[..k], g, who);
      LastTime(xs[..k], g, who);
      VisitStartUntil(ts, g.inShop);
      ArrivalStep(AfterAll(xs[..k], g), x, g, who);
    }
  }

  /** The visit that goes on starts at a sighting that is the first or comes after a long gap, and
      has no long gap since. */
  ghost predicate VisitFrom(ts: seq<int>, k: nat, gap: int) {
    && k < |ts| && (k > 0 ==> ts[k] - ts[k - 1] > gap)
    && forall j :: k < j < |ts| ==> ts[j] - ts[j - 1] <= gap
  }

  lemma {:induction false} VisitStartIsVisit(ts: seq<int>, gap: int) returns (k: nat)
    requires ts != [] && ts[0] > gap
    ensures VisitFrom(ts, k, gap) && VisitStart(ts, gap) == ts[k]
  {
    var n := |ts| - 1;
    if ts[n] - LastOf(ts[..n]) > gap {
      k := n;
    } else {
      k := VisitStartIsVisit(ts[..n], gap);
    }
  }

  /** Sessionization: the latest stored arrival is the start of the visit that goes on. */
  lemma LatestArrivalIsVisit(xs: seq<Sighting>, g: Gaps, who: Guest) returns (k: nat)
    requires GapsOk(g) && Paired(xs, who) && Ordered(Times(xs, who))
    requires Times(xs, who) != [] && Times(xs, who)[0] > g.inShop
    ensures VisitFrom(Times(xs, who), k, g.inShop) && Arrival(AfterAll(xs, g), who) == Times(xs, who)[k]
  {
    ArrivalIsVisitStart(xs, g, who);
    k := VisitStartIsVisit(Times(xs, who), g.inShop);
  }

  /** Sighting `i` of the device opens a visit: it comes after a long gap, or a long time after 0. */
  ghost predicate Opens(xs: seq<Sighting>, i: nat, who: Guest, vip: bool, gap: int)
    requires i < |xs|
  {
    IsOf(xs[i], who) && xs[i].vip == vip && xs[i].now - LastOf(Times(xs[..i], who)) > gap
  }

  lemma PairedPrefix(xs: seq<Sighting>, k: nat, who: Guest)
    requires Paired(xs, who) && k <= |xs|
    ensures Paired(xs[..k], who)
  {
    forall i | 0 <= i < k && xs[..k][i].mall == who.mall && xs[..k][i].shop == who.shop
      ensures xs[..k][i].user == who.user <==> xs[..k][i].mac == who.mac
    {
      assert xs[..k][i] == xs[i];
    }
  }

  lemma ArrivalOfKindStep(s: Store, x: Sighting, g: Gaps, who: Guest, vip: bool, last: int)
    requires last == Get(s.lastTime, PlaceKey(x.mall, x.shop, x.mac), 0)
    ensures var key := ArriveKey(vip, who.mall, who.shop, who.user);
            Get(Sighted(s, x, g).arrival, key, 0) ==
            if Arrives(x, who, last, g) && x.vip == vip then x.now else Get(s.arrival, key, 0)
  {
    var key := ArriveKey(vip, who.mall, who.shop, who.user);
    assert Arrives(x, who, last, g) && x.vip == vip <==>
           key == ArriveKey(x.vip, x.mall, x.shop, x.user) && x.now - last > g.inShop;
  }

  lemma ArrivesIfOpens(xs: seq<Sighting>, k: nat, g: Gaps, who: Guest, vip: bool, last: int)
    requires Paired(xs, who) && k == |xs| - 1
    requires last == Get(AfterAll(xs[..k], g).lastTime, PlaceKey(xs[k].mall, xs[k].shop, xs[k].mac), 0)
    ensures Arrives(xs[k], who, last, g) && xs[k].vip == vip <==> Opens(xs, k, who, vip, g.inShop)
  {
    if xs[k].mall == who.mall && xs[k].shop == who.shop && xs[k].mac == who.mac {
      LastTime(xs[..k], g, who);
    }
  }

  lemma OpensBefore(xs: seq<Sighting>, m: nat, i: nat, who: Guest, vip: bool, gap: int)
    requires i < m <= |xs|
    ensures Opens(xs[..m], i, who, vip, gap) <==> Opens(xs, i, who, vip, gap)
  {
    assert xs[..m][..i] == xs[..i];
  }

  /** Members and others are kept apart: what is stored as the arrival of either kind is the last sighting of that
      kind that opened a visit, or 0 if there is none. */
  lemma {:induction false} ArrivalOfKind(xs: seq<Sighting>, g: Gaps, who: Guest, vip: bool) returns (k: int)
    requires Paired(xs, who)
    ensures -1 <= k < |xs| && (k >= 0 ==> Opens(xs, k, who, vip, g.inShop))
    ensures forall i :: k < i < |xs| ==> !Opens(xs, i, who, vip, g.inShop)
    ensures Get(AfterAll(xs, g).arrival, ArriveKey(vip, who.mall, who.shop, who.user), 0) ==
            if k == -1 then 0 else xs[k].now
  {
    k := -1;
    if xs != [] {
      var m := |xs| - 1;
      var s, x := AfterAll(xs[..m], g), xs[m];
      var last := Get(s.lastTime, PlaceKey(x.mall, x.shop, x.mac), 0);
      PairedPrefix(xs, m, who);
      k := ArrivalOfKind(xs[..m], g, who, vip);
      ArrivalOfKindStep(s, x, g, who, vip, last);
      ArrivesIfOpens(xs, m, g, who, vip, last);
      forall i | 0 <= i < m ensures Opens(xs[..m], i, who, vip, g.inShop) <==> Opens(xs, i, who, vip, g.inShop) {
        OpensBefore(xs, m, i, who, vip, g.inShop);
      }
      if Opens(xs, m, who, vip, g.inShop) {
        k := m;
      }
    }
  }

  // ---------------------------------------------------------------- the last sighting

  lemma LastSighted(xs: seq<Sighting>, g: Gaps, before: Store, x: Sighting)
    requires xs != [] && before == AfterAll(xs[..|xs| - 1], g) && x == xs[|xs| - 1]
    ensures AfterAll(xs, g).seen == before.seen[SeenKey(x.date, x.mall, x.shop, x.mac) := x.now]
    ensures AfterAll(xs, g).whereabouts == before.whereabouts[WhereKey(x.date, x.user) := x.shop]
  {}

  /** The list of the day's devices holds the time of the last sighting of each. */
  lemma {:induction false} SeenIsLast(xs: seq<Sighting>, g: Gaps, key: SeenKey) returns (k: int)
    ensures -1 <= k < |xs| && (k == -1 <==> key !in AfterAll(xs, g).seen)
    ensures k >= 0 ==> AfterAll(xs, g).seen[key] == xs[k].now
                       && SeenKey(xs[k].date, xs[k].mall, xs[k].shop, xs[k].mac) == key
    ensures forall i :: k < i < |xs| ==> SeenKey(xs[i].date, xs[i].mall, xs[i].shop, xs[i].mac) != key
  {
    k := -1;
    if xs != [] {
      var m := |xs| - 1;
      k := SeenIsLast(xs[..m], g, key);
      LastSighted(xs, g, AfterAll(xs[..m], g), xs[m]);
      if SeenKey(xs[m].date, xs[m].mall, xs[m].shop, xs[m].mac) == key {
        k := m;
      }
    }
  }

  /** A user is last known to be in the shop of the last sighting of the day. */
  lemma {:induction false} WhereaboutsAreLast(xs: seq<Sighting>, g: Gaps, key: WhereKey) returns (k: int)
    ensures -1 <= k < |xs| && (k == -1 <==> key !in AfterAll(xs, g).whereabouts)
    ensures k >= 0 ==> AfterAll(xs, g).whereabouts[key] == xs[k].shop && WhereKey(xs[k].date, xs[k].user) == key
    ensures forall i :: k < i < |xs| ==> WhereKey(xs[i].date, xs[i].user) != key
  {
    k := -1;
    if xs != [] {
      var m := |xs| - 1;
      k := WhereaboutsAreLast(xs[..m], g, key);
      LastSighted(xs, g, AfterAll(xs[..m], g), xs[m]);
      if WhereKey(xs[m].date, xs[m].user) == key {
        k := m;
      }
    }
  }
}
