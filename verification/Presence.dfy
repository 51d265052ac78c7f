/** Presence accounting (user_map.cpp, ap_signal_receiver.cpp): every sighting of a device credits its
    user, the shop and the mall with a clamped gap, and opens a visit after a long one. */
module Presence {
  import opened Common
  import opened MacCodec

  /** What one entry of a message says once it has been looked up. */
  datatype Sighting = Sighting(mall: int, shop: int, user: int, mac: nat, now: int, date: string, vip: bool)

  /** The two configured gaps, C ints. */
  datatype Gaps = Gaps(duration: int, inShop: int)

  predicate GapsOk(g: Gaps) {
    0 <= g.duration < 0x8000_0000 && g.inShop >= 0
  }

  datatype PlaceKey = PlaceKey(mall: int, shop: int, mac: nat)
  datatype UserKey = UserKey(date: string, mall: int, shop: int, user: int)
  datatype ShopKey = ShopKey(date: string, mall: int, shop: int)
  datatype MallKey = MallKey(date: string, mall: int)
  datatype ArriveKey = ArriveKey(vip: bool, mall: int, shop: int, user: int)
  datatype SeenKey = SeenKey(date: string, mall: int, shop: int, mac: nat)
  datatype WhereKey = WhereKey(date: string, user: int)

  /** The stored values; the keys are those of the store, with their parts kept apart. */
  datatype Store = Store(
    lastTime: map<PlaceKey, int>,
    userTime: map<UserKey, int>,
    shopTime: map<ShopKey, int>,
    mallTime: map<MallKey, int>,
    arrival: map<ArriveKey, int>,
    seen: map<SeenKey, int>,
    whereabouts: map<WhereKey, int>)

  const EMPTY_STORE := Store(map[], map[], map[], map[], map[], map[], map[])

  function Incr<K>(m: map<K, int>, key: K, amount: int): map<K, int> {
    m[key := Get(m, key, 0) + amount]
  }

  /** Conversion of a time difference to a C int. */
  function Int32(n: int): (r: int)
    ensures -0x8000_0000 <= r < 0x8000_0000
  {
    (n + 0x8000_0000) % 0x1_0000_0000 - 0x8000_0000
  }

  /** What a sighting credits after a gap. */
  function Credit(gap: int, g: Gaps): int {
    if Int32(gap) > g.duration then g.duration else Int32(gap)
  }

  /** What a sighting makes of the store. */
  function Sighted(s: Store, x: Sighting, g: Gaps): Store {
    var last := Get(s.lastTime, PlaceKey(x.mall, x.shop, x.mac), 0);
    var credit := Credit(x.now - last, g);
    Store(
      s.lastTime[PlaceKey(x.mall, x.shop, x.mac) := x.now],
      Incr(s.userTime, UserKey(x.date, x.mall, x.shop, x.user), credit),
      Incr(s.shopTime, ShopKey(x.date, x.mall, x.shop), credit),
      Incr(s.mallTime, MallKey(x.date, x.mall), credit),
      if x.now - last > g.inShop then s.arrival[ArriveKey(x.vip, x.mall, x.shop, x.user) := x.now] else s.arrival,
      s.seen[SeenKey(x.date, x.mall, x.shop, x.mac) := x.now],
      s.whereabouts[WhereKey(x.date, x.user) := x.shop])
  }

  function AfterAll(xs: seq<Sighting>, g: Gaps): Store {
    if xs == [] then EMPTY_STORE else Sighted(AfterAll(xs[..|xs| - 1], g), xs[|xs| - 1], g)
  }

  // ---------------------------------------------------------------- the updates

  type Junk = j: seq<Byte> | |j| == 8 witness [0, 0, 0, 0, 0, 0, 0, 0]

  /** What the receiver looks up elsewhere: the shop of an access point (0: none), the user of a
      device, and who is a member; and what the uninitialised MAC holds that the text at an offset is
      read into. */
  datatype Directory = Directory(shopOf: nat -> int, userOf: nat -> int, isVip: (string, int) -> bool,
                                 junk: nat -> Junk)

  const MALL := 2

  /** Entry `i` of a message. */
  function SightingAt(env: Directory, msg: string, i: nat, shop: int, now: int, date: string): Sighting
    requires |msg| + 1 >= LIST_AT && i < EntryCount(msg)
  {
    var at := LIST_AT + STRIDE * i;
    var mac := TextMac(msg[at..], env.junk(at));
    Sighting(MALL, shop, env.userOf(mac), mac, now, date, env.isVip(msg[at..at + 17], shop))
  }

  function Shop(env: Directory, msg: string): int
    requires |msg| + 1 >= LIST_AT
  {
    env.shopOf(TextMac(msg[AP_AT..], env.junk(AP_AT)))
  }

  /** What a message reports: nothing if its access point belongs to no shop. */
  function SightingsIn(env: Directory, msg: string, now: int, date: string, n: nat): (xs: seq<Sighting>)
    requires |msg| + 1 >= LIST_AT && n <= EntryCount(msg)
    ensures |xs| == if Shop(env, msg) == 0 then 0 else n
  {
    if n == 0 || Shop(env, msg) == 0 then []
    else SightingsIn(env, msg, now, date, n - 1) + [SightingAt(env, msg, n - 1, Shop(env, msg), now, date)]
  }

  class PresenceStore {
    var store: Store

    constructor ()
      ensures store == EMPTY_STORE
    {
      store := EMPTY_STORE;
    }

    method UpdateUserLocationTime(mall: int, shop: int, mac: nat, now: int, date: string)
      modifies this
      ensures store == old(store).(lastTime := old(store.lastTime)[PlaceKey(mall, shop, mac) := now],
                                  seen := old(store.seen)[SeenKey(date, mall, shop, mac) := now])
    {
      store := store.(lastTime := store.lastTime[PlaceKey(mall, shop, mac) := now]);
      store := store.(seen := store.seen[SeenKey(date, mall, shop, mac) := now]);
    }

    method ShopAllUsersDurationAdd(mall: int, shop: int, date: string, interval: int)
      modifies this
      ensures store == old(store).(shopTime := Incr(old(store.shopTime), ShopKey(date, mall, shop), interval))
    {
      store := store.(shopTime := Incr(store.shopTime, ShopKey(date, mall, shop), interval));
    }

    method MallAllUsersDurationAdd(mall: int, date: string, interval: int)
      modifies this
      ensures store == old(store).(mallTime := Incr(old(store.mallTime), MallKey(date, mall), interval))
    {
      store := store.(mallTime := Incr(store.mallTime, MallKey(date, mall), interval));
    }

    /** `interval` arrives as a C int and is clamped from above only. */
    method ShopUserDurationAdd(mall: int, shop: int, user: int, date: string, gap: int, g: Gaps)
      modifies this
      ensures store ==
              old(store).(userTime := Incr(old(store.userTime), UserKey(date, mall, shop, user), Credit(gap, g)),
                                  shopTime := Incr(old(store.shopTime), ShopKey(date, mall, shop), Credit(gap, g)),
                                  mallTime := Incr(old(store.mallTime), MallKey(date, mall), Credit(gap, g)))
    {
      var interval := Int32(gap);
      if interval > g.duration {
        interval := g.duration;
      }
      store := store.(userTime := Incr(store.userTime, UserKey(date, mall, shop, user), interval));
      ShopAllUsersDurationAdd(mall, shop, date, interval);
      MallAllUsersDurationAdd(mall, date, interval);
    }

    method UpdateUserArriveTime(mall: int, shop: int, user: int, pre: int, now: int, vip: bool, g: Gaps)
      modifies this
      ensures store == old(store).(arrival := if now - pre > g.inShop
                                              then old(store.arrival)[ArriveKey(vip, mall, shop, user) := now]
                                              else old(store.arrival))
    {
      if now - pre > g.inShop {
        store := store.(arrival := store.arrival[ArriveKey(vip, mall, shop, user) := now]);
      }
    }

    /** The updates of one entry, in the order of the source: the previous time is read before it is
        overwritten. */
    method Sight(x: Sighting, g: Gaps)
      modifies this
      ensures store == Sighted(old(store), x, g)
    {
      var last := Get(store.lastTime, PlaceKey(x.mall, x.shop, x.mac), 0);
      UpdateUserLocationTime(x.mall, x.shop, x.mac, x.now, x.date);
      ShopUserDurationAdd(x.mall, x.shop, x.user, x.date, x.now - last, g);
      UpdateUserArriveTime(x.mall, x.shop, x.user, last, x.now, x.vip, g);
      store := store.(whereabouts := store.whereabouts[WhereKey(x.date, x.user) := x.shop]);
    }

    /** The body of the loop, at one entry. */
    method SightEntry(env: Directory, msg: string, ghost i: nat, offset: nat, shop: int, now: int, date: string,
                      g: Gaps)
      requires |msg| + 1 >= LIST_AT && i < EntryCount(msg) && offset == LIST_AT + STRIDE * i
      modifies this
      ensures store == if shop == 0
              then old(store) else Sighted(old(store), SightingAt(env, msg, i, shop, now, date), g)
    {
      var mac := TextMac(msg[offset..], env.junk(offset));
      var vip := env.isVip(msg[offset..offset + 17], shop);
      var user := env.userOf(mac);
      var x := Sighting(MALL, shop, user, mac, now, date, vip);
      assert x == SightingAt(env, msg, i, shop, now, date);
      if shop != 0 {
        Sight(x, g);
      }
    }

    /** `parse_apmac_closer_msg`. */
    method ParseCloser(env: Directory, msg: string, now: int, date: string, g: Gaps, ghost before: seq<Sighting>)
      requires |msg| + 1 >= LIST_AT && store == AfterAll(before, g)
      modifies this
      ensures store == AfterAll(before + SightingsIn(env, msg, now, date, EntryCount(msg)), g)
    {
      var shop := env.shopOf(TextMac(msg[AP_AT..], env.junk(AP_AT)));
      var offset := LIST_AT;
      assert before + [] == before;
      for i := 0 to EntryCount(msg)
        invariant offset == LIST_AT + STRIDE * i
        invariant store == AfterAll(before + SightingsIn(env, msg, now, date, i), g)
      {
        EntriesStep(before, env, msg, now, date, i, g);
        SightEntry(env, msg, i, offset, shop, now, date, g);
        offset := offset + STRIDE;
      }
    }
  }

  lemma AfterLast(xs: seq<Sighting>, x: Sighting, g: Gaps)
    ensures AfterAll(xs + [x], g) == Sighted(AfterAll(xs, g), x, g)
  {
    assert (xs + [x])[..|xs|] == xs;
  }

  lemma EntriesStep(before: seq<Sighting>, env: Directory, msg: string, now: int, date: string, i: nat, g: Gaps)
    requires |msg| + 1 >= LIST_AT && i < EntryCount(msg)
    ensures AfterAll(before + SightingsIn(env, msg, now, date, i + 1), g) ==
            if Shop(env, msg) == 0 then AfterAll(before + SightingsIn(env, msg, now, date, i), g)
            else Sighted(AfterAll(before + SightingsIn(env, msg, now, date, i), g),
                         SightingAt(env, msg, i, Shop(env, msg), now, date), g)
  {
    if Shop(env, msg) != 0 {
      var xs, x := SightingsIn(env, msg, now, date, i), SightingAt(env, msg, i, Shop(env, msg), now, date);
      assert before + (xs + [x]) == (before + xs) + [x];
      AfterLast(before + xs, x, g);
    }
  }

  /** A sighting in the mall 2 of the device `mac` of entry `i`, its user, and whether the text of the entry is a
      member's; `at` is where the entry stands. */
  ghost predicate Reported(x: Sighting, env: Directory, mac: nat, at: nat, shop: int, now: int, date: string) {
    var read := mac % 0x1_0000_0000_0000 + HighPart(env.junk(at));
    x == Sighting(2, shop, env.userOf(read), read, now, date, env.isVip(MacText(mac), shop))
  }

  /** What a printed message reports: each device of its list, in order, in the shop of the access point if it has
      one. */
  ghost predicate Reports(xs: seq<Sighting>, env: Directory, ap: nat, macs: seq<nat>, now: int, date: string) {
    var shop := env.shopOf(ap % 0x1_0000_0000_0000 + HighPart(env.junk(13)));
    && |xs| == (if shop == 0 then 0 else |macs|)
    && forall i :: 0 <= i < |xs| ==> Reported(xs[i], env, macs[i], 37 + 19 * i, shop, now, date)
  }

  lemma SightingIs(env: Directory, msg: string, i: nat, at: nat, read: nat, text: string, shop: int, now: int,
                   date: string)
    requires |msg| + 1 >= LIST_AT && i < EntryCount(msg) && at == LIST_AT + STRIDE * i && at + 17 <= |msg|
    requires read == TextMac(msg[at..], env.junk(at)) && text == msg[at..at + 17]
    ensures SightingAt(env, msg, i, shop, now, date) ==
            Sighting(2, shop, env.userOf(read), read, now, date, env.isVip(text, shop))
  {}

  lemma EntryIsDevice(env: Directory, ap: nat, macs: seq<nat>, sep: string, msg: string, i: nat, at: nat, shop: int,
                      now: int, date: string)
    requires |sep| == 2 && !IsHex(sep[0]) && i < |macs| && msg == CloserText(ap, macs, sep) && at == 37 + 19 * i
    requires |msg| + 1 >= LIST_AT && EntryCount(msg) == |macs|
    ensures Reported(SightingAt(env, msg, i, shop, now, date), env, macs[i], at, shop, now, date)
  {
    CloserRoundTrip(ap, macs, sep, i, env.junk(at));
    CloserEntry(ap, macs, sep, i, msg, at);
    var read := macs[i] % 0x1_0000_0000_0000 + HighPart(env.junk(at));
    SightingIs(env, msg, i, at, read, MacText(macs[i]), shop, now, date);
  }

  lemma SightingsStep(env: Directory, msg: string, now: int, date: string, n: nat, shop: int, before: seq<Sighting>,
                      x: Sighting)
    requires |msg| + 1 >= LIST_AT && n < EntryCount(msg) && Shop(env, msg) == shop != 0
    requires before == SightingsIn(env, msg, now, date, n) && x == SightingAt(env, msg, n, shop, now, date)
    ensures |SightingsIn(env, msg, now, date, n + 1)| == |before| + 1 == n + 1
    ensures forall i :: 0 <= i <= n ==> SightingsIn(env, msg, now, date, n + 1)[i] == if i == n then x else before[i]
  {}

  lemma {:induction false} SightingsAt(env: Directory, msg: string, now: int, date: string, n: nat, i: nat, shop: int)
    requires |msg| + 1 >= LIST_AT && i < n <= EntryCount(msg) && Shop(env, msg) == shop != 0
    ensures SightingsIn(env, msg, now, date, n)[i] == SightingAt(env, msg, i, shop, now, date)
  {
    SightingsStep(env, msg, now, date, n - 1, shop, SightingsIn(env, msg, now, date, n - 1),
                  SightingAt(env, msg, n - 1, shop, now, date));
    if i < n - 1 {
      SightingsAt(env, msg, now, date, n - 1, i, shop);
    }
  }

  lemma CloserShop(env: Directory, ap: nat, macs: seq<nat>, sep: string, msg: string)
    requires |sep| == 2 && !IsHex(sep[0]) && msg == CloserText(ap, macs, sep)
    ensures |msg| + 1 >= LIST_AT && EntryCount(msg) == |macs|
    ensures Shop(env, msg) == env.shopOf(ap % 0x1_0000_0000_0000 + HighPart(env.junk(13)))
  {
    CloserRoundTrip(ap, macs, sep, 0, env.junk(13));
  }

  /** A message of any list of devices is reported as that list. */
  lemma CloserReports(env: Directory, ap: nat, macs: seq<nat>, sep: string, msg: string, now: int, date: string)
    requires |sep| == 2 && !IsHex(sep[0]) && msg == CloserText(ap, macs, sep)
    ensures |msg| + 1 >= LIST_AT && EntryCount(msg) == |macs|
    ensures Reports(SightingsIn(env, msg, now, date, |macs|), env, ap, macs, now, date)
  {
    CloserShop(env, ap, macs, sep, msg);
    var shop, xs := Shop(env, msg), SightingsIn(env, msg, now, date, |macs|);
    forall i | 0 <= i < |xs| ensures Reported(xs[i], env, macs[i], 37 + 19 * i, shop, now, date) {
      SightingsAt(env, msg, now, date, |macs|, i, shop);
      EntryIsDevice(env, ap, macs, sep, msg, i, 37 + 19 * i, shop, now, date);
    }
  }
}
