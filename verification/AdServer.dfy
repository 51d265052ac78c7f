/** Requests and clicks (ad_map.cpp): choosing the top bids, counting and charging what is shown, and
    what holds after every run of them. */
module AdServer {
  import opened Common
  import opened AdCampaign
  import opened AdEligibility
  import opened TopAds

  datatype Kind = Show | Click

  /** A charge to the owner of a group. */
  datatype Charge = Charge(kind: Kind, ad: int, group: int, owner: int, amount: real)

  /** What requests and clicks change: the stored counters, and the charges issued. */
  datatype State = State(n: Counters, ledger: seq<Charge>)

  const START := State(Counters(map[], map[]), [])

  // ---------------------------------------------------------------- counting and charging

  function Counted(n: Counters, kind: Kind, ad: int): Counters {
    match kind
    case Show => n.(shows := n.shows[ad := Get(n.shows, ad, 0) + 1])
    case Click => n.(clicks := n.clicks[ad := Get(n.clicks, ad, 0) + 1])
  }

  function Price(c: Campaign, kind: Kind, group: int): real {
    match kind
    case Show => Get(c.showPrice, group, 0.0)
    case Click => Get(c.clickPrice, group, 0.0)
  }

  /** A charge takes money, whatever the sign of the stored price. */
  function Amount(price: real): (amount: real)
    ensures amount <= 0.0 && (amount == price || amount == -price)
  {
    if price >= 0.0 then -price else price
  }

  function ChargeFor(c: Campaign, kind: Kind, ad: int, group: int): Charge {
    Charge(kind, ad, group, Get(c.owner, group, 0), Amount(Price(c, kind, group)))
  }

  function Charged(s: State, c: Campaign, kind: Kind, ad: int, group: int): State {
    State(Counted(s.n, kind, ad), s.ledger + [ChargeFor(c, kind, ad, group)])
  }

  // ---------------------------------------------------------------- bidding

  /** What a group puts forward. */
  function Offer(c: Campaign, n: Counters, group: int): Slot {
    Slot(ECPM(c, n, group), group, NextAd(c, n, ValidAds(c, Get(c.adSet, group, []))))
  }

  function OfferIf(c: Campaign, n: Counters, v: Visitor, group: int): seq<Slot> {
    if Eligible(c, v, group) then [Offer(c, n, group)] else []
  }

  function Offers(c: Campaign, n: Counters, v: Visitor, groups: seq<int>): seq<Slot> {
    if groups == [] then []
    else
      Offers(c, n, v, groups[..|groups| - 1]) + OfferIf(c, n, v, groups[|groups| - 1])
  }

  lemma OffersStep(c: Campaign, n: Counters, v: Visitor, groups: seq<int>, i: nat)
    requires i < |groups|
    ensures Offers(c, n, v, groups[..i + 1]) == Offers(c, n, v, groups[..i]) + OfferIf(c, n, v, groups[i])
  {
    assert groups[..i + 1][..i] == groups[..i];
  }

  /** `set_intersection`. */
  function Intersection(a: seq<int>, b: seq<int>): seq<int>
    decreases |a| + |b|
  {
    if a == [] || b == [] then []
    else if a[0] < b[0] then Intersection(a[1..], b)
    else if b[0] < a[0] then Intersection(a, b[1..])
    else [a[0]] + Intersection(a[1..], b[1..])
  }

  /** What stands in the way of `x`: the elements before it that are greater than it and than all that come
      between. */
  function Above(s: seq<int>, x: int): (r: seq<int>)
    ensures r != [] ==> r[0] in s && r[0] > x
  {
    if s == [] || s[0] == x then []
    else
      var rest := Above(s[1..], x);
      if s[0] > x && (rest == [] || s[0] > rest[0]) then [s[0]] + rest else rest
  }

  lemma SameFirst(a: seq<int>, b: seq<int>, x: int)
    requires a != [] && b != [] && a[0] == b[0] != x && a[0] !in a[1..] && b[0] !in b[1..]
    ensures Above(a, x) == Above(b, x) <==> Above(a[1..], x) == Above(b[1..], x)
  {
    var s, t := Above(a[1..], x), Above(b[1..], x);
    assert ([a[0]] + s)[1..] == s && ([b[0]] + t)[1..] == t;
  }

  /** A group of both lists is found exactly when the same stands in its way on both. */
  lemma {:induction false} IntersectionFinds(a: seq<int>, b: seq<int>, x: int)
    requires Distinct(a) && Distinct(b)
    ensures x in Intersection(a, b) <==> x in a && x in b && Above(a, x) == Above(b, x)
    decreases |a| + |b|
  {
    if a != [] && b != [] {
      assert a == [a[0]] + a[1..] && b == [b[0]] + b[1..];
      if a[0] < b[0] {
        IntersectionFinds(a[1..], b, x);
      } else if b[0] < a[0] {
        IntersectionFinds(a, b[1..], x);
      } else {
        IntersectionFinds(a[1..], b[1..], x);
        if a[0] != x {
          SameFirst(a, b, x);
        }
      }
    }
  }

  lemma {:induction false} IntersectionDistinct(a: seq<int>, b: seq<int>)
    requires Distinct(a) && Distinct(b)
    ensures Distinct(Intersection(a, b))
    decreases |a| + |b|
  {
    if a != [] && b != [] {
      if a[0] < b[0] {
        IntersectionDistinct(a[1..], b);
      } else if b[0] < a[0] {
        IntersectionDistinct(a, b[1..]);
      } else {
        IntersectionDistinct(a[1..], b[1..]);
        IntersectionFinds(a[1..], b[1..], a[0]);
      }
    }
  }

  ghost predicate Ascending(s: seq<int>) {
    forall i, j :: 0 <= i < j < |s| ==> s[i] < s[j]
  }

  lemma {:induction false} NothingAbove(s: seq<int>, x: int)
    requires Ascending(s) && x in s
    ensures Above(s, x) == []
  {
    if s[0] != x {
      assert s == [s[0]] + s[1..];
      NothingAbove(s[1..], x);
    }
  }

  /** So on ascending lists every group of both is found. */
  lemma IntersectionIsExact(a: seq<int>, b: seq<int>, x: int)
    requires Ascending(a) && Ascending(b)
    ensures x in Intersection(a, b) <==> x in a && x in b
  {
    IntersectionFinds(a, b, x);
    if x in a && x in b {
      NothingAbove(a, x);
      NothingAbove(b, x);
    }
  }

  /** A sorted set gives its members by score and then as text, so 10 comes before 9: the group 9 of both
      lists is lost. */
  lemma IntersectionNeedsOrder()
    ensures 9 !in Intersection([10, 9], [9])
  {
    assert [10, 9][1..] == [9] && [9][1..] == [];
    assert Above([9], 9) == [] && Above([10, 9], 9) == [10];
    IntersectionFinds([10, 9], [9], 9);
  }

  /** The groups of the space; for a known user only those that are also at the user's location. */
  function Candidates(v: Visitor, space: seq<int>, location: seq<int>): seq<int> {
    if v.user > 0 then Intersection(space, location) else space
  }

  /** The ads of a request: the highest positive bids, at most `n`. */
  function Winners(c: Campaign, counters: Counters, v: Visitor, groups: seq<int>, n: nat): seq<Slot> {
    Take(Ranked(Positive(Offers(c, counters, v, groups))), n)
  }

  function Emitted(s: State, c: Campaign, ads: seq<Slot>): State {
    if ads == [] then s
    else
      var x := ads[|ads| - 1];
      Charged(Emitted(s, c, ads[..|ads| - 1]), c, Show, x.ad, x.group)
  }

  /** The arrays hold the top of `offers`. */
  ghost predicate Shows(ecpms: array<real>, groups: array<int>, ads: array<int>, offers: seq<Slot>)
    reads ecpms, groups, ads
  {
    && ecpms.Length == groups.Length == ads.Length
    && Board(ecpms[..], groups[..], ads[..]) == TopOf(offers, ecpms.Length)
  }

  class AdServer {
    var counters: Counters
    var ledger: seq<Charge>

    constructor ()
      ensures Now() == START
    {
      counters, ledger := START.n, START.ledger;
    }

    function Now(): State
      reads this
    {
      State(counters, ledger)
    }

    method IncreaseAdTime(ad: int, kind: Kind)
      modifies this`counters
      ensures counters == Counted(old(counters), kind, ad)
    {
      if kind == Show {
        counters := counters.(shows := counters.shows[ad := Get(counters.shows, ad, 0) + 1]);
      } else {
        counters := counters.(clicks := counters.clicks[ad := Get(counters.clicks, ad, 0) + 1]);
      }
    }

    method ChargeAd(c: Campaign, ad: int, group: int, kind: Kind)
      modifies this`ledger
      ensures ledger == old(ledger) + [ChargeFor(c, kind, ad, group)]
    {
      var change := Price(c, kind, group);
      if change >= 0.0 {
        change := -change;
      }
      ledger := ledger + [Charge(kind, ad, group, Get(c.owner, group, 0), change)];
    }

    /** One group: filter, price, insert. */
    method Consider(c: Campaign, v: Visitor, group: int, ecpms: array<real>, groupIds: array<int>, adIds: array<int>,
                    ghost offers: seq<Slot>)
      requires Shows(ecpms, groupIds, adIds, offers) && groupIds != adIds
      modifies ecpms, groupIds, adIds
      ensures Shows(ecpms, groupIds, adIds, offers + OfferIf(c, counters, v, group))
    {
      var eligible := CheckEligible(c, v, group);
      if !eligible {
        assert offers + [] == offers;
        return;
      }
      var ecpm, next := GetECPM(c, counters, group);
      var x := Slot(ecpm, group, next);
      assert OfferIf(c, counters, v, group) == [x];
      TopGrows(offers, x, ecpms.Length);
      Insert(ecpms, groupIds, adIds, x);
    }

    /** The first loop of `bidding`: fills the board. */
    method Collect(c: Campaign, v: Visitor, groups: seq<int>, ecpms: array<real>, groupIds: array<int>,
                   adIds: array<int>)
      requires Shows(ecpms, groupIds, adIds, []) && groupIds != adIds
      modifies ecpms, groupIds, adIds
      ensures Shows(ecpms, groupIds, adIds, Offers(c, counters, v, groups))
    {
      var i := 0;
      ghost var offers := [];
      while i < |groups|
        invariant 0 <= i <= |groups| && offers == Offers(c, counters, v, groups[..i])
        invariant Shows(ecpms, groupIds, adIds, offers)
      {
        OffersStep(c, counters, v, groups, i);
        Consider(c, v, groups[i], ecpms, groupIds, adIds, offers);
        offers := offers + OfferIf(c, counters, v, groups[i]);
        i := i + 1;
      }
      assert groups[..|groups|] == groups;
    }

    /** The second loop: shows, counts and charges the board up to its first empty place. */
    method Emit(c: Campaign, ecpms: array<real>, groupIds: array<int>, adIds: array<int>, ghost ranked: seq<Slot>)
      returns (ads: seq<Slot>)
      requires ecpms.Length == groupIds.Length == adIds.Length
      requires Board(ecpms[..], groupIds[..], adIds[..]) == Padded(ranked, ecpms.Length)
      requires forall i :: 0 <= i < |ranked| ==> ranked[i].ecpm > 0.0
      modifies this
      ensures ads == Take(ranked, ecpms.Length) && Now() == Emitted(old(Now()), c, ads)
    {
      ads := [];
      var i := 0;
      ghost var winners := Take(ranked, ecpms.Length);
      while i < ecpms.Length
        invariant 0 <= i <= |winners| && ads == winners[..i]
        invariant Now() == Emitted(old(Now()), c, ads)
      {
        assert Board(ecpms[..], groupIds[..], adIds[..])[i] == Padded(ranked, ecpms.Length)[i];
        if ecpms[i] != 0.0 {
          var x := Slot(ecpms[i], groupIds[i], adIds[i]);
          assert (ads + [x])[..i] == ads;
          IncreaseAdTime(x.ad, Show);
          ChargeAd(c, x.ad, x.group, Show);
          ads := ads + [x];
          i := i + 1;
        } else {
          break;
        }
      }
      assert ads == winners;
    }

    /** `bidding`. */
    method Bidding(c: Campaign, v: Visitor, space: seq<int>, location: seq<int>, n: nat) returns (ads: seq<Slot>)
      modifies this
      ensures ads == Winners(c, old(counters), v, Candidates(v, space, location), n)
      ensures Now() == Emitted(old(Now()), c, ads)
    {
      var groups := Candidates(v, space, location);
      var ecpms, groupIds, adIds := new real[n](_ => 0.0), new int[n](_ => 0), new int[n](_ => 0);
      assert Board(ecpms[..], groupIds[..], adIds[..]) == Empties(n) == TopOf([], n);
      Collect(c, v, groups, ecpms, groupIds, adIds);
      ghost var bids := Positive(Offers(c, counters, v, groups));
      RankedPositive(bids);
      ads := Emit(c, ecpms, groupIds, adIds, Ranked(bids));
    }

    /** `ad_click`: an ad of no group is refused. */
    method AdClick(c: Campaign, ad: int) returns (ok: bool)
      modifies this
      ensures ok == (Get(c.groupOf, ad, NO_AD) != NO_AD)
      ensures Now() == if ok then Charged(old(Now()), c, Click, ad, Get(c.groupOf, ad, NO_AD)) else old(Now())
    {
      var group := Get(c.groupOf, ad, NO_AD);
      if group == NO_AD {
        return false;
      }
      IncreaseAdTime(ad, Click);
      ChargeAd(c, ad, group, Click);
      ok := true;
    }
  }
}
