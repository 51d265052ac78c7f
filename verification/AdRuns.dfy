/** Whole runs of requests and clicks: the counters are the ledger, every charge has its cause, and the
    shows of a group are apportioned among its ads by weight. */
module AdRuns {
  import opened Common
  import opened AdCampaign
  import opened AdEligibility
  import opened TopAds
  import opened AdRotation
  import opened AdServer

  datatype Call =
    | Request(c: Campaign, v: Visitor, space: seq<int>, location: seq<int>, n: nat)
    | Tap(c: Campaign, ad: int)

  function Winning(s: State, call: Call): seq<Slot>
    requires call.Request?
  {
    Winners(call.c, s.n, call.v, Candidates(call.v, call.space, call.location), call.n)
  }

  function AfterCall(s: State, call: Call): State {
    match call
    case Request(c, v, space, location, n) => Emitted(s, c, Winning(s, call))
    case Tap(c, ad) =>
      var group := Get(c.groupOf, ad, NO_AD);
      if group == NO_AD then s else Charged(s, c, Click, ad, group)
  }

  function StateAfter(calls: seq<Call>): State {
    if calls == [] then START else AfterCall(StateAfter(calls[..|calls| - 1]), calls[|calls| - 1])
  }

  /** The server that starts with empty counters and serves the calls one after the other. */
  method Serve(calls: seq<Call>) returns (server: AdServer)
    ensures server.Now() == StateAfter(calls)
  {
    server := new AdServer();
    for i := 0 to |calls|
      invariant server.Now() == StateAfter(calls[..i])
    {
      assert calls[..i + 1][..i] == calls[..i];
      match calls[i]
      case Request(c, v, space, location, n) => var _ := server.Bidding(c, v, space, location, n);
      case Tap(c, ad) => var _ := server.AdClick(c, ad);
    }
    assert calls[..|calls|] == calls;
  }

  // ---------------------------------------------------------------- the winners

  /** How many slots belong to a group. */
  function OfGroup(s: seq<Slot>, group: int): nat {
    if s == [] then 0 else OfGroup(s[..|s| - 1], group) + (if s[|s| - 1].group == group then 1 else 0)
  }

  lemma {:induction false} OfGroupAppend(a: seq<Slot>, b: seq<Slot>, group: int)
    ensures OfGroup(a + b, group) == OfGroup(a, group) + OfGroup(b, group)
  {
    if b == [] {
      assert a + b == a;
    } else {
      assert (a + b)[..|a + b| - 1] == a + b[..|b| - 1];
      OfGroupAppend(a, b[..|b| - 1], group);
    }
  }

  lemma OfGroupInserted(s: seq<Slot>, x: Slot, group: int)
    ensures OfGroup(Inserted(s, x), group) == OfGroup(s, group) + OfGroup([x], group)
  {
    var p := Place(s, x.ecpm);
    assert s == s[..p] + s[p..];
    OfGroupAppend(s[..p], s[p..], group);
    OfGroupAppend(s[..p] + [x], s[p..], group);
    OfGroupAppend(s[..p], [x], group);
  }

  lemma OfGroupOne(x: Slot, group: int)
    ensures OfGroup([x], group) == if x.group == group then 1 else 0
  {
    assert OfGroup([x][..0], group) == 0;
  }

  lemma OfGroupLast(s: seq<Slot>, x: Slot, group: int)
    ensures OfGroup(s + [x], group) == OfGroup(s, group) + if x.group == group then 1 else 0
  {
    OfGroupAppend(s, [x], group);
    OfGroupOne(x, group);
  }

  lemma {:induction false} RankedOfGroup(s: seq<Slot>, group: int)
    ensures OfGroup(Ranked(s), group) == OfGroup(s, group)
  {
    if s != [] {
      var k := |s| - 1;
      RankedOfGroup(s[..k], group);
      OfGroupInserted(Ranked(s[..k]), s[k], group);
      OfGroupOne(s[k], group);
    }
  }

  lemma {:induction false} RankedMembers(s: seq<Slot>)
    ensures forall x :: x in Ranked(s) ==> x in s
  {
    if s != [] {
      var k := |s| - 1;
      RankedMembers(s[..k]);
      forall x | x in Ranked(s) ensures x in s {
        assert x in Ranked(s[..k]) || x == s[k];
      }
    }
  }

  lemma {:induction false} PositiveOfGroup(s: seq<Slot>, group: int)
    ensures OfGroup(Positive(s), group) <= OfGroup(s, group)
    ensures forall x :: x in Positive(s) ==> x in s
  {
    if s != [] {
      var k := |s| - 1;
      PositiveOfGroup(s[..k], group);
      OfGroupLast(Positive(s[..k]), s[k], group);
      assert Positive(s) == if s[k].ecpm > 0.0 then Positive(s[..k]) + [s[k]] else Positive(s[..k]);
    }
  }

  lemma {:induction false} OffersOfGroup(c: Campaign, n: Counters, v: Visitor, groups: seq<int>, group: int)
    requires Distinct(groups)
    ensures OfGroup(Offers(c, n, v, groups), group) <= 1
    ensures group !in groups ==> OfGroup(Offers(c, n, v, groups), group) == 0
  {
    if groups != [] {
      var k := |groups| - 1;
      var x := Offer(c, n, groups[k]);
      OffersOfGroup(c, n, v, groups[..k], group);
      OfGroupLast(Offers(c, n, v, groups[..k]), x, group);
      assert Offers(c, n, v, groups) ==
             if Eligible(c, v, groups[k]) then Offers(c, n, v, groups[..k]) + [x] else Offers(c, n, v, groups[..k]);
      if groups[k] == group {
        assert group !in groups[..k];
      }
    }
  }

  lemma {:induction false} OffersMembers(c: Campaign, n: Counters, v: Visitor, groups: seq<int>)
    ensures forall x :: x in Offers(c, n, v, groups) ==> x == Offer(c, n, x.group)
  {
    if groups != [] {
      var k := |groups| - 1;
      OffersMembers(c, n, v, groups[..k]);
      forall x | x in Offers(c, n, v, groups) ensures x == Offer(c, n, x.group) {
        assert x in Offers(c, n, v, groups[..k]) || x == Offer(c, n, groups[k]);
      }
    }
  }

  /** The winners of a request are offers with a positive bid. */
  lemma WinnersAreOffers(c: Campaign, counters: Counters, v: Visitor, groups: seq<int>, n: nat)
    ensures forall x :: x in Winners(c, counters, v, groups, n) ==> x.ecpm > 0.0 && x == Offer(c, counters, x.group)
  {
    var bids := Positive(Offers(c, counters, v, groups));
    OffersMembers(c, counters, v, groups);
    PositiveOfGroup(Offers(c, counters, v, groups), 0);
    RankedMembers(bids);
    forall x | x in Winners(c, counters, v, groups, n) ensures x.ecpm > 0.0 && x == Offer(c, counters, x.group) {
      assert x in Ranked(bids) && x in bids && x in Offers(c, counters, v, groups);
    }
  }

  lemma TakeOfGroup(s: seq<Slot>, n: nat, group: int)
    ensures OfGroup(Take(s, n), group) <= OfGroup(s, group)
  {
    var k := |Take(s, n)|;
    assert s == s[..k] + s[k..];
    OfGroupAppend(s[..k], s[k..], group);
  }

  lemma RankedTakeOfGroup(offers: seq<Slot>, n: nat, group: int)
    ensures OfGroup(Take(Ranked(Positive(offers)), n), group) <= OfGroup(offers, group)
  {
    PositiveOfGroup(offers, group);
    RankedOfGroup(Positive(offers), group);
    TakeOfGroup(Ranked(Positive(offers)), n, group);
  }

  /** No two of them are of the same group. */
  lemma WinnersDiffer(c: Campaign, counters: Counters, v: Visitor, groups: seq<int>, n: nat, group: int)
    requires Distinct(groups)
    ensures OfGroup(Winners(c, counters, v, groups, n), group) <= 1
  {
    OffersOfGroup(c, counters, v, groups, group);
    RankedTakeOfGroup(Offers(c, counters, v, groups), n, group);
  }

  // ---------------------------------------------------------------- the ledger

  function ChargesOf(ledger: seq<Charge>, kind: Kind, ad: int): nat {
    if ledger == [] then 0
    else
      var x := ledger[|ledger| - 1];
      ChargesOf(ledger[..|ledger| - 1], kind, ad) + (if x.kind == kind && x.ad == ad then 1 else 0)
  }

  /** Each counter is the number of charges of its kind. */
  ghost predicate Balances(s: State) {
    && (forall ad :: Get(s.n.shows, ad, 0) == ChargesOf(s.ledger, Show, ad))
    && (forall ad :: Get(s.n.clicks, ad, 0) == ChargesOf(s.ledger, Click, ad))
  }

  lemma ChargedBalances(s: State, c: Campaign, kind: Kind, ad: int, group: int)
    requires Balances(s)
    ensures Balances(Charged(s, c, kind, ad, group))
  {
    var x := ChargeFor(c, kind, ad, group);
    assert (s.ledger + [x])[..|s.ledger|] == s.ledger;
  }

  lemma {:induction false} EmittedBalances(s: State, c: Campaign, ads: seq<Slot>)
    requires Balances(s)
    ensures Balances(Emitted(s, c, ads))
  {
    if ads != [] {
      var k := |ads| - 1;
      EmittedBalances(s, c, ads[..k]);
      ChargedBalances(Emitted(s, c, ads[..k]), c, Show, ads[k].ad, ads[k].group);
    }
  }

  /** After every run each ad's counters are the numbers of charges issued for it. */
  lemma {:induction false} CountersAreTheLedger(calls: seq<Call>)
    ensures Balances(StateAfter(calls))
  {
    if calls != [] {
      var k := |calls| - 1;
      var before := StateAfter(calls[..k]);
      CountersAreTheLedger(calls[..k]);
      match calls[k]
      case Request(c, v, space, location, n) => EmittedBalances(before, c, Winning(before, calls[k]));
      case Tap(c, ad) =>
        if Get(c.groupOf, ad, NO_AD) != NO_AD {
          ChargedBalances(before, c, Click, ad, Get(c.groupOf, ad, NO_AD));
        }
    }
  }

  /** The price, taken away. */
  ghost predicate Takes(amount: real, price: real) {
    amount <= 0.0 && (amount == price || amount == -price)
  }

  /** A show is charged for a valid ad of the group that bid, at the price of its shows; a click for the ad that was
      clicked and its group, at the price of its clicks. */
  ghost predicate Caused(x: Charge, call: Call) {
    && x.owner == Get(call.c.owner, x.group, 0)
    && (if x.kind == Show
        then call.Request? && x.ad in Get(call.c.adSet, x.group, []) && Get(call.c.adValid, x.ad, 1) > 0
             && Takes(x.amount, Get(call.c.showPrice, x.group, 0.0))
        else call.Tap? && x.ad == call.ad && x.group == Get(call.c.groupOf, x.ad, -1) != -1
             && Takes(x.amount, Get(call.c.clickPrice, x.group, 0.0)))
  }

  ghost predicate HasCause(x: Charge, calls: seq<Call>) {
    exists k :: 0 <= k < |calls| && Caused(x, calls[k])
  }

  ghost predicate AllCaused(ledger: seq<Charge>, calls: seq<Call>) {
    forall i :: 0 <= i < |ledger| ==> HasCause(ledger[i], calls)
  }

  lemma CausedBefore(ledger: seq<Charge>, calls: seq<Call>, call: Call)
    requires AllCaused(ledger, calls)
    ensures AllCaused(ledger, calls + [call])
  {
    forall i | 0 <= i < |ledger| ensures HasCause(ledger[i], calls + [call]) {
      assert HasCause(ledger[i], calls);
      var k :| 0 <= k < |calls| && Caused(ledger[i], calls[k]);
      assert (calls + [call])[k] == calls[k];
    }
  }

  lemma CausedLast(ledger: seq<Charge>, x: Charge, calls: seq<Call>)
    requires AllCaused(ledger, calls) && calls != [] && Caused(x, calls[|calls| - 1])
    ensures AllCaused(ledger + [x], calls)
  {}

  lemma {:induction false} EmittedCaused(s: State, ads: seq<Slot>, calls: seq<Call>)
    requires AllCaused(s.ledger, calls) && calls != [] && calls[|calls| - 1].Request?
    requires var call := calls[|calls| - 1];
             forall i :: 0 <= i < |ads| ==> Caused(ChargeFor(call.c, Show, ads[i].ad, ads[i].group), call)
    ensures AllCaused(Emitted(s, calls[|calls| - 1].c, ads).ledger, calls)
  {
    if ads != [] {
      var k, call := |ads| - 1, calls[|calls| - 1];
      EmittedCaused(s, ads[..k], calls);
      CausedLast(Emitted(s, call.c, ads[..k]).ledger, ChargeFor(call.c, Show, ads[k].ad, ads[k].group), calls);
    }
  }

  lemma WinnerCaused(s: State, call: Call, x: Slot)
    requires call.Request? && x in Winning(s, call)
    ensures Caused(ChargeFor(call.c, Show, x.ad, x.group), call)
  {
    WinnersAreOffers(call.c, s.n, call.v, Candidates(call.v, call.space, call.location), call.n);
    BidderHasAd(call.c, s.n, x.group);
  }

  /** No charge is made for the placeholder or out of thin air: every one has its call. */
  lemma {:induction false} EveryChargeIsCaused(calls: seq<Call>)
    ensures AllCaused(StateAfter(calls).ledger, calls)
  {
    if calls != [] {
      var k := |calls| - 1;
      var before, call := StateAfter(calls[..k]), calls[k];
      EveryChargeIsCaused(calls[..k]);
      CausedBefore(before.ledger, calls[..k], call);
      assert calls[..k] + [call] == calls;
      if call.Request? {
        var ads := Winning(before, call);
        forall i | 0 <= i < |ads| ensures Caused(ChargeFor(call.c, Show, ads[i].ad, ads[i].group), call) {
          WinnerCaused(before, call, ads[i]);
        }
        EmittedCaused(before, ads, calls);
      } else if Get(call.c.groupOf, call.ad, NO_AD) != NO_AD {
        CausedLast(before.ledger, ChargeFor(call.c, Click, call.ad, Get(call.c.groupOf, call.ad, NO_AD)), calls);
      }
    }
  }

  // ---------------------------------------------------------------- apportionment

  /** A group whose valid ads are `ads`, with positive weights, none of them shared. */
  ghost predicate Fixed(c: Campaign, group: int, ads: seq<int>, weights: seq<int>) {
    && |ads| == |weights| && Distinct(ads)
    && (forall ad :: ad in Get(c.adSet, group, []) && Get(c.adValid, ad, 1) > 0 <==> ad in ads)
    && (forall i :: 0 <= i < |ads| ==> Get(c.weight, ads[i], 0) == weights[i] > 0)
    && (forall other, ad :: other != group && ad in Get(c.adSet, other, []) ==> ad !in ads)
  }

  /** The counts of these ads. */
  function Tallies(n: Counters, ads: seq<int>, weights: seq<int>): (t: seq<Tally>)
    requires |ads| == |weights|
    ensures |t| == |ads| && forall i :: 0 <= i < |t| ==> t[i] == Tally(Get(n.shows, ads[i], 0), weights[i])
  {
    seq(|ads|, i requires 0 <= i < |ads| => Tally(Get(n.shows, ads[i], 0), weights[i]))
  }

  lemma RatioLeast(s: int, v: int, s': int, w: int)
    requires v > 0 && w > 0 && (s as real + 1.0) / v as real <= (s' as real + 1.0) / w as real
    ensures (s + 1) * w <= (s' + 1) * v
  {
    var a, b, x, y := s as real + 1.0, s' as real + 1.0, v as real, w as real;
    assert a / x * x == a && b / y * y == b;
    assert a / x * (x * y) <= b / y * (x * y);
    assert a * y <= b * x;
    assert ((s + 1) * w) as real == a * y && ((s' + 1) * v) as real == b * x;
  }

  lemma LessShown(c: Campaign, n: Counters, a: int, b: int, x: Tally, y: Tally)
    requires x == Tally(Get(n.shows, a, 0), Weight(c, a)) && y == Tally(Get(n.shows, b, 0), Weight(c, b))
    requires x.weight > 0 && y.weight > 0 && ShowWeight(c, n, a) <= ShowWeight(c, n, b)
    ensures (x.shows + 1) * y.weight <= (y.shows + 1) * x.weight
  {
    RatioLeast(x.shows, x.weight, y.shows, y.weight);
  }

  lemma NextLeads(c: Campaign, n: Counters, members: seq<int>, ad: int)
    requires ad in members && Get(c.adValid, ad, 1) > 0
    ensures var next := NextAd(c, n, ValidAds(c, members));
            next in members && Get(c.adValid, next, 1) > 0 && ShowWeight(c, n, next) <= ShowWeight(c, n, ad)
  {
    var valid := ValidAds(c, members);
    ValidAdsAre(c, members, ad);
    var j := NextAdIsFirstLeast(c, n, valid);
    var i :| 0 <= i < |valid| && valid[i] == ad;
    ValidAdsAre(c, members, valid[j]);
  }

  lemma FixedAd(c: Campaign, group: int, ads: seq<int>, weights: seq<int>, i: nat)
    requires Fixed(c, group, ads, weights) && i < |ads|
    ensures ads[i] in Get(c.adSet, group, []) && Get(c.adValid, ads[i], 1) > 0 && Weight(c, ads[i]) == weights[i] > 0
  {
    var ad := ads[i];
    assert ad in ads;
    assert ad in Get(c.adSet, group, []) && Get(c.adValid, ad, 1) > 0;
  }

  lemma FixedHas(c: Campaign, group: int, ads: seq<int>, weights: seq<int>, ad: int) returns (k: nat)
    requires Fixed(c, group, ads, weights) && ad in Get(c.adSet, group, []) && Get(c.adValid, ad, 1) > 0
    ensures k < |ads| && ads[k] == ad
  {
    k :| 0 <= k < |ads| && ads[k] == ad;
  }

  lemma NextIsLeast(c: Campaign, n: Counters, group: int, ads: seq<int>, weights: seq<int>) returns (k: nat)
    requires Fixed(c, group, ads, weights) && ads != []
    ensures k < |ads| && ads[k] == Offer(c, n, group).ad && Least(Tallies(n, ads, weights), k)
  {
    var members := Get(c.adSet, group, []);
    FixedAd(c, group, ads, weights, 0);
    NextLeads(c, n, members, ads[0]);
    k := FixedHas(c, group, ads, weights, NextAd(c, n, ValidAds(c, members)));
    FixedAd(c, group, ads, weights, k);
    var t := Tallies(n, ads, weights);
    forall i | 0 <= i < |t| ensures (t[k].shows + 1) * t[i].weight <= (t[i].shows + 1) * t[k].weight {
      FixedAd(c, group, ads, weights, i);
      NextLeads(c, n, members, ads[i]);
      LessShown(c, n, ads[k], ads[i], t[k], t[i]);
    }
  }

  lemma ShowOther(n: Counters, ad: int, ads: seq<int>, weights: seq<int>)
    requires |ads| == |weights| && ad !in ads
    ensures Tallies(Counted(n, Show, ad), ads, weights) == Tallies(n, ads, weights)
  {}

  lemma ShowOwn(n: Counters, k: nat, ads: seq<int>, weights: seq<int>)
    requires |ads| == |weights| && k < |ads| && Distinct(ads)
    ensures Tallies(Counted(n, Show, ads[k]), ads, weights) == Shown(Tallies(n, ads, weights), k)
  {}

  /** What one request does to the counts of the group: nothing, or one more show of the ad that was
      least shown when the request came. */
  lemma {:induction false} EmittedTallies(s: State, c: Campaign, slots: seq<Slot>, group: int, ads: seq<int>,
                                          weights: seq<int>, k: nat)
    requires Fixed(c, group, ads, weights) && k < |ads| && ads[k] == Offer(c, s.n, group).ad
    requires forall x :: x in slots ==> x.ecpm > 0.0 && x == Offer(c, s.n, x.group)
    requires OfGroup(slots, group) <= 1
    ensures Tallies(Emitted(s, c, slots).n, ads, weights) ==
            if OfGroup(slots, group) == 0 then Tallies(s.n, ads, weights) else Shown(Tallies(s.n, ads, weights), k)
  {
    if slots != [] {
      var m := |slots| - 1;
      var x := slots[m];
      EmittedTallies(s, c, slots[..m], group, ads, weights, k);
      assert x in slots;
      if x.group == group {
        ShowOwn(Emitted(s, c, slots[..m]).n, k, ads, weights);
      } else {
        BidderHasAd(c, s.n, x.group);
        ShowOther(Emitted(s, c, slots[..m]).n, x.ad, ads, weights);
      }
    }
  }

  /** A call that leaves the group as it is set up; sorted sets list their groups once. */
  ghost predicate Regular(call: Call, group: int, ads: seq<int>, weights: seq<int>) {
    call.Request? ==>
      Fixed(call.c, group, ads, weights) && Distinct(call.space) && Distinct(call.location)
  }

  lemma RequestBalanced(s: State, call: Call, group: int, ads: seq<int>, weights: seq<int>)
    requires call.Request? && Regular(call, group, ads, weights)
    requires Counting(Tallies(s.n, ads, weights)) && Balanced(Tallies(s.n, ads, weights))
    ensures var t := Tallies(AfterCall(s, call).n, ads, weights); Counting(t) && Balanced(t)
  {
    var t := Tallies(s.n, ads, weights);
    if ads == [] {
      assert Tallies(AfterCall(s, call).n, ads, weights) == [];
      return;
    }
    var groups := Candidates(call.v, call.space, call.location);
    var k := NextIsLeast(call.c, s.n, group, ads, weights);
    WinnersAreOffers(call.c, s.n, call.v, groups, call.n);
    IntersectionDistinct(call.space, call.location);
    WinnersDiffer(call.c, s.n, call.v, groups, call.n, group);
    EmittedTallies(s, call.c, Winning(s, call), group, ads, weights, k);
    ShownBalanced(t, k);
  }

  lemma CallBalanced(s: State, call: Call, group: int, ads: seq<int>, weights: seq<int>)
    requires Regular(call, group, ads, weights) && |ads| == |weights|
    requires Counting(Tallies(s.n, ads, weights)) && Balanced(Tallies(s.n, ads, weights))
    ensures var t := Tallies(AfterCall(s, call).n, ads, weights); Counting(t) && Balanced(t)
  {
    if call.Request? {
      RequestBalanced(s, call, group, ads, weights);
    }
  }

  /** The step invariant over every run, whatever other groups bid, whatever is clicked, and however
      prices, filters and the other groups change. */
  lemma {:induction false} RunBalanced(calls: seq<Call>, group: int, ads: seq<int>, weights: seq<int>)
    requires |ads| == |weights| && forall i :: 0 <= i < |weights| ==> weights[i] > 0
    requires forall i :: 0 <= i < |calls| ==> Regular(calls[i], group, ads, weights)
    ensures var t := Tallies(StateAfter(calls).n, ads, weights); Counting(t) && Balanced(t)
  {
    if calls == [] {
      FreshBalanced(Tallies(START.n, ads, weights));
    } else {
      var k := |calls| - 1;
      assert forall i :: 0 <= i < k ==> calls[..k][i] == calls[i];
      RunBalanced(calls[..k], group, ads, weights);
      CallBalanced(StateAfter(calls[..k]), calls[k], group, ads, weights);
    }
  }

  /** Proportional rotation: after every run, every ad of the group has had its part of the group's
      shows, within both quota bounds and never below the quota rounded down. */
  lemma ShowsAreApportioned(calls: seq<Call>, group: int, ads: seq<int>, weights: seq<int>, k: nat)
    requires |ads| == |weights| && forall i :: 0 <= i < |weights| ==> weights[i] > 0
    requires forall i :: 0 <= i < |calls| ==> Regular(calls[i], group, ads, weights)
    requires k < |ads|
    ensures var t := Tallies(StateAfter(calls).n, ads, weights);
            && WithinQuota(t[k], TotalShows(t), TotalWeight(t), |ads|)
            && TotalWeight(t) > 0 && t[k].shows >= TotalShows(t) * t[k].weight / TotalWeight(t)
  {
    var t := Tallies(StateAfter(calls).n, ads, weights);
    RunBalanced(calls, group, ads, weights);
    QuotaBounds(t, k);
    LowerQuota(t, k);
  }
}
