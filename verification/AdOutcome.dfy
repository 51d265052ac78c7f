/** What a request shows and what it and a click charge, in terms of what is stored: the numbers of the
    bids, who is let in, and what each winner costs (ad_map.cpp). */
module AdOutcome {
  import opened Common
  import opened AdCampaign
  import opened AdEligibility
  import opened TopAds
  import opened AdServer
  import opened AdRuns

  // ---------------------------------------------------------------- bids

  /** The weights of the ads as they count: an invalid ad counts for nothing, an unset weight is 1. */
  ghost predicate Weighed(c: Campaign, ads: seq<int>, weights: seq<int>) {
    |ads| == |weights| && forall i :: 0 <= i < |ads| ==>
      weights[i] == if Get(c.adValid, ads[i], 1) <= 0 then 0
                    else if Get(c.weight, ads[i], 0) == 0 then 1 else Get(c.weight, ads[i], 0)
  }

  /** What a thousand shows of each earn: a new ad is taken to be clicked once in twenty shows. */
  ghost predicate Earning(c: Campaign, n: Counters, group: int, ads: seq<int>, earnings: seq<real>) {
    var show, click := Get(c.showPrice, group, 0.0), Get(c.clickPrice, group, 0.0);
    |ads| == |earnings| && forall i :: 0 <= i < |ads| ==>
      var shows, clicks := Get(n.shows, ads[i], 0), Get(n.clicks, ads[i], 0);
      earnings[i] == if shows < 100
        then 1000.0 * show + 1000.0 * click * 0.05
        else 1000.0 * show + 1000.0 * click * clicks as real / shows as real
  }

  function Total(weights: seq<int>): int {
    if weights == [] then 0 else Total(weights[..|weights| - 1]) + weights[|weights| - 1]
  }

  function Sold(earnings: seq<real>, weights: seq<int>): real
    requires |earnings| == |weights|
  {
    if weights == [] then 0.0
    else
      var k := |weights| - 1;
      Sold(earnings[..k], weights[..k]) + earnings[k] * weights[k] as real
  }

  lemma WeighedLess(c: Campaign, n: Counters, group: int, ads: seq<int>, weights: seq<int>, earnings: seq<real>,
                    k: nat)
    requires Weighed(c, ads, weights) && Earning(c, n, group, ads, earnings) && k <= |ads|
    ensures Weighed(c, ads[..k], weights[..k]) && Earning(c, n, group, ads[..k], earnings[..k])
  {}

  lemma LastInNumbers(c: Campaign, n: Counters, group: int, ads: seq<int>, weights: seq<int>, earnings: seq<real>,
                      k: nat, w: int, e: real)
    requires Weighed(c, ads, weights) && Earning(c, n, group, ads, earnings)
    requires k < |ads| && w == weights[k] && e == earnings[k]
    ensures AdValid(c, ads[k]) ==> Weight(c, ads[k]) == w && AdECPM(c, n, group, ads[k]) == e
    ensures !AdValid(c, ads[k]) ==> w == 0
  {}

  lemma WeightedIs(e: real, w: int)
    ensures Weighted(e, w) == e * w as real
    ensures w == 0 ==> Weighted(e, w) == 0.0
  {}

  lemma ValidStepIn(c: Campaign, n: Counters, group: int, valid: seq<int>, ad: int, w: int, earned: real)
    requires Weight(c, ad) == w && Weighted(AdECPM(c, n, group, ad), Weight(c, ad)) == earned
    ensures SumWeight(c, valid + [ad]) == SumWeight(c, valid) + w
    ensures SumECPM(c, n, group, valid + [ad]) == SumECPM(c, n, group, valid) + earned
  {
    ScanStep(c, n, group, valid, ad);
  }

  /** One more ad of the set. */
  lemma SumsStep(c: Campaign, n: Counters, group: int, ads: seq<int>, k: nat, valid: seq<int>, w: int, earned: real)
    requires |ads| == k + 1 && valid == ValidAds(c, ads[..k])
    requires AdValid(c, ads[k]) ==> Weight(c, ads[k]) == w && Weighted(AdECPM(c, n, group, ads[k]), w) == earned
    requires !AdValid(c, ads[k]) ==> w == 0 && earned == 0.0
    ensures SumWeight(c, ValidAds(c, ads)) == SumWeight(c, valid) + w
    ensures SumECPM(c, n, group, ValidAds(c, ads)) == SumECPM(c, n, group, valid) + earned
  {
    if AdValid(c, ads[k]) {
      ValidStepIn(c, n, group, valid, ads[k], w, earned);
      assert ValidAds(c, ads) == valid + [ads[k]];
    } else {
      assert ValidAds(c, ads) == valid + [] == valid;
    }
  }

  lemma SoldStep(earnings: seq<real>, weights: seq<int>, k: nat, earned: real)
    requires |earnings| == |weights| == k + 1 && earned == Weighted(earnings[k], weights[k])
    ensures Sold(earnings, weights) == Sold(earnings[..k], weights[..k]) + earned
    ensures Total(weights) == Total(weights[..k]) + weights[k]
  {}

  /** The accumulated sums are the sums over the whole set. */
  lemma {:induction false} SumsInNumbers(c: Campaign, n: Counters, group: int, ads: seq<int>, weights: seq<int>,
                                         earnings: seq<real>)
    requires Weighed(c, ads, weights) && Earning(c, n, group, ads, earnings)
    ensures SumWeight(c, ValidAds(c, ads)) == Total(weights)
    ensures SumECPM(c, n, group, ValidAds(c, ads)) == Sold(earnings, weights)
    decreases |ads|
  {
    if ads != [] {
      var k := |ads| - 1;
      var w, e := weights[k], earnings[k];
      WeighedLess(c, n, group, ads, weights, earnings, k);
      SumsInNumbers(c, n, group, ads[..k], weights[..k], earnings[..k]);
      LastInNumbers(c, n, group, ads, weights, earnings, k, w, e);
      WeightedIs(e, w);
      SumsStep(c, n, group, ads, k, ValidAds(c, ads[..k]), w, Weighted(e, w));
      SoldStep(earnings, weights, k, Weighted(e, w));
    }
  }

  /** A group bids the mean of what its valid ads earn, by their weights, or nothing if these add up to zero. */
  lemma BidInNumbers(c: Campaign, n: Counters, group: int, weights: seq<int>, earnings: seq<real>)
    requires Weighed(c, Get(c.adSet, group, []), weights) && Earning(c, n, group, Get(c.adSet, group, []), earnings)
    ensures ECPM(c, n, group) == if Total(weights) == 0 then 0.0 else Sold(earnings, weights) / Total(weights) as real
  {
    SumsInNumbers(c, n, group, Get(c.adSet, group, []), weights, earnings);
  }

  /** How much shown the ads would be after one more show; a weight of 0 is that of an ad that does not count. */
  ghost predicate ShownRatios(n: Counters, ads: seq<int>, weights: seq<int>, ratios: seq<real>) {
    |ads| == |weights| == |ratios| && forall i :: 0 <= i < |ads| && weights[i] != 0 ==>
      ratios[i] == (Get(n.shows, ads[i], 0) as real + 1.0) / weights[i] as real
  }

  /** The `k`-th is the first least shown one. */
  ghost predicate LeastShown(weights: seq<int>, ratios: seq<real>, k: nat)
    requires |weights| == |ratios|
  {
    && k < |weights| && weights[k] != 0
    && (forall i :: 0 <= i < |weights| && weights[i] != 0 ==> ratios[k] <= ratios[i])
    && (forall i :: 0 <= i < k && weights[i] != 0 ==> ratios[k] < ratios[i])
  }

  ghost predicate NoneCounts(weights: seq<int>) {
    forall i :: 0 <= i < |weights| ==> weights[i] == 0
  }

  /** The next ad of these is the first least shown, or none. */
  ghost predicate NextIs(next: int, ads: seq<int>, weights: seq<int>, ratios: seq<real>, k: nat)
    requires |ads| == |weights| == |ratios|
  {
    if NoneCounts(weights) then next == -1 else LeastShown(weights, ratios, k) && next == ads[k]
  }

  lemma RatiosOfLast(c: Campaign, n: Counters, ads: seq<int>, weights: seq<int>, ratios: seq<real>, k: nat)
    requires Weighed(c, ads, weights) && ShownRatios(n, ads, weights, ratios) && k < |ads|
    ensures AdValid(c, ads[k]) <==> weights[k] != 0
    ensures weights[k] != 0 ==> ShowWeight(c, n, ads[k]) == ratios[k]
  {}

  lemma LeastStep(ads: seq<int>, weights: seq<int>, ratios: seq<real>, m: nat, j: nat, before: int, next: int)
    returns (k: nat)
    requires |ads| == |weights| == |ratios| == m + 1
    requires NextIs(before, ads[..m], weights[..m], ratios[..m], j)
    requires next == if weights[m] != 0 && (NoneCounts(weights[..m]) || ratios[m] < ratios[j]) then ads[m] else before
    ensures NoneCounts(weights) <==> NoneCounts(weights[..m]) && weights[m] == 0
    ensures NextIs(next, ads, weights, ratios, k)
  {
    k := j;
    assert forall i :: 0 <= i < m ==> weights[..m][i] == weights[i] && ratios[..m][i] == ratios[i];
    if weights[m] != 0 && (NoneCounts(weights[..m]) || ratios[m] < ratios[k]) {
      k := m;
    }
  }

  lemma NextOfLast(c: Campaign, n: Counters, ads: seq<int>, m: nat, valid: seq<int>, before: int, least: real,
                   weight: int, ratio: real)
    requires |ads| == m + 1 && valid == ValidAds(c, ads[..m]) && before == NextAd(c, n, valid)
    requires valid != [] ==> ShowWeight(c, n, before) == least
    requires AdValid(c, ads[m]) <==> weight != 0
    requires weight != 0 ==> ShowWeight(c, n, ads[m]) == ratio
    ensures ValidAds(c, ads) == [] <==> valid == [] && weight == 0
    ensures NextAd(c, n, ValidAds(c, ads)) == if weight != 0 && (valid == [] || ratio < least) then ads[m] else before
  {
    ScanStep(c, n, 0, valid, ads[m]);
    assert ValidAds(c, ads) == if AdValid(c, ads[m]) then valid + [ads[m]] else valid;
  }

  lemma {:induction false} NextOfSet(c: Campaign, n: Counters, ads: seq<int>, weights: seq<int>, ratios: seq<real>)
    returns (k: nat)
    requires Weighed(c, ads, weights) && ShownRatios(n, ads, weights, ratios)
    ensures ValidAds(c, ads) == [] <==> NoneCounts(weights)
    ensures NextIs(NextAd(c, n, ValidAds(c, ads)), ads, weights, ratios, k)
    decreases |ads|
  {
    k := 0;
    if ads != [] {
      var m := |ads| - 1;
      var valid := ValidAds(c, ads[..m]);
      var before := NextAd(c, n, valid);
      var j := NextOfSet(c, n, ads[..m], weights[..m], ratios[..m]);
      if valid != [] {
        RatiosOfLast(c, n, ads, weights, ratios, j);
      }
      RatiosOfLast(c, n, ads, weights, ratios, m);
      NextOfLast(c, n, ads, m, valid, before, if valid != [] then ratios[j] else 0.0, weights[m], ratios[m]);
      k := LeastStep(ads, weights, ratios, m, j, before, NextAd(c, n, ValidAds(c, ads)));
    }
  }

  /** The ad that a group puts forward is the first that is least shown for its weight, or none. */
  lemma NextInNumbers(c: Campaign, n: Counters, group: int, weights: seq<int>, ratios: seq<real>) returns (k: nat)
    requires Weighed(c, Get(c.adSet, group, []), weights) && ShownRatios(n, Get(c.adSet, group, []), weights, ratios)
    ensures NextIs(Offer(c, n, group).ad, Get(c.adSet, group, []), weights, ratios, k)
  {
    k := NextOfSet(c, n, Get(c.adSet, group, []), weights, ratios);
  }

  // ---------------------------------------------------------------- who is let in

  /** A list that starts with a shop lets in who is in a shop of the list; one that starts with a negative number
      keeps out who is in a shop that the list has negated; no list lets everyone in. */
  ghost predicate ShopLetsIn(shops: seq<int>, user: int, shop: int) {
    && (shops != [] && shops[0] >= 0 ==> user > 0 && shop > 0 && exists i :: 0 <= i < |shops| && shops[i] == shop)
    && (shops != [] && shops[0] < 0 && user > 0 && shop > 0 ==> forall i :: 0 <= i < |shops| ==> shops[i] != -shop)
  }

  /** Each filter by itself, over what is stored about the group. */
  ghost predicate Passes(c: Campaign, v: Visitor, group: int) {
    && ShopLetsIn(Get(c.marketShops, group, []), v.user, v.shop)
    && Get(c.groupValid, group, 1) != 0
    && (forall start, end ::
          Stoll(Get(c.marketStart, group, "")) == Some(start) && Stoll(Get(c.marketEnd, group, "")) == Some(end) ==>
            start <= v.now <= end)
    && (Get(c.hours, group, []) != [] ==>
          exists i :: 0 <= i < |Get(c.hours, group, [])| && HoursFit(Get(c.hours, group, [])[i], v.tm, v.year))
    && (v.user > 0 && Get(c.targetLabels, group, []) != [] ==>
          exists name :: name in Get(c.targetLabels, group, []) && name in v.labels)
  }

  lemma MarketIs(shops: seq<int>, user: int, shop: int)
    ensures MarketAllows(shops, user, shop) <==> ShopLetsIn(shops, user, shop)
  {}

  lemma TimeIs(start: string, end: string, now: int)
    ensures TimeAllows(start, end, now)
            <==> forall a, b :: Stoll(start) == Some(a) && Stoll(end) == Some(b) ==> a <= now <= b
  {
    if Stoll(start).Some? && Stoll(end).Some? {
      assert Stoll(start) == Some(Stoll(start).value) && Stoll(end) == Some(Stoll(end).value);
    }
  }

  lemma LabelsAre(a: seq<string>, b: seq<string>)
    ensures Share(a, b) <==> exists name :: name in b && name in a
  {}

  /** A group may bid exactly if it passes every filter. */
  lemma EligiblePasses(c: Campaign, v: Visitor, group: int)
    ensures Eligible(c, v, group) <==> Passes(c, v, group)
  {
    MarketIs(Get(c.marketShops, group, []), v.user, v.shop);
    TimeIs(Get(c.marketStart, group, ""), Get(c.marketEnd, group, ""), v.now);
    LabelsAre(v.labels, Get(c.targetLabels, group, []));
  }

  /** The groups of a request: for a visitor who is not known those of the space; for a known user those of the
      space and of the location that the merge of the two lists finds. */
  lemma CandidatesAre(v: Visitor, space: seq<int>, location: seq<int>, group: int)
    requires Distinct(space) && Distinct(location)
    ensures v.user <= 0 ==> (group in Candidates(v, space, location) <==> group in space)
    ensures v.user > 0 ==> (group in Candidates(v, space, location)
                            <==> group in space && group in location && Above(space, group) == Above(location, group))
    ensures v.user > 0 && Ascending(space) && Ascending(location) ==>
              (group in Candidates(v, space, location) <==> group in space && group in location)
  {
    IntersectionFinds(space, location, group);
    if Ascending(space) && Ascending(location) {
      IntersectionIsExact(space, location, group);
    }
  }

  lemma {:induction false} IntersectionWithin(a: seq<int>, b: seq<int>, x: int)
    requires x in Intersection(a, b)
    ensures x in a && x in b
    decreases |a| + |b|
  {
    if a[0] < b[0] {
      IntersectionWithin(a[1..], b, x);
    } else if b[0] < a[0] {
      IntersectionWithin(a, b[1..], x);
    } else if x != a[0] {
      IntersectionWithin(a[1..], b[1..], x);
    }
  }

  // ---------------------------------------------------------------- winners

  lemma {:induction false} OffersAre(c: Campaign, n: Counters, v: Visitor, groups: seq<int>, x: Slot)
    ensures x in Offers(c, n, v, groups)
            <==> x.group in groups && Eligible(c, v, x.group) && x == Offer(c, n, x.group)
  {
    if groups != [] {
      var k := |groups| - 1;
      OffersAre(c, n, v, groups[..k], x);
      assert groups == groups[..k] + [groups[k]];
      assert x in OfferIf(c, n, v, groups[k]) <==> Eligible(c, v, groups[k]) && x == Offer(c, n, groups[k]);
    }
  }

  /** What is shown to a visitor: an offer of a group of the space, for a known user also of the location, that
      passes every filter, bids more than nothing, and puts forward its first least shown valid ad. */
  lemma WinnerPasses(c: Campaign, n: Counters, v: Visitor, space: seq<int>, location: seq<int>, count: nat, x: Slot)
    requires x in Winners(c, n, v, Candidates(v, space, location), count)
    ensures x.group in space && (v.user > 0 ==> x.group in location)
    ensures Passes(c, v, x.group) && x.ecpm > 0.0 && x == Offer(c, n, x.group)
    ensures x.ad in Get(c.adSet, x.group, []) && Get(c.adValid, x.ad, 1) > 0
  {
    var groups := Candidates(v, space, location);
    var offers := Offers(c, n, v, groups);
    PositiveIs(offers, x);
    RankedKeeps(Positive(offers), x);
    OffersAre(c, n, v, groups, x);
    if v.user > 0 {
      IntersectionWithin(space, location, x.group);
    }
    EligiblePasses(c, v, x.group);
    BidderHasAd(c, n, x.group);
  }

  lemma TakenOrBeaten(s: seq<Slot>, x: Slot, n: nat)
    requires Descending(s) && x in s
    ensures x in Take(s, n)
            || (|Take(s, n)| == n && forall i :: 0 <= i < n ==> Take(s, n)[i].ecpm >= x.ecpm)
  {
    var j :| 0 <= j < |s| && s[j] == x;
    if j < |Take(s, n)| {
      assert Take(s, n)[j] == x;
    }
  }

  /** And nothing better is left out: a candidate that passes and bids more than nothing is shown, or all the places
      are taken by bids at least as high. */
  lemma PassingIsShown(c: Campaign, n: Counters, v: Visitor, space: seq<int>, location: seq<int>, count: nat,
                       group: int)
    requires group in Candidates(v, space, location) && Passes(c, v, group) && ECPM(c, n, group) > 0.0
    ensures var winners := Winners(c, n, v, Candidates(v, space, location), count);
            || Offer(c, n, group) in winners
            || (|winners| == count && forall i :: 0 <= i < count ==> winners[i].ecpm >= ECPM(c, n, group))
  {
    var groups, x := Candidates(v, space, location), Offer(c, n, group);
    var offers := Offers(c, n, v, groups);
    EligiblePasses(c, v, group);
    OffersAre(c, n, v, groups, x);
    PositiveIs(offers, x);
    RankedKeeps(Positive(offers), x);
    RankedDescending(Positive(offers));
    TakenOrBeaten(Ranked(Positive(offers)), x, count);
  }

  // ---------------------------------------------------------------- charges

  /** One charge of this kind to the owner of the group, of the group's price for it, taken away. */
  ghost predicate ChargedFor(x: Charge, c: Campaign, kind: Kind, ad: int, group: int) {
    && x.kind == kind && x.ad == ad && x.group == group && x.owner == Get(c.owner, group, 0)
    && Takes(x.amount, if kind == Show then Get(c.showPrice, group, 0.0) else Get(c.clickPrice, group, 0.0))
  }

  lemma {:induction false} EmittedInOrder(s: State, c: Campaign, ads: seq<Slot>)
    ensures |Emitted(s, c, ads).ledger| == |s.ledger| + |ads| && s.ledger <= Emitted(s, c, ads).ledger
    ensures forall i :: 0 <= i < |ads| ==>
              ChargedFor(Emitted(s, c, ads).ledger[|s.ledger| + i], c, Show, ads[i].ad, ads[i].group)
  {
    if ads != [] {
      EmittedInOrder(s, c, ads[..|ads| - 1]);
    }
  }

  /** A request charges its winners in order, one show each, and nothing else. */
  lemma RequestCharges(s: State, call: Call, i: nat)
    requires call.Request? && i < |Winning(s, call)|
    ensures var after, winners := AfterCall(s, call).ledger, Winning(s, call);
            && |after| == |s.ledger| + |winners| && s.ledger <= after
            && ChargedFor(after[|s.ledger| + i], call.c, Show, winners[i].ad, winners[i].group)
  {
    EmittedInOrder(s, call.c, Winning(s, call));
  }

  /** A click on an ad of a group charges that click, and on any other ad nothing. */
  lemma TapCharges(s: State, call: Call)
    requires call.Tap?
    ensures var after, group := AfterCall(s, call).ledger, Get(call.c.groupOf, call.ad, -1);
            if group == -1 then after == s.ledger
            else && |after| == |s.ledger| + 1 && s.ledger <= after
                 && ChargedFor(after[|s.ledger|], call.c, Click, call.ad, group)
  {}
}
