/** What is stored about the ad groups of a mall, which groups may bid, and what they bid
    (ad_map.cpp). */
module AdCampaign {
  import opened Common
  import opened CronTiming

  /** A stored `cron_timing` record. */
  datatype Hours = Hours(bytes: seq<bv8>, calendar: Calendar)

  /** The stored settings of one mall, keyed by group id or by ad id. */
  datatype Campaign = Campaign(
    adSet: map<int, seq<int>>,
    showPrice: map<int, real>,
    clickPrice: map<int, real>,
    groupValid: map<int, int>,
    marketShops: map<int, seq<int>>,
    marketStart: map<int, string>,
    marketEnd: map<int, string>,
    hours: map<int, seq<Hours>>,
    targetLabels: map<int, seq<string>>,
    owner: map<int, int>,
    adValid: map<int, int>,
    weight: map<int, int>,
    groupOf: map<int, int>)

  datatype Counters = Counters(shows: map<int, int>, clicks: map<int, int>)

  const NEW_AD_MIN_SHOW_COUNT := 100
  const NEW_AD_CTR := 0.05

  // ---------------------------------------------------------------- bids

  predicate AdValid(c: Campaign, ad: int) {
    Get(c.adValid, ad, 1) > 0
  }

  function ValidAds(c: Campaign, ads: seq<int>): (valid: seq<int>)
    ensures forall i :: 0 <= i < |valid| ==> valid[i] in ads && AdValid(c, valid[i])
  {
    if ads == [] then []
    else ValidAds(c, ads[..|ads| - 1]) + (if AdValid(c, ads[|ads| - 1]) then [ads[|ads| - 1]] else [])
  }

  /** An unset weight counts as 1. */
  function Weight(c: Campaign, ad: int): (w: int)
    ensures w != 0
  {
    if Get(c.weight, ad, 0) == 0 then 1 else Get(c.weight, ad, 0)
  }

  /** What a thousand shows of an ad are expected to earn. */
  function AdECPM(c: Campaign, n: Counters, group: int, ad: int): real {
    var shows, clicks := Get(n.shows, ad, 0), Get(n.clicks, ad, 0);
    var show, click := Get(c.showPrice, group, 0.0), Get(c.clickPrice, group, 0.0);
    if shows < NEW_AD_MIN_SHOW_COUNT then 1000.0 * show + 1000.0 * click * NEW_AD_CTR
    else 1000.0 * show + 1000.0 * click * clicks as real / shows as real
  }

  function Weighted(ecpm: real, weight: int): real {
    ecpm * weight as real
  }

  /** The mean, or zero if the weights add up to zero. */
  function Mean(sum: real, weights: int): real {
    if weights == 0 then 0.0 else sum / weights as real
  }

  function SumWeight(c: Campaign, ads: seq<int>): int {
    if ads == [] then 0 else SumWeight(c, ads[..|ads| - 1]) + Weight(c, ads[|ads| - 1])
  }

  function SumECPM(c: Campaign, n: Counters, group: int, ads: seq<int>): real {
    if ads == [] then 0.0
    else
      var ad := ads[|ads| - 1];
      SumECPM(c, n, group, ads[..|ads| - 1]) + Weighted(AdECPM(c, n, group, ad), Weight(c, ad))
  }

  /** What a group bids: the weighted mean over its valid ads. */
  function ECPM(c: Campaign, n: Counters, group: int): real {
    var ads := ValidAds(c, Get(c.adSet, group, []));
    Mean(SumECPM(c, n, group, ads), SumWeight(c, ads))
  }

  /** How much shown an ad would be after one more show. */
  function ShowWeight(c: Campaign, n: Counters, ad: int): real {
    (Get(n.shows, ad, 0) as real + 1.0) / Weight(c, ad) as real
  }

  /** The first ad that is least shown for its weight. */
  ghost predicate FirstLeast(c: Campaign, n: Counters, ads: seq<int>, k: nat)
    requires k < |ads|
  {
    && (forall i :: 0 <= i < |ads| ==> ShowWeight(c, n, ads[k]) <= ShowWeight(c, n, ads[i]))
    && (forall i :: 0 <= i < k ==> ShowWeight(c, n, ads[k]) < ShowWeight(c, n, ads[i]))
  }

  const NO_AD := -1

  function NextAd(c: Campaign, n: Counters, ads: seq<int>): int {
    if ads == [] then NO_AD
    else if |ads| == 1 || ShowWeight(c, n, ads[|ads| - 1]) < ShowWeight(c, n, NextAd(c, n, ads[..|ads| - 1]))
    then ads[|ads| - 1]
    else NextAd(c, n, ads[..|ads| - 1])
  }

  lemma {:induction false} NextAdIsFirstLeast(c: Campaign, n: Counters, ads: seq<int>) returns (k: nat)
    requires ads != []
    ensures k < |ads| && NextAd(c, n, ads) == ads[k] && FirstLeast(c, n, ads, k)
  {
    var last := |ads| - 1;
    if last == 0 {
      k := 0;
    } else {
      k := NextAdIsFirstLeast(c, n, ads[..last]);
      if ShowWeight(c, n, ads[last]) < ShowWeight(c, n, ads[k]) {
        k := last;
      }
      forall i | 0 <= i < last ensures ads[i] == ads[..last][i] {}
    }
  }

  lemma ScanStep(c: Campaign, n: Counters, group: int, valid: seq<int>, ad: int)
    ensures SumWeight(c, valid + [ad]) == SumWeight(c, valid) + Weight(c, ad)
    ensures SumECPM(c, n, group, valid + [ad]) ==
            SumECPM(c, n, group, valid) + Weighted(AdECPM(c, n, group, ad), Weight(c, ad))
    ensures NextAd(c, n, valid + [ad]) ==
            if valid == [] || ShowWeight(c, n, ad) < ShowWeight(c, n, NextAd(c, n, valid))
            then ad else NextAd(c, n, valid)
  {
    assert (valid + [ad])[..|valid|] == valid;
  }

  lemma ValidStep(c: Campaign, ads: seq<int>, i: nat)
    requires i < |ads|
    ensures ValidAds(c, ads[..i + 1]) == ValidAds(c, ads[..i]) + (if AdValid(c, ads[i]) then [ads[i]] else [])
  {
    assert ads[..i + 1][..i] == ads[..i];
  }

  lemma {:induction false} ValidAdsAre(c: Campaign, ads: seq<int>, ad: int)
    ensures ad in ValidAds(c, ads) <==> ad in ads && Get(c.adValid, ad, 1) > 0
  {
    if ads != [] {
      var k := |ads| - 1;
      assert ads == ads[..k] + [ads[k]];
      ValidAdsAre(c, ads[..k], ad);
    }
  }

  /** `get_eCPM`: one pass over the set that adds up the bid and finds the next ad. */
  method GetECPM(c: Campaign, n: Counters, group: int) returns (ecpm: real, next: int)
    ensures ecpm == ECPM(c, n, group)
    ensures next == NextAd(c, n, ValidAds(c, Get(c.adSet, group, [])))
  {
    var ads := Get(c.adSet, group, []);
    var sumWeight, sumECPM, least: real := 0, 0.0, 0.0;
    var found := false;
    next := NO_AD;
    ghost var valid := [];
    for i := 0 to |ads|
      invariant valid == ValidAds(c, ads[..i])
      invariant sumWeight == SumWeight(c, valid)
      invariant sumECPM == SumECPM(c, n, group, valid)
      invariant next == NextAd(c, n, valid) && found == (valid != [])
      invariant found ==> least == ShowWeight(c, n, next)
    {
      var ad := ads[i];
      ValidStep(c, ads, i);
      if !AdValid(c, ad) {
        continue;
      }
      ScanStep(c, n, group, valid, ad);
      sumECPM := sumECPM + Weighted(AdECPM(c, n, group, ad), Weight(c, ad));
      sumWeight := sumWeight + Weight(c, ad);
      var showWeight := ShowWeight(c, n, ad);
      if !found || showWeight < least {
        least, next, found := showWeight, ad, true;
      }
      valid := valid + [ad];
    }
    assert ads[..|ads|] == ads;
    ecpm := Mean(sumECPM, sumWeight);
  }

  /** A group that bids anything but zero has a valid ad to show, whatever the weights. */
  lemma BidderHasAd(c: Campaign, n: Counters, group: int)
    requires ECPM(c, n, group) != 0.0
    ensures var next := NextAd(c, n, ValidAds(c, Get(c.adSet, group, [])));
            next in Get(c.adSet, group, []) && AdValid(c, next)
  {
    var ads := ValidAds(c, Get(c.adSet, group, []));
    assert Mean(SumECPM(c, n, group, []), SumWeight(c, [])) == 0.0;
    assert ads != [];
    var k := NextAdIsFirstLeast(c, n, ads);
  }

  /** `sum` is a weighted sum, of these total weights, of values between `low` and `high`. */
  ghost predicate SumBetween(sum: real, weights: int, low: real, high: real) {
    low * weights as real <= sum <= high * weights as real
  }

  lemma SumBetweenGrows(sum: real, weights: int, low: real, high: real, e: real, w: int)
    requires SumBetween(sum, weights, low, high) && low <= e <= high && w > 0
    ensures SumBetween(sum + Weighted(e, w), weights + w, low, high)
  {
    MeanStep(low, high, e, w as real, weights as real, sum);
    assert (weights + w) as real == weights as real + w as real;
  }

  lemma MeanStep(low: real, high: real, e: real, w: real, weights: real, sum: real)
    requires low <= e <= high && w > 0.0 && low * weights <= sum <= high * weights
    ensures low * (weights + w) <= sum + e * w <= high * (weights + w)
  {
    assert low * w <= e * w <= high * w;
    assert low * (weights + w) == low * weights + low * w && high * (weights + w) == high * weights + high * w;
  }

  ghost predicate AllBetween(c: Campaign, n: Counters, group: int, ads: seq<int>, low: real, high: real) {
    forall i :: 0 <= i < |ads| ==> Weight(c, ads[i]) > 0 && low <= AdECPM(c, n, group, ads[i]) <= high
  }

  lemma {:induction false} SumBounds(c: Campaign, n: Counters, group: int, ads: seq<int>, low: real, high: real)
    requires AllBetween(c, n, group, ads, low, high)
    ensures SumBetween(SumECPM(c, n, group, ads), SumWeight(c, ads), low, high) && SumWeight(c, ads) >= |ads|
  {
    if ads != [] {
      var k := |ads| - 1;
      SumBounds(c, n, group, ads[..k], low, high);
      SumBetweenGrows(SumECPM(c, n, group, ads[..k]), SumWeight(c, ads[..k]), low, high, AdECPM(c, n, group, ads[k]),
                      Weight(c, ads[k]));
    }
  }

  /** With positive weights the bid lies between the least and the greatest that an ad would earn. */
  lemma BidIsMean(c: Campaign, n: Counters, group: int, low: real, high: real)
    requires ValidAds(c, Get(c.adSet, group, [])) != []
    requires AllBetween(c, n, group, ValidAds(c, Get(c.adSet, group, [])), low, high)
    ensures low <= ECPM(c, n, group) <= high
  {
    var ads := ValidAds(c, Get(c.adSet, group, []));
    SumBounds(c, n, group, ads, low, high);
    MeanBetween(SumECPM(c, n, group, ads), SumWeight(c, ads), low, high);
  }

  lemma MeanBetween(sum: real, weights: int, low: real, high: real)
    requires weights > 0 && SumBetween(sum, weights, low, high)
    ensures low <= Mean(sum, weights) <= high
  {
    var mean, w := Mean(sum, weights), weights as real;
    assert mean * w == sum;
    Cancel(low, mean, w);
    Cancel(mean, high, w);
  }

  lemma Cancel(a: real, b: real, w: real)
    requires a * w <= b * w && w > 0.0
    ensures a <= b
  {
    assert b < a ==> b * w < a * w;
  }
}
