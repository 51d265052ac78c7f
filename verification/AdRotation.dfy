/** Proportional rotation (ad_map.cpp): always showing the ad with the least (shows + 1) / weight is
    highest-averages apportionment, with quota bounds over every run. */
module AdRotation {

  /** One ad's count and weight. */
  datatype Tally = Tally(shows: int, weight: int)

  ghost predicate Counting(t: seq<Tally>) {
    forall i :: 0 <= i < |t| ==> t[i].shows >= 0 && t[i].weight > 0
  }

  /** The step invariant: no ad is ahead of another by more than one show of its own. */
  ghost predicate Balanced(t: seq<Tally>) {
    forall i, j :: 0 <= i < |t| && 0 <= j < |t| ==> t[i].shows * t[j].weight <= (t[j].shows + 1) * t[i].weight
  }

  /** Ad `k` has the least (shows + 1) / weight, cross-multiplied. */
  ghost predicate Least(t: seq<Tally>, k: nat)
    requires k < |t|
  {
    forall i :: 0 <= i < |t| ==> (t[k].shows + 1) * t[i].weight <= (t[i].shows + 1) * t[k].weight
  }

  function Shown(t: seq<Tally>, k: nat): (r: seq<Tally>)
    requires k < |t|
    ensures |r| == |t| && forall i :: 0 <= i < |t| ==>
            r[i].weight == t[i].weight && r[i].shows == t[i].shows + (if i == k then 1 else 0)
  {
    t[k := Tally(t[k].shows + 1, t[k].weight)]
  }

  lemma ShownBalanced(t: seq<Tally>, k: nat)
    requires Counting(t) && Balanced(t) && k < |t| && Least(t, k)
    ensures Counting(Shown(t, k)) && Balanced(Shown(t, k))
  {
    var r := Shown(t, k);
    forall i, j | 0 <= i < |t| && 0 <= j < |t| ensures r[i].shows * r[j].weight <= (r[j].shows + 1) * r[i].weight {
      assert t[i].shows * t[j].weight <= (t[j].shows + 1) * t[i].weight;
      if i == k && j != k {
        assert (t[k].shows + 1) * t[j].weight <= (t[j].shows + 1) * t[k].weight;
      } else if j == k {
        assert (t[j].shows + 2) * t[i].weight == (t[j].shows + 1) * t[i].weight + t[i].weight;
        if i == k {
          assert (t[k].shows + 1) * t[k].weight <= (t[k].shows + 2) * t[k].weight;
        }
      }
    }
  }

  lemma FreshBalanced(t: seq<Tally>)
    requires Counting(t) && forall i :: 0 <= i < |t| ==> t[i].shows == 0
    ensures Balanced(t)
  {
    forall i, j | 0 <= i < |t| && 0 <= j < |t| ensures t[i].shows * t[j].weight <= (t[j].shows + 1) * t[i].weight {
      assert t[i].shows * t[j].weight == 0;
    }
  }

  function TotalShows(t: seq<Tally>): int {
    if t == [] then 0 else TotalShows(t[..|t| - 1]) + t[|t| - 1].shows
  }

  function TotalWeight(t: seq<Tally>): int {
    if t == [] then 0 else TotalWeight(t[..|t| - 1]) + t[|t| - 1].weight
  }

  /** The step invariant of `x` against each of `t`, added up. */
  lemma {:induction false} LowerSum(x: Tally, t: seq<Tally>)
    requires forall j :: 0 <= j < |t| ==> t[j].shows * x.weight <= (x.shows + 1) * t[j].weight
    ensures TotalShows(t) * x.weight <= (x.shows + 1) * TotalWeight(t)
  {
    if t != [] {
      var n := |t| - 1;
      LowerSum(x, t[..n]);
      assert (TotalShows(t[..n]) + t[n].shows) * x.weight == TotalShows(t[..n]) * x.weight + t[n].shows * x.weight;
      assert (x.shows + 1) * (TotalWeight(t[..n]) + t[n].weight) ==
             (x.shows + 1) * TotalWeight(t[..n]) + (x.shows + 1) * t[n].weight;
    }
  }

  lemma {:induction false} UpperSum(x: Tally, t: seq<Tally>)
    requires forall j :: 0 <= j < |t| ==> x.shows * t[j].weight <= (t[j].shows + 1) * x.weight
    ensures x.shows * TotalWeight(t) <= (TotalShows(t) + |t|) * x.weight
  {
    if t != [] {
      var n := |t| - 1;
      UpperSum(x, t[..n]);
      assert x.shows * (TotalWeight(t[..n]) + t[n].weight) == x.shows * TotalWeight(t[..n]) + x.shows * t[n].weight;
      assert (TotalShows(t[..n]) + t[n].shows + n + 1) * x.weight ==
             (TotalShows(t[..n]) + n) * x.weight + (t[n].shows + 1) * x.weight;
    }
  }

  function Others(t: seq<Tally>, k: nat): (r: seq<Tally>)
    requires k < |t|
    ensures |r| == |t| - 1 && forall j :: 0 <= j < |r| ==> r[j] == t[if j < k then j else j + 1]
  {
    t[..k] + t[k + 1..]
  }

  lemma {:induction false} TotalsAppend(a: seq<Tally>, b: seq<Tally>)
    ensures TotalShows(a + b) == TotalShows(a) + TotalShows(b) && TotalWeight(a + b) == TotalWeight(a) + TotalWeight(b)
  {
    if b == [] {
      assert a + b == a;
    } else {
      assert (a + b)[..|a + b| - 1] == a + b[..|b| - 1];
      TotalsAppend(a, b[..|b| - 1]);
    }
  }

  lemma TotalsLast(a: seq<Tally>, x: Tally)
    ensures TotalShows(a + [x]) == TotalShows(a) + x.shows && TotalWeight(a + [x]) == TotalWeight(a) + x.weight
  {
    assert (a + [x])[..|a|] == a;
  }

  lemma Around(t: seq<Tally>, k: nat)
    requires k < |t|
    ensures t == (t[..k] + [t[k]]) + t[k + 1..] && Others(t, k) == t[..k] + t[k + 1..]
  {}

  lemma OthersTotals(t: seq<Tally>, k: nat)
    requires k < |t|
    ensures TotalShows(Others(t, k)) == TotalShows(t) - t[k].shows
    ensures TotalWeight(Others(t, k)) == TotalWeight(t) - t[k].weight
  {
    var a, b := t[..k], t[k + 1..];
    Around(t, k);
    TotalsAppend(a + [t[k]], b);
    TotalsLast(a, t[k]);
    TotalsAppend(a, b);
  }

  lemma OthersBalanced(t: seq<Tally>, k: nat)
    requires Balanced(t) && k < |t|
    ensures forall j :: 0 <= j < |t| - 1 ==>
            Others(t, k)[j].shows * t[k].weight <= (t[k].shows + 1) * Others(t, k)[j].weight
    ensures forall j :: 0 <= j < |t| - 1 ==>
            t[k].shows * Others(t, k)[j].weight <= (Others(t, k)[j].shows + 1) * t[k].weight
  {
    forall j | 0 <= j < |t| - 1
      ensures Others(t, k)[j].shows * t[k].weight <= (t[k].shows + 1) * Others(t, k)[j].weight
      ensures t[k].shows * Others(t, k)[j].weight <= (Others(t, k)[j].shows + 1) * t[k].weight
    {
      var i := if j < k then j else j + 1;
      assert Others(t, k)[j] == t[i];
    }
  }

  /** The step invariant of `x` against `m` ads with these totals, added up. */
  ghost predicate FairTo(x: Tally, shows: int, weights: int, m: int) {
    shows * x.weight <= (x.shows + 1) * weights && x.shows * weights <= (shows + m) * x.weight
  }

  lemma OthersSums(t: seq<Tally>, k: nat)
    requires Balanced(t) && k < |t|
    ensures FairTo(t[k], TotalShows(Others(t, k)), TotalWeight(Others(t, k)), |Others(t, k)|)
  {
    OthersBalanced(t, k);
    LowerSum(t[k], Others(t, k));
    UpperSum(t[k], Others(t, k));
  }

  /** Both quota bounds: of `shows` shows, with the weights of `m` ads adding up to `weights`, an ad
      gets at least and at most its part. */
  ghost predicate WithinQuota(x: Tally, shows: int, weights: int, m: int) {
    (shows + 1) * x.weight <= (x.shows + 1) * weights && x.shows * weights <= (shows + m - 1) * x.weight
  }

  lemma QuotaBounds(t: seq<Tally>, k: nat)
    requires Balanced(t) && k < |t|
    ensures WithinQuota(t[k], TotalShows(t), TotalWeight(t), |t|)
  {
    OthersTotals(t, k);
    OthersSums(t, k);
    Spread(t[k], TotalShows(t), TotalWeight(t), |t|, TotalShows(Others(t, k)), TotalWeight(Others(t, k)),
           |Others(t, k)|);
  }

  lemma Spread(x: Tally, shows: int, weights: int, m: int, n: int, w: int, k: int)
    requires shows == n + x.shows && weights == w + x.weight && m == k + 1 && FairTo(x, n, w, k)
    ensures WithinQuota(x, shows, weights, m)
  {
    var s, v := x.shows, x.weight;
    assert (n + s + 1) * v == n * v + (s + 1) * v;
    assert (s + 1) * (w + v) == (s + 1) * w + (s + 1) * v;
    assert s * (w + v) == s * w + s * v;
    assert (n + s + k) * v == (n + k) * v + s * v;
  }

  lemma {:induction false} TotalsBound(t: seq<Tally>)
    requires Counting(t)
    ensures TotalWeight(t) >= |t| && TotalShows(t) >= 0
  {
    if t != [] {
      TotalsBound(t[..|t| - 1]);
    }
  }

  /** In whole shows: an ad never falls below its quota rounded down. */
  lemma LowerQuota(t: seq<Tally>, k: nat)
    requires Counting(t) && Balanced(t) && k < |t|
    ensures TotalWeight(t) > 0 && t[k].shows >= TotalShows(t) * t[k].weight / TotalWeight(t)
  {
    TotalsBound(t);
    QuotaBounds(t, k);
    Floor(TotalShows(t), t[k].weight, t[k].shows, TotalWeight(t));
  }

  lemma Floor(n: int, w: int, s: int, total: int)
    requires (n + 1) * w <= (s + 1) * total && w > 0 && total > 0
    ensures s >= n * w / total
  {
    assert (n + 1) * w == n * w + w;
    if s < n * w / total {
      Multiply(s + 1, n * w / total, total);
      Divided(n * w, total);
    }
  }

  lemma Divided(a: int, b: int)
    requires b > 0
    ensures a / b * b <= a
  {}

  lemma Multiply(a: int, b: int, c: int)
    requires a <= b && c >= 0
    ensures a * c <= b * c
  {}
}
