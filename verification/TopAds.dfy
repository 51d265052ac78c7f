/** The running top-n of `bidding` (ad_map.cpp): three parallel arrays, shifted in place, proved to
    hold the first n of a stable descending sort. */
module TopAds {

  /** A group that bids, what it bids, and the ad it would show. */
  datatype Slot = Slot(ecpm: real, group: int, ad: int)

  const EMPTY := Slot(0.0, 0, 0)

  /** The three arrays, read side by side. */
  function Board(ecpms: seq<real>, groups: seq<int>, ads: seq<int>): (b: seq<Slot>)
    requires |ecpms| == |groups| == |ads|
    ensures |b| == |ecpms|
    ensures forall i :: 0 <= i < |b| ==> b[i] == Slot(ecpms[i], groups[i], ads[i])
  {
    seq(|ecpms|, i requires 0 <= i < |ecpms| => Slot(ecpms[i], groups[i], ads[i]))
  }

  /** Where a bid goes: after the last one that is at least as high. */
  function Place(s: seq<Slot>, ecpm: real): (p: nat)
    ensures p <= |s|
    ensures forall i :: p <= i < |s| ==> s[i].ecpm < ecpm
    ensures p > 0 ==> s[p - 1].ecpm >= ecpm
  {
    if s == [] || s[|s| - 1].ecpm >= ecpm then |s| else Place(s[..|s| - 1], ecpm)
  }

  function InsertedAt(s: seq<Slot>, x: Slot, p: nat): (r: seq<Slot>)
    requires p <= |s|
    ensures |r| == |s| + 1
    ensures forall i :: 0 <= i < |r| ==> r[i] == if i < p then s[i] else if i == p then x else s[i - 1]
  {
    s[..p] + [x] + s[p..]
  }

  function Inserted(s: seq<Slot>, x: Slot): (r: seq<Slot>) {
    InsertedAt(s, x, Place(s, x.ecpm))
  }

  function Take<T>(s: seq<T>, n: nat): (r: seq<T>)
    ensures |r| <= n && |r| <= |s| && (|r| == n || r == s) && r == s[..|r|]
  {
    if n < |s| then s[..n] else s
  }

  /** The array entries `j + 1 ..` hold the bid and what it has pushed down. */
  ghost predicate Shifting(was: seq<Slot>, now: seq<Slot>, x: Slot, j: int)
    requires -1 <= j < |was|
  {
    && |now| == |was|
    && (forall i :: 0 <= i <= j ==> now[i] == was[i])
    && (j < |was| - 1 ==> now[j + 1] == x)
    && (forall i :: j + 1 < i < |was| ==> now[i] == was[i - 1])
    && (forall i :: j < i < |was| ==> was[i].ecpm < x.ecpm)
  }

  lemma {:induction false} PlaceIs(s: seq<Slot>, ecpm: real, p: nat)
    requires p <= |s| && (forall i :: p <= i < |s| ==> s[i].ecpm < ecpm) && (p > 0 ==> s[p - 1].ecpm >= ecpm)
    ensures Place(s, ecpm) == p
  {
    if p < |s| {
      PlaceIs(s[..|s| - 1], ecpm, p);
    }
  }

  lemma ShiftingEnds(was: seq<Slot>, now: seq<Slot>, x: Slot, j: int)
    requires -1 <= j < |was| && Shifting(was, now, x, j) && (j >= 0 ==> was[j].ecpm >= x.ecpm)
    ensures now == Take(Inserted(was, x), |was|)
  {
    PlaceIs(was, x.ecpm, j + 1);
    var r := Inserted(was, x);
    forall i | 0 <= i < |was| ensures now[i] == r[i] {
      if i > j + 1 {
        assert r[i] == was[i - 1];
      }
    }
  }

  /** The bid goes to place `j`, and what was there moves down if there is a place below. */
  function Pushed(b: seq<Slot>, x: Slot, j: nat): (r: seq<Slot>)
    requires j < |b|
    ensures |r| == |b|
  {
    (if j < |b| - 1 then b[j + 1 := b[j]] else b)[j := x]
  }

  lemma ShiftingGoesOn(was: seq<Slot>, now: seq<Slot>, x: Slot, j: nat)
    requires j < |was| && Shifting(was, now, x, j) && x.ecpm > now[j].ecpm
    ensures Shifting(was, Pushed(now, x, j), x, j - 1)
  {}

  method Push(ecpms: array<real>, groups: array<int>, ads: array<int>, x: Slot, j: nat)
    requires ecpms.Length == groups.Length == ads.Length && groups != ads && j < ecpms.Length
    modifies ecpms, groups, ads
    ensures Board(ecpms[..], groups[..], ads[..]) == Pushed(old(Board(ecpms[..], groups[..], ads[..])), x, j)
  {
    if j != ecpms.Length - 1 {
      ecpms[j + 1] := ecpms[j];
      groups[j + 1] := groups[j];
      ads[j + 1] := ads[j];
    }
    ecpms[j] := x.ecpm;
    groups[j] := x.group;
    ads[j] := x.ad;
  }

  /** The loop that inserts one bid, from the last place upwards; what falls off the end is lost. */
  method Insert(ecpms: array<real>, groups: array<int>, ads: array<int>, x: Slot)
    requires ecpms.Length == groups.Length == ads.Length && groups != ads
    modifies ecpms, groups, ads
    ensures Board(ecpms[..], groups[..], ads[..]) ==
            Take(Inserted(old(Board(ecpms[..], groups[..], ads[..])), x), ecpms.Length)
  {
    ghost var was := Board(ecpms[..], groups[..], ads[..]);
    ghost var now := was;
    var j := ecpms.Length - 1;
    while j >= 0 && x.ecpm > ecpms[j]
      invariant -1 <= j < ecpms.Length && |was| == ecpms.Length
      invariant now == Board(ecpms[..], groups[..], ads[..]) && Shifting(was, now, x, j)
    {
      ShiftingGoesOn(was, now, x, j);
      Push(ecpms, groups, ads, x, j);
      now := Pushed(now, x, j);
      j := j - 1;
    }
    assert j >= 0 ==> now[j] == was[j];
    ShiftingEnds(was, now, x, j);
  }

  // ---------------------------------------------------------------- what the board holds

  /** The bids that count, in the order in which they were made. */
  function Positive(s: seq<Slot>): (r: seq<Slot>)
    ensures forall i :: 0 <= i < |r| ==> r[i].ecpm > 0.0
  {
    if s == [] then [] else Positive(s[..|s| - 1]) + (if s[|s| - 1].ecpm > 0.0 then [s[|s| - 1]] else [])
  }

  /** All of them in descending order, earlier ones first among equals. */
  function Ranked(s: seq<Slot>): (r: seq<Slot>)
    ensures |r| == |s|
  {
    if s == [] then [] else Inserted(Ranked(s[..|s| - 1]), s[|s| - 1])
  }

  function Empties(n: nat): seq<Slot> {
    seq(n, _ => EMPTY)
  }

  /** The first `n`, filled up with empty slots. */
  function Padded(s: seq<Slot>, n: nat): (r: seq<Slot>)
    ensures |r| == n && forall i :: 0 <= i < n ==> r[i] == if i < |s| then s[i] else EMPTY
  {
    Take(s, n) + Empties(n - |Take(s, n)|)
  }

  function TopOf(s: seq<Slot>, n: nat): seq<Slot> {
    Padded(Ranked(Positive(s)), n)
  }

  ghost predicate Descending(s: seq<Slot>) {
    forall i, j :: 0 <= i < j < |s| ==> s[i].ecpm >= s[j].ecpm
  }

  lemma InsertedDescending(s: seq<Slot>, x: Slot)
    requires Descending(s)
    ensures Descending(Inserted(s, x))
  {
    var p, r := Place(s, x.ecpm), Inserted(s, x);
    forall i, j | 0 <= i < j < |r| ensures r[i].ecpm >= r[j].ecpm {
      if i < p && j == p {
        assert s[i].ecpm >= s[p - 1].ecpm;
      }
    }
  }

  lemma {:induction false} RankedDescending(s: seq<Slot>)
    ensures Descending(Ranked(s))
  {
    if s != [] {
      RankedDescending(s[..|s| - 1]);
      InsertedDescending(Ranked(s[..|s| - 1]), s[|s| - 1]);
    }
  }

  /** The bids of one height, in order. */
  function Level(s: seq<Slot>, ecpm: real): seq<Slot> {
    if s == [] then [] else Level(s[..|s| - 1], ecpm) + (if s[|s| - 1].ecpm == ecpm then [s[|s| - 1]] else [])
  }

  lemma {:induction false} LevelAppend(a: seq<Slot>, b: seq<Slot>, ecpm: real)
    ensures Level(a + b, ecpm) == Level(a, ecpm) + Level(b, ecpm)
  {
    if b == [] {
      assert a + b == a;
    } else {
      assert (a + b)[..|a + b| - 1] == a + b[..|b| - 1];
      LevelAppend(a, b[..|b| - 1], ecpm);
    }
  }

  lemma {:induction false} LevelEmpty(s: seq<Slot>, ecpm: real)
    requires forall i :: 0 <= i < |s| ==> s[i].ecpm != ecpm
    ensures Level(s, ecpm) == []
  {
    if s != [] {
      LevelEmpty(s[..|s| - 1], ecpm);
    }
  }

  lemma LevelOne(x: Slot, ecpm: real)
    ensures Level([x], ecpm) == if x.ecpm == ecpm then [x] else []
  {
    assert Level([x], ecpm) == Level([], ecpm) + (if x.ecpm == ecpm then [x] else []);
  }

  lemma LevelBetween(upper: seq<Slot>, x: Slot, lower: seq<Slot>, ecpm: real)
    requires forall i :: 0 <= i < |lower| ==> lower[i].ecpm < x.ecpm
    ensures Level(upper + [x] + lower, ecpm) == Level(upper + lower, ecpm) + (if x.ecpm == ecpm then [x] else [])
  {
    LevelAppend(upper, lower, ecpm);
    LevelAppend(upper + [x], lower, ecpm);
    LevelAppend(upper, [x], ecpm);
    LevelOne(x, ecpm);
    if x.ecpm == ecpm {
      LevelEmpty(lower, ecpm);
    }
  }

  lemma InsertedLevel(s: seq<Slot>, x: Slot, ecpm: real)
    ensures Level(Inserted(s, x), ecpm) == Level(s, ecpm) + (if x.ecpm == ecpm then [x] else [])
  {
    var p := Place(s, x.ecpm);
    assert s == s[..p] + s[p..] && Inserted(s, x) == s[..p] + [x] + s[p..];
    LevelBetween(s[..p], x, s[p..], ecpm);
  }

  /** The ranking is the stable one: it keeps the bids of every height, in their order. */
  lemma {:induction false} RankedStable(s: seq<Slot>, ecpm: real)
    ensures Level(Ranked(s), ecpm) == Level(s, ecpm)
  {
    if s != [] {
      RankedStable(s[..|s| - 1], ecpm);
      InsertedLevel(Ranked(s[..|s| - 1]), s[|s| - 1], ecpm);
    }
  }

  lemma {:induction false} LevelIs(s: seq<Slot>, ecpm: real, x: Slot)
    ensures x in Level(s, ecpm) <==> x in s && x.ecpm == ecpm
  {
    if s != [] {
      var k := |s| - 1;
      assert s == s[..k] + [s[k]];
      LevelIs(s[..k], ecpm, x);
    }
  }

  /** The ranking loses no bid and adds none. */
  lemma RankedKeeps(s: seq<Slot>, x: Slot)
    ensures x in Ranked(s) <==> x in s
  {
    RankedStable(s, x.ecpm);
    LevelIs(s, x.ecpm, x);
    LevelIs(Ranked(s), x.ecpm, x);
  }

  lemma {:induction false} PositiveIs(s: seq<Slot>, x: Slot)
    ensures x in Positive(s) <==> x in s && x.ecpm > 0.0
  {
    if s != [] {
      var k := |s| - 1;
      assert s == s[..k] + [s[k]];
      PositiveIs(s[..k], x);
    }
  }

  ghost predicate SameLevels(a: seq<Slot>, b: seq<Slot>) {
    forall ecpm :: Level(a, ecpm) == Level(b, ecpm)
  }

  /** Nothing else is: two descending sequences with the same bids of every height are equal. */
  lemma {:induction false} LevelsDetermine(a: seq<Slot>, b: seq<Slot>)
    requires Descending(a) && Descending(b) && SameLevels(a, b)
    ensures a == b
    decreases |a|
  {
    if a == [] || b == [] {
      LevelsOfEmpty(a, b);
    } else {
      var m, n := |a| - 1, |b| - 1;
      LastLevel(a, b);
      LastLevel(b, a);
      var ecpm := a[m].ecpm;
      assert Level(a, ecpm)[|Level(a, ecpm)| - 1] == a[m] && Level(b, ecpm)[|Level(b, ecpm)| - 1] == b[n];
      assert b[n].ecpm == ecpm && a[m] == b[n];
      forall e ensures Level(a[..m], e) == Level(b[..n], e) {
        assert Level(a, e) == Level(b, e);
        SameButLast(Level(a[..m], e), Level(b[..n], e), if ecpm == e then [a[m]] else []);
      }
      LevelsDetermine(a[..m], b[..n]);
    }
  }

  lemma SameButLast(a: seq<Slot>, b: seq<Slot>, end: seq<Slot>)
    requires a + end == b + end
    ensures a == b
  {
    assert |a| == |b|;
    assert (a + end)[..|a|] == a && (b + end)[..|b|] == b;
  }

  lemma LevelOfLast(s: seq<Slot>)
    requires s != []
    ensures Level(s, s[|s| - 1].ecpm) != []
  {}

  lemma LevelsOfEmpty(a: seq<Slot>, b: seq<Slot>)
    requires (a == [] || b == []) && SameLevels(a, b)
    ensures a == b
  {
    if a != [] {
      LevelOfLast(a);
    }
    if b != [] {
      LevelOfLast(b);
    }
  }

  lemma LastLevel(a: seq<Slot>, b: seq<Slot>)
    requires a != [] && b != [] && Descending(b) && SameLevels(a, b)
    ensures b[|b| - 1].ecpm <= a[|a| - 1].ecpm
  {
    var ecpm := a[|a| - 1].ecpm;
    assert Level(b, ecpm) == Level(a, ecpm) != [];
    if b[|b| - 1].ecpm > ecpm {
      LevelEmpty(b, ecpm);
    }
  }

  /** So the ranking is the only descending order that keeps ties as they were. */
  lemma RankedIsTheStableSort(s: seq<Slot>, r: seq<Slot>)
    ensures r == Ranked(s) <==> Descending(r) && SameLevels(r, s)
  {
    RankedDescending(s);
    forall ecpm ensures Level(Ranked(s), ecpm) == Level(s, ecpm) {
      RankedStable(s, ecpm);
    }
    assert SameLevels(Ranked(s), s);
    if Descending(r) && SameLevels(r, s) {
      LevelsDetermine(r, Ranked(s));
    }
  }

  lemma InsertedAtPadded(s: seq<Slot>, x: Slot, n: nat, p: nat, q: nat)
    requires p <= |s| && q == (if p < n then p else n)
    ensures Take(InsertedAt(Padded(s, n), x, q), n) == Padded(InsertedAt(s, x, p), n)
  {
    var t := Padded(s, n);
    forall i | 0 <= i < n ensures InsertedAt(t, x, q)[i] == Padded(InsertedAt(s, x, p), n)[i] {
      if i > q {
        assert InsertedAt(t, x, q)[i] == t[i - 1];
      }
    }
  }

  lemma InsertedTop(s: seq<Slot>, x: Slot, n: nat)
    requires Descending(s) && x.ecpm > 0.0
    ensures Take(Inserted(Padded(s, n), x), n) == Padded(Inserted(s, x), n)
  {
    var p := Place(s, x.ecpm);
    var q := if p < n then p else n;
    PlacePadded(s, x.ecpm, n, q);
    InsertedAtPadded(s, x, n, p, q);
  }

  lemma PlacePadded(s: seq<Slot>, ecpm: real, n: nat, q: nat)
    requires Descending(s) && ecpm > 0.0 && q == (if Place(s, ecpm) < n then Place(s, ecpm) else n)
    ensures Place(Padded(s, n), ecpm) == q
  {
    if q > 0 {
      assert s[q - 1].ecpm >= s[Place(s, ecpm) - 1].ecpm;
    }
    PlaceIs(Padded(s, n), ecpm, q);
  }

  lemma NothingInserted(s: seq<Slot>, x: Slot, n: nat)
    requires (forall i :: 0 <= i < |s| ==> s[i].ecpm > 0.0) && x.ecpm <= 0.0
    ensures Take(Inserted(Padded(s, n), x), n) == Padded(s, n)
  {
    PlaceIs(Padded(s, n), x.ecpm, n);
  }

  lemma {:induction false} RankedPositive(s: seq<Slot>)
    requires forall i :: 0 <= i < |s| ==> s[i].ecpm > 0.0
    ensures forall i :: 0 <= i < |s| ==> Ranked(s)[i].ecpm > 0.0
  {
    if s != [] {
      RankedPositive(s[..|s| - 1]);
    }
  }

  /** Inserting one more bid keeps the board the top of all bids. */
  lemma TopGrows(s: seq<Slot>, x: Slot, n: nat)
    ensures Take(Inserted(TopOf(s, n), x), n) == TopOf(s + [x], n)
  {
    var bids := Positive(s);
    RankedDescending(bids);
    RankedPositive(bids);
    PositiveGrows(s, x);
    if x.ecpm > 0.0 {
      InsertedTop(Ranked(bids), x, n);
      assert (bids + [x])[..|bids|] == bids;
    } else {
      NothingInserted(Ranked(bids), x, n);
    }
  }

  lemma PositiveGrows(s: seq<Slot>, x: Slot)
    ensures Positive(s + [x]) == if x.ecpm > 0.0 then Positive(s) + [x] else Positive(s)
  {
    assert (s + [x])[..|s|] == s;
  }
}
