/** The filters that an ad group passes before it may bid (ad_map.cpp). */
module AdEligibility {
  import opened Common
  import opened CronText
  import opened CronFields
  import opened CronRecord
  import opened CronTiming
  import opened AdCampaign

  // ---------------------------------------------------------------- by shop

  /** A list that starts with a negative number names the shops that are shut out, negated. */
  predicate MarketAllows(shops: seq<int>, user: int, shop: int) {
    if shops == [] then true
    else if shops[0] >= 0 then user > 0 && shop > 0 && shop in shops
    else !(user > 0 && shop > 0 && -shop in shops)
  }

  method CheckMarketShop(shops: seq<int>, user: int, shop: int) returns (ok: bool)
    ensures ok == MarketAllows(shops, user, shop)
  {
    if |shops| > 0 {
      var wanted := if shops[0] >= 0 then shop else -shop;
      if user > 0 && shop > 0 {
        var i := 0;
        while i < |shops|
          invariant 0 <= i <= |shops| && wanted !in shops[..i]
        {
          if shops[i] == wanted {
            return shops[0] >= 0;
          }
          i := i + 1;
        }
      }
      return shops[0] < 0;
    }
    return true;
  }

  /** Negating every shop of a list turns the choice round for a user who is in a shop; anyone else
      is let in by the negated list only. */
  lemma ReverseSelection(shops: seq<int>, reverse: seq<int>, user: int, shop: int)
    requires shops != [] && |reverse| == |shops| && forall i :: 0 <= i < |shops| ==>
             shops[i] > 0 && reverse[i] == -shops[i]
    ensures MarketAllows(reverse, user, shop) <==> !MarketAllows(shops, user, shop)
  {
    assert -shop in reverse <==> shop in shops by {
      if shop in shops {
        var i :| 0 <= i < |shops| && shops[i] == shop;
        assert reverse[i] == -shop;
      }
      if -shop in reverse {
        var i :| 0 <= i < |shops| && reverse[i] == -shop;
        assert shops[i] == shop;
      }
    }
  }

  // ---------------------------------------------------------------- by time

  function DigitsEnd(s: string, p: nat): (q: nat)
    requires p <= |s|
    ensures p <= q <= |s| && AllDigits(s[p..q])
    decreases |s| - p
  {
    if p < |s| && IsDigit(s[p]) then
      assert forall i :: p < i < DigitsEnd(s, p + 1) ==> s[i] == s[p + 1..DigitsEnd(s, p + 1)][i - (p + 1)];
      DigitsEnd(s, p + 1)
    else p
  }

  const LLONG_MIN := -0x8000_0000_0000_0000
  const LLONG_MAX := 0x7fff_ffff_ffff_ffff

  /** `stoll`: None where it throws. */
  function Stoll(s: string): Option<int> {
    var p := SpaceEnd(s, 0);
    var signed := p < |s| && (s[p] == '-' || s[p] == '+');
    var from := if signed then p + 1 else p;
    var to := DigitsEnd(s, from);
    var value := (if signed && s[p] == '-' then -1 else 1) * Atoi(s[from..to]);
    if from == to || value < LLONG_MIN || value > LLONG_MAX then None else Some(value)
  }

  /** A range counts only if both of its ends can be read. */
  predicate TimeAllows(start: string, end: string, now: int) {
    start == "" || end == "" || Stoll(start) == None || Stoll(end) == None ||
    Stoll(start).value <= now <= Stoll(end).value
  }

  lemma DigitsTail(t: string)
    requires t != "" && AllDigits(t)
    ensures AllDigits(t[1..])
  {}

  lemma {:induction false} DigitsRunOn(s: string, p: nat)
    requires p <= |s| && AllDigits(s[p..])
    ensures DigitsEnd(s, p) == |s|
    decreases |s| - p
  {
    if p < |s| {
      assert s[p..][0] == s[p];
      assert s[p..][1..] == s[p + 1..];
      DigitsTail(s[p..]);
      DigitsRunOn(s, p + 1);
    }
  }

  function Printed(n: int): string {
    if n < 0 then "-" + Decimal(-n) else Decimal(n)
  }

  lemma PrintedReads(n: int)
    requires LLONG_MIN <= n <= LLONG_MAX
    ensures Stoll(Printed(n)) == Some(n)
  {
    var s, m := Printed(n), if n < 0 then -n else n;
    var from := if n < 0 then 1 else 0;
    assert s[from..] == Decimal(m);
    if n >= 0 {
      assert IsDigit(s[0]);
    }
    assert SpaceEnd(s, 0) == 0;
    DigitsRunOn(s, from);
    assert s[from..|s|] == Decimal(m);
    DecimalReads(m);
  }

  /** Blanks, a sign, and digits up to the first other character are read; anything else, and a number that does not
      fit, throws. */
  lemma StollReads(s: string, p: nat, from: nat, to: nat)
    requires p <= from <= to <= |s| && (forall i :: 0 <= i < p ==> IsSpace(s[i])) && (p < |s| ==> !IsSpace(s[p]))
    requires from == if p < |s| && (s[p] == '-' || s[p] == '+') then p + 1 else p
    requires AllDigits(s[from..to]) && (to < |s| ==> !('0' <= s[to] <= '9'))
    ensures var n := (if p < from && s[p] == '-' then -1 else 1) * Atoi(s[from..to]);
            Stoll(s) == if from == to || n < -0x8000_0000_0000_0000 || n > 0x7fff_ffff_ffff_ffff then None else Some(n)
  {
    SpaceRunUnique(s, 0, p);
    DigitsEndIs(s, from, to);
  }

  lemma {:induction false} DigitsEndIs(s: string, p: nat, q: nat)
    requires p <= q <= |s| && AllDigits(s[p..q]) && (q < |s| ==> !IsDigit(s[q]))
    ensures DigitsEnd(s, p) == q
    decreases q - p
  {
    if p < q {
      assert s[p..q][0] == s[p] && s[p..q][1..] == s[p + 1..q];
      DigitsTail(s[p..q]);
      DigitsEndIs(s, p + 1, q);
    }
  }

  /** A range printed in decimal lets a group bid from its start to its end, both included. */
  lemma PrintedRange(start: int, end: int, now: int)
    requires LLONG_MIN <= start <= LLONG_MAX && LLONG_MIN <= end <= LLONG_MAX
    ensures TimeAllows(Printed(start), Printed(end), now) <==> start <= now <= end
  {
    PrintedReads(start);
    PrintedReads(end);
  }

  predicate HoursFit(h: Hours, tm: Tm, year: int) {
    |h.bytes| == RECORD_SIZE && ValidTm(tm) && CheckCronTiming(h.bytes, h.calendar, tm, year)
  }

  /** No hours at all allow every time. */
  predicate HoursAllow(hours: seq<Hours>, tm: Tm, year: int) {
    hours == [] || exists i :: 0 <= i < |hours| && HoursFit(hours[i], tm, year)
  }

  method CheckCronTimeSet(hours: seq<Hours>, tm: Tm, year: int) returns (ok: bool)
    ensures ok == HoursAllow(hours, tm, year)
  {
    if |hours| == 0 {
      return true;
    }
    ok := false;
    var i := 0;
    while i < |hours|
      invariant 0 <= i <= |hours| && ok == exists k :: 0 <= k < i && HoursFit(hours[k], tm, year)
    {
      if !ok {
        if HoursFit(hours[i], tm, year) {
          ok := true;
        }
      }
      i := i + 1;
    }
  }

  // ---------------------------------------------------------------- by label, and all together

  predicate Share(a: seq<string>, b: seq<string>) {
    exists i :: 0 <= i < |b| && b[i] in a
  }

  /** Who asks for ads, and when. */
  datatype Visitor = Visitor(user: int, shop: int, labels: seq<string>, now: int, tm: Tm, year: int)

  predicate Eligible(c: Campaign, v: Visitor, group: int) {
    && MarketAllows(Get(c.marketShops, group, []), v.user, v.shop)
    && Get(c.groupValid, group, 1) != 0
    && TimeAllows(Get(c.marketStart, group, ""), Get(c.marketEnd, group, ""), v.now)
    && HoursAllow(Get(c.hours, group, []), v.tm, v.year)
    && (v.user <= 0 || Get(c.targetLabels, group, []) == [] || Share(v.labels, Get(c.targetLabels, group, [])))
  }

  method CheckIntersection(a: seq<string>, b: seq<string>) returns (shared: bool)
    ensures shared == Share(a, b)
  {
    var mark: set<string> := {};
    for i := 0 to |a|
      invariant forall x :: x in mark <==> x in a[..i]
    {
      mark := mark + {a[i]};
    }
    for i := 0 to |b|
      invariant forall k :: 0 <= k < i ==> b[k] !in a
    {
      if b[i] in mark {
        return true;
      }
    }
    return false;
  }

  /** The filters, in the order of the source. */
  method CheckEligible(c: Campaign, v: Visitor, group: int) returns (ok: bool)
    ensures ok == Eligible(c, v, group)
  {
    ok := CheckMarketShop(Get(c.marketShops, group, []), v.user, v.shop);
    if !ok || Get(c.groupValid, group, 1) == 0 {
      return false;
    }
    if !TimeAllows(Get(c.marketStart, group, ""), Get(c.marketEnd, group, ""), v.now) {
      return false;
    }
    ok := CheckCronTimeSet(Get(c.hours, group, []), v.tm, v.year);
    if !ok {
      return false;
    }
    var labels := Get(c.targetLabels, group, []);
    if v.user > 0 && |labels| != 0 {
      ok := CheckIntersection(v.labels, labels);
    }
  }
}
