/** Keys of the store (ad_map.cpp, user_map.cpp): numbers printed in decimal between colons. Distinct
    numbers give distinct keys, which is why the models keep the parts of a key apart. */
module StoreKeys {
  import opened AdEligibility
  import opened CronText
  import opened CronFields

  /** What an output stream makes of the parts of a key. */
  function Joined(ns: seq<int>): string {
    if ns == [] then "" else Printed(ns[0]) + ":" + Joined(ns[1..])
  }

  lemma PrintedPlain(n: int)
    ensures ':' !in Printed(n)
  {
    var digits := Decimal(if n < 0 then -n else n);
    forall i | 0 <= i < |digits| ensures digits[i] != ':' {
      assert IsDigit(digits[i]);
    }
  }

  lemma PrintedInjective(m: int, n: int)
    requires Printed(m) == Printed(n)
    ensures m == n
  {
    var a, b := Decimal(if m < 0 then -m else m), Decimal(if n < 0 then -n else n);
    DecimalReads(if m < 0 then -m else m);
    DecimalReads(if n < 0 then -n else n);
    assert IsDigit(a[0]) && IsDigit(b[0]);
    assert (m < 0) == (Printed(m)[0] == '-') && (n < 0) == (Printed(n)[0] == '-');
    assert a == (if m < 0 then Printed(m)[1..] else Printed(m));
    assert b == (if n < 0 then Printed(n)[1..] else Printed(n));
  }

  /** What stands before the first colon is determined. */
  lemma {:induction false} SplitAtColon(a: string, b: string, s: string, t: string)
    requires ':' !in a && ':' !in b && a + [':'] + s == b + [':'] + t
    ensures a == b && s == t
    decreases |a|
  {
    assert (a + [':'] + s)[0] == (if a == "" then ':' else a[0]);
    assert (b + [':'] + t)[0] == (if b == "" then ':' else b[0]);
    if a == "" {
      assert s == (a + [':'] + s)[1..] && t == (b + [':'] + t)[1..];
    } else {
      assert a[1..] + [':'] + s == (a + [':'] + s)[1..];
      assert b[1..] + [':'] + t == (b + [':'] + t)[1..];
      SplitAtColon(a[1..], b[1..], s, t);
      assert a == [a[0]] + a[1..] && b == [b[0]] + b[1..];
    }
  }

  /** Two keys of the same form are the same only if their numbers are. */
  lemma {:induction false} KeysInjective(ms: seq<int>, ns: seq<int>)
    requires |ms| == |ns| && Joined(ms) == Joined(ns)
    ensures ms == ns
    decreases |ms|
  {
    if ms != [] {
      PrintedPlain(ms[0]);
      PrintedPlain(ns[0]);
      SplitAtColon(Printed(ms[0]), Printed(ns[0]), Joined(ms[1..]), Joined(ns[1..]));
      PrintedInjective(ms[0], ns[0]);
      KeysInjective(ms[1..], ns[1..]);
      assert ms == [ms[0]] + ms[1..] && ns == [ns[0]] + ns[1..];
    }
  }
}
