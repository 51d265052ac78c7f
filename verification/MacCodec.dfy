/** MAC addresses as text and as numbers (user_map.cpp), and the fixed-stride list of them in a message
    (ap_signal_receiver.cpp). */
module MacCodec {
  import opened Common

  type Byte = b: nat | b < 256

  // ---------------------------------------------------------------- printing

  predicate IsHex(c: char) {
    '0' <= c <= '9' || 'a' <= c <= 'f' || 'A' <= c <= 'F'
  }

  function HexDigit(d: nat): (c: char)
    requires d < 16
    ensures IsHex(c) && HexValue(c) == d && c != 'x' && c != 'X'
  {
    if d < 10 then (d + '0' as int) as char else (d - 10 + 'a' as int) as char
  }

  function HexValue(c: char): (d: nat)
    requires IsHex(c)
    ensures d < 16
  {
    if c <= '9' then c as int - '0' as int
    else if c <= 'F' then c as int - 'A' as int + 10
    else c as int - 'a' as int + 10
  }

  /** `%.2hhx`. */
  function HexByte(b: Byte): (t: string)
    ensures |t| == 2
  {
    [HexDigit(b / 16), HexDigit(b % 16)]
  }

  /** The bytes of a number, the lowest one first, as the union of number and bytes gives them. */
  function ByteOf(n: nat, k: nat): Byte {
    if k == 0 then n % 256 else ByteOf(n / 256, k - 1)
  }

  /** Bytes `k` down to 0, separated by colons. */
  function BytesText(n: nat, k: nat): (t: string)
    ensures |t| == 3 * k + 2
  {
    if k == 0 then HexByte(ByteOf(n, 0)) else HexByte(ByteOf(n, k)) + ":" + BytesText(n, k - 1)
  }

  /** `uint64_to_str`. */
  function MacText(n: nat): (t: string)
    ensures |t| == 17
  {
    BytesText(n, 5)
  }

  // ---------------------------------------------------------------- reading

  function HexEnd(s: string, p: nat): (q: nat)
    requires p <= |s|
    ensures p <= q <= |s| && forall i :: p <= i < q ==> IsHex(s[i])
    decreases |s| - p
  {
    if p < |s| && IsHex(s[p]) then HexEnd(s, p + 1) else p
  }

  lemma HexSlice(s: string, p: nat, q: nat)
    requires p <= q <= |s| && forall i :: p <= i < q ==> IsHex(s[i])
    ensures forall i :: 0 <= i < |s[p..q]| ==> IsHex(s[p..q][i])
  {
    forall i | 0 <= i < |s[p..q]| ensures IsHex(s[p..q][i]) {
      assert s[p..q][i] == s[p + i];
    }
  }

  function HexNumber(t: string): nat
    requires forall i :: 0 <= i < |t| ==> IsHex(t[i])
  {
    if t == "" then 0 else 16 * HexNumber(t[..|t| - 1]) + HexValue(t[|t| - 1])
  }

  const ULONG_MAX := 0xffff_ffff_ffff_ffff

  datatype Scanned = Failed | Read(byte: Byte, end: nat)

  function SignEnd(s: string, q: nat): (from: nat)
    requires q <= |s|
    ensures q <= from <= |s|
  {
    if q < |s| && (s[q] == '-' || s[q] == '+') then q + 1 else q
  }

  function PrefixEnd(s: string, from: nat): (digits: nat)
    requires from <= |s|
    ensures from <= digits <= |s|
  {
    if from + 1 < |s| && s[from] == '0' && (s[from + 1] == 'x' || s[from + 1] == 'X') then from + 2 else from
  }

  /** A number as `%hhx` stores it, after it has been cut to an unsigned long. */
  function LowByte(n: nat, negative: bool): Byte {
    if n > ULONG_MAX then ULONG_MAX % 256 else if negative then (0 - n) % 256 else n % 256
  }

  /** One `%hhx`: blanks, a sign, a prefix 0x, as many digits as there are; the low byte is kept. */
  function ScanHex(s: string, p: nat): (r: Scanned)
    requires p <= |s|
    ensures r.Read? ==> p < r.end <= |s|
  {
    var q := SpaceEnd(s, p);
    var from := SignEnd(s, q);
    var digits := PrefixEnd(s, from);
    var end := HexEnd(s, digits);
    if end == digits then Failed
    else
      HexSlice(s, digits, end);
      Read(LowByte(HexNumber(s[digits..end]), q < from && s[q] == '-'), end)
  }

  lemma HexValues(d: nat)
    requires d < 16
    ensures HexValue("0123456789abcdef"[d]) == d && HexValue("0123456789ABCDEF"[d]) == d
  {}

  /** The parts of a number: blanks up to `q`, a sign up to `from`, a prefix up to `digits`, and digits up to `end`. */
  ghost predicate HexParts(s: string, p: nat, q: nat, from: nat, digits: nat, end: nat) {
    && p <= q <= from <= digits <= end <= |s|
    && (forall i :: p <= i < q ==> IsSpace(s[i])) && (q < |s| ==> !IsSpace(s[q]))
    && from == (if q < |s| && (s[q] == '-' || s[q] == '+') then q + 1 else q)
    && digits == (if from + 1 < |s| && s[from] == '0' && (s[from + 1] == 'x' || s[from + 1] == 'X')
                  then from + 2 else from)
    && (forall i :: digits <= i < end ==> IsHex(s[i])) && (end < |s| ==> !IsHex(s[end]))
  }

  lemma HexPartsAre(s: string, p: nat, q: nat, from: nat, digits: nat, end: nat)
    requires HexParts(s, p, q, from, digits, end)
    ensures SpaceEnd(s, p) == q && SignEnd(s, q) == from && PrefixEnd(s, from) == digits && HexEnd(s, digits) == end
  {
    SpaceRunUnique(s, p, q);
    HexRun(s, digits, end);
  }

  lemma LowByteIs(n: int, negative: bool)
    requires n >= 0
    ensures LowByte(n, negative) ==
            if n > 0xffff_ffff_ffff_ffff then 255 else if negative then -n % 256 else n % 256
  {}

  /** What one `%hhx` makes of them: the low byte of the number, with its sign, and of the greatest number if it is
      greater. */
  lemma ScanHexReads(s: string, p: nat, q: nat, from: nat, digits: nat, end: nat, text: string, n: int)
    requires HexParts(s, p, q, from, digits, end)
    requires text == s[digits..end] && (forall i :: 0 <= i < |text| ==> IsHex(text[i])) && n == HexNumber(text)
    ensures ScanHex(s, p) ==
            if digits == end then Failed
            else if n > 0xffff_ffff_ffff_ffff then Read(255, end)
            else if q < from && s[q] == '-' then Read(-n % 256, end) else Read(n % 256, end)
  {
    HexPartsAre(s, p, q, from, digits, end);
    LowByteIs(n, q < from && s[q] == '-');
  }

  /** Bytes `k` down to 0 from the text at `p`, onto what `bytes` holds; the scan stops at the first
      mismatch and leaves the rest alone. */
  function ScanBytes(s: string, p: nat, k: nat, bytes: seq<Byte>): (r: seq<Byte>)
    requires p <= |s| && k < |bytes|
    ensures |r| == |bytes| && forall i :: k < i < |r| ==> r[i] == bytes[i]
    decreases k
  {
    var scanned := ScanHex(s, p);
    if scanned == Failed then bytes
    else
      var now := bytes[k := scanned.byte];
      if k == 0 || scanned.end == |s| || s[scanned.end] != ':' then now
      else ScanBytes(s, scanned.end + 1, k - 1, now)
  }

  function Number(bytes: seq<Byte>): nat {
    if bytes == [] then 0 else bytes[0] + 256 * Number(bytes[1..])
  }

  /** `str_to_uint64`; `junk` is what the uninitialised union held. */
  function TextMac(s: string, junk: seq<Byte>): nat
    requires |junk| == 8
  {
    Number(ScanBytes(s, 0, 5, junk))
  }

  // ---------------------------------------------------------------- the round trip

  /** What may follow a MAC: not a further digit. */
  predicate NoDigitAt(s: string, p: nat)
    requires p <= |s|
  {
    p == |s| || !IsHex(s[p])
  }

  lemma {:induction false} HexRun(s: string, p: nat, q: nat)
    requires p <= q <= |s| && (forall i :: p <= i < q ==> IsHex(s[i])) && NoDigitAt(s, q)
    ensures HexEnd(s, p) == q
    decreases q - p
  {
    if p < q {
      HexRun(s, p + 1, q);
    }
  }

  lemma HexByteNumber(b: Byte)
    ensures IsHex(HexByte(b)[0]) && IsHex(HexByte(b)[1]) && HexNumber(HexByte(b)) == b
  {
    var t := HexByte(b);
    assert t[..1] == [t[0]] && t[..1][..0] == "";
    assert HexNumber(t[..1]) == 16 * HexNumber(t[..1][..0]) + HexValue(t[0]) == b / 16;
  }

  /** Two printed digits are read back, whatever the byte. */
  lemma HexByteReads(s: string, p: nat, b: Byte)
    requires p + 2 <= |s| && s[p] == HexByte(b)[0] && s[p + 1] == HexByte(b)[1] && NoDigitAt(s, p + 2)
    ensures ScanHex(s, p) == Read(b, p + 2)
  {
    HexByteNumber(b);
    assert !IsSpace(s[p]) && s[p] != '-' && s[p] != '+';
    HexRun(s, p, p + 2);
    assert s[p..p + 2] == HexByte(b);
  }

  /** The text of bytes `k` down to 0 stands at `p`. */
  predicate Stands(s: string, p: nat, t: string) {
    p + |t| <= |s| && s[p..p + |t|] == t
  }

  lemma StandsChar(s: string, p: nat, t: string, i: nat)
    requires Stands(s, p, t) && i < |t|
    ensures s[p + i] == t[i]
  {
    assert s[p + i] == s[p..p + |t|][i];
  }

  lemma StandsApart(s: string, p: nat, a: string, b: string)
    requires Stands(s, p, a + b)
    ensures Stands(s, p, a) && Stands(s, p + |a|, b)
  {
    var t := s[p..p + |a + b|];
    assert s[p..p + |a|] == t[..|a|] == a;
    assert s[p + |a|..p + |a| + |b|] == t[|a|..] == b;
  }

  lemma ByteStands(s: string, p: nat, b: Byte)
    requires Stands(s, p, HexByte(b)) && NoDigitAt(s, p + 2)
    ensures ScanHex(s, p) == Read(b, p + 2)
  {
    StandsChar(s, p, HexByte(b), 0);
    StandsChar(s, p, HexByte(b), 1);
    HexByteReads(s, p, b);
  }

  lemma BytesStand(s: string, p: nat, n: nat, k: nat)
    requires k > 0 && Stands(s, p, BytesText(n, k))
    ensures ScanHex(s, p) == Read(ByteOf(n, k), p + 2) && s[p + 2] == ':' && Stands(s, p + 3, BytesText(n, k - 1))
  {
    StandsApart(s, p, HexByte(ByteOf(n, k)) + ":", BytesText(n, k - 1));
    StandsApart(s, p, HexByte(ByteOf(n, k)), ":");
    StandsChar(s, p + 2, ":", 0);
    ByteStands(s, p, ByteOf(n, k));
  }

  /** `r` is `bytes` with its elements up to `k` replaced by the lowest bytes of `n`. */
  ghost predicate HasLow(r: seq<Byte>, n: nat, k: nat, bytes: seq<Byte>) {
    |r| == |bytes| && forall i :: 0 <= i < |r| ==> r[i] == if i <= k then ByteOf(n, i) else bytes[i]
  }

  lemma HasOneMore(r: seq<Byte>, n: nat, k: nat, bytes: seq<Byte>, now: seq<Byte>)
    requires 0 < k < |bytes| && now == bytes[k := ByteOf(n, k)] && HasLow(r, n, k - 1, now)
    ensures HasLow(r, n, k, bytes)
  {}

  lemma ScanBytesStep(s: string, p: nat, n: nat, k: nat, bytes: seq<Byte>, now: seq<Byte>)
    requires 0 < k < |bytes| && Stands(s, p, BytesText(n, k)) && now == bytes[k := ByteOf(n, k)]
    ensures Stands(s, p + 3, BytesText(n, k - 1)) && ScanBytes(s, p, k, bytes) == ScanBytes(s, p + 3, k - 1, now)
  {
    BytesStand(s, p, n, k);
  }

  lemma ScanByte(s: string, p: nat, n: nat, bytes: seq<Byte>)
    requires bytes != [] && Stands(s, p, BytesText(n, 0)) && NoDigitAt(s, p + 2)
    ensures HasLow(ScanBytes(s, p, 0, bytes), n, 0, bytes)
  {
    ByteStands(s, p, ByteOf(n, 0));
  }

  lemma {:induction false} BytesRead(s: string, p: nat, end: nat, n: nat, k: nat, bytes: seq<Byte>)
    requires k < |bytes| && Stands(s, p, BytesText(n, k)) && end == p + 3 * k + 2 && NoDigitAt(s, end)
    ensures HasLow(ScanBytes(s, p, k, bytes), n, k, bytes)
    decreases k
  {
    if k > 0 {
      var now := bytes[k := ByteOf(n, k)];
      ScanBytesStep(s, p, n, k, bytes, now);
      BytesRead(s, p + 3, end, n, k - 1, now);
      HasOneMore(ScanBytes(s, p + 3, k - 1, now), n, k, bytes, now);
    } else {
      ScanByte(s, p, n, bytes);
    }
  }

  function Power(k: nat): (r: nat)
    ensures r > 0
  {
    if k == 0 then 1 else 256 * Power(k - 1)
  }

  /** The number of the lowest bytes of `n` is `n`, cut to size. */
  lemma {:induction false} NumberOfBytes(bytes: seq<Byte>, n: nat)
    requires forall i :: 0 <= i < |bytes| ==> bytes[i] == ByteOf(n, i)
    ensures Number(bytes) == n % Power(|bytes|)
    decreases |bytes|
  {
    if bytes == [] {
      assert Number(bytes) == 0;
    } else {
      forall i | 0 <= i < |bytes[1..]| ensures bytes[1..][i] == ByteOf(n / 256, i) {
        assert bytes[i + 1] == ByteOf(n, i + 1);
      }
      NumberOfBytes(bytes[1..], n / 256);
      SplitByte(n, Power(|bytes| - 1));
    }
  }

  lemma SplitByte(n: nat, m: nat)
    requires m > 0
    ensures n % 256 + 256 * (n / 256 % m) == n % (256 * m)
  {
    var q := n / 256;
    var r := n % 256 + 256 * (q % m);
    assert q == q / m * m + q % m;
    assert n == 256 * m * (q / m) + r;
    assert 0 <= r < 256 * m;
    DivMod(n, 256 * m, q / m, r);
  }

  lemma DivMod(n: int, d: int, q: int, r: int)
    requires 0 <= r < d && n == d * q + r
    ensures n % d == r
  {
    var a := n / d;
    assert n == d * a + n % d;
    assert d * (q - a) == d * q - d * a == n % d - r;
    if q > a {
      Grows(d, q - a);
    } else if q < a {
      Grows(d, a - q);
    }
  }

  lemma Grows(d: int, k: int)
    requires d > 0 && k > 0
    ensures d * k >= d
  {}

  lemma NumberFirst(bytes: seq<Byte>)
    requires bytes != []
    ensures Number(bytes) == bytes[0] + 256 * Number(bytes[1..])
  {}

  lemma PowerFirst(k: nat, number: nat)
    requires k > 0
    ensures Power(k) * number == 256 * (Power(k - 1) * number)
  {
    assert Power(k) == 256 * Power(k - 1);
  }

  lemma {:induction false} NumberAppend(a: seq<Byte>, b: seq<Byte>)
    ensures Number(a + b) == Number(a) + Power(|a|) * Number(b)
    decreases |a|
  {
    if a == [] {
      assert a + b == b;
    } else {
      assert (a + b)[1..] == a[1..] + b;
      NumberAppend(a[1..], b);
      NumberFirst(a + b);
      NumberFirst(a);
      PowerFirst(|a|, Number(b));
    }
  }

  /** A number below 2^48 plus two bytes above it. */
  function HighPart(junk: seq<Byte>): nat
    requires |junk| == 8
  {
    0x1_0000_0000_0000 * Number(junk[6..])
  }

  lemma PowerSix()
    ensures Power(6) == 0x1_0000_0000_0000
  {
    assert Power(2) == 256 * Power(1) == 65536;
    assert Power(4) == 256 * Power(3) == 256 * (256 * Power(2));
    assert Power(6) == 256 * Power(5) == 256 * (256 * Power(4));
  }

  lemma LowNumber(r: seq<Byte>, n: nat, junk: seq<Byte>)
    requires |junk| == 8 && HasLow(r, n, 5, junk)
    ensures Number(r) == n % 0x1_0000_0000_0000 + HighPart(junk)
  {
    assert r == r[..6] + r[6..] && r[6..] == junk[6..];
    NumberOfBytes(r[..6], n);
    NumberAppend(r[..6], r[6..]);
    PowerSix();
  }

  /** Integer to text to integer is the identity on the low 48 bits; the high 16 are what was there
      before. Whatever may follow the text, so long as it is not a digit. */
  lemma MacRoundTrip(s: string, n: nat, junk: seq<Byte>)
    requires |junk| == 8 && Stands(s, 0, MacText(n)) && NoDigitAt(s, 17)
    ensures TextMac(s, junk) == n % 0x1_0000_0000_0000 + HighPart(junk)
  {
    BytesRead(s, 0, 17, n, 5, junk);
    LowNumber(ScanBytes(s, 0, 5, junk), n, junk);
  }

  /** A byte stands as two lower-case digits. */
  predicate HexAt(s: string, p: nat, b: Byte) {
    p + 2 <= |s| && s[p] == "0123456789abcdef"[b / 16] && s[p + 1] == "0123456789abcdef"[b % 16]
  }

  lemma HexByteAt(b: Byte)
    ensures HexAt(HexByte(b), 0, b)
  {}

  lemma HexLater(head: string, tail: string, p: nat, b: Byte)
    requires HexAt(tail, p, b)
    ensures HexAt(head + tail, |head| + p, b)
  {}

  lemma HexBefore(head: string, tail: string, b: Byte)
    requires HexAt(head, 0, b)
    ensures HexAt(head + tail, 0, b)
  {}

  lemma BytesOneMore(n: nat, k: nat, head: string, tail: string)
    requires k > 0 && head == HexByte(ByteOf(n, k)) && tail == BytesText(n, k - 1)
    ensures BytesText(n, k) == head + (":" + tail) == (head + ":") + tail
  {
    ColonJoins(head, tail);
    BytesUnfold(n, k, head, tail);
  }

  lemma ColonJoins(head: string, tail: string)
    ensures head + (":" + tail) == (head + ":") + tail
  {}

  lemma BytesUnfold(n: nat, k: nat, head: string, tail: string)
    requires k > 0 && head == HexByte(ByteOf(n, k)) && tail == BytesText(n, k - 1)
    ensures BytesText(n, k) == head + ":" + tail
  {}

  /** Byte after byte from the highest one, */
  lemma {:induction false} BytesPrinted(n: nat, k: nat, j: nat)
    requires j <= k
    ensures HexAt(BytesText(n, k), 3 * j, ByteOf(n, k - j))
  {
    var head := HexByte(ByteOf(n, k));
    HexByteAt(ByteOf(n, k));
    if k > 0 {
      var tail := BytesText(n, k - 1);
      BytesOneMore(n, k, head, tail);
      if j == 0 {
        HexBefore(head, ":" + tail, ByteOf(n, k));
      } else {
        BytesPrinted(n, k - 1, j - 1);
        HexLater(head + ":", tail, 3 * (j - 1), ByteOf(n, k - j));
      }
    }
  }

  /** with colons between. */
  lemma {:induction false} ColonsPrinted(n: nat, k: nat, j: nat)
    requires j < k
    ensures BytesText(n, k)[3 * j + 2] == ':'
  {
    var head, tail := HexByte(ByteOf(n, k)), BytesText(n, k - 1);
    BytesOneMore(n, k, head, tail);
    if j > 0 {
      ColonsPrinted(n, k - 1, j - 1);
      assert ((head + ":") + tail)[3 * j + 2] == tail[3 * (j - 1) + 2];
    }
  }

  lemma {:induction false} ByteOfNumber(b: seq<Byte>, k: nat)
    requires k < |b|
    ensures ByteOf(Number(b), k) == b[k]
    decreases k
  {
    assert Number(b) == b[0] + 256 * Number(b[1..]);
    assert Number(b) % 256 == b[0] && Number(b) / 256 == Number(b[1..]);
    if k > 0 {
      ByteOfNumber(b[1..], k - 1);
    }
  }

  lemma BytesAre(n: nat, b: seq<Byte>, top: nat, j: nat, k: nat)
    requires j + k == top < |b| && n == Number(b)
    ensures HexAt(BytesText(n, top), 3 * j, b[k]) && (j < top ==> BytesText(n, top)[3 * j + 2] == ':')
  {
    BytesPrinted(n, top, j);
    if j < top {
      ColonsPrinted(n, top, j);
    }
    ByteOfNumber(b, k);
  }

  /** The printed form: the sixth byte first, each as two lower-case digits, with colons between. */
  lemma MacPrinted(n: nat, b: seq<Byte>, j: nat, k: nat)
    requires |b| >= 6 && n == Number(b) && j + k == 5
    ensures HexAt(MacText(n), 3 * j, b[k]) && (j < 5 ==> MacText(n)[3 * j + 2] == ':')
  {
    BytesAre(n, b, 5, j, k);
  }

  // ---------------------------------------------------------------- the list in a message

  const CLOSER := "ApMac-Closer:"
  const OPENING := " Macs:["
  const AP_AT := 13
  const LIST_AT := 37
  const STRIDE := 19

  /** The number of entries that the receiver visits. */
  function EntryCount(msg: string): nat
    requires |msg| + 1 >= LIST_AT
  {
    (|msg| - LIST_AT + 1) / STRIDE
  }

  function ListText(macs: seq<nat>, sep: string): string {
    if macs == [] then ""
    else if |macs| == 1 then MacText(macs[0])
    else MacText(macs[0]) + sep + ListText(macs[1..], sep)
  }

  /** A closer message: the access point, then the devices near it. */
  function CloserText(ap: nat, macs: seq<nat>, sep: string): string {
    CLOSER + MacText(ap) + OPENING + ListText(macs, sep) + "]"
  }

  lemma {:induction false} ListLength(macs: seq<nat>, sep: string)
    requires |sep| == 2 && macs != []
    ensures |ListText(macs, sep)| == STRIDE * |macs| - 2
  {
    if |macs| > 1 {
      ListLength(macs[1..], sep);
    }
  }

  lemma StandsLater(a: string, b: string, p: nat, t: string)
    requires Stands(b, p, t) && NoDigitAt(b, p + |t|)
    ensures Stands(a + b, |a| + p, t) && NoDigitAt(a + b, |a| + p + |t|)
  {
    var q := |a| + p;
    assert (a + b)[q..q + |t|] == b[p..p + |t|];
  }

  lemma StandsFirst(a: string, b: string)
    requires b != "" && !IsHex(b[0])
    ensures Stands(a + b, 0, a) && NoDigitAt(a + b, |a|)
  {
    assert (a + b)[..|a|] == a;
  }

  lemma Reassociate(a: string, b: string, c: string, d: string)
    ensures a + b + c + d == a + (b + c + d)
  {}

  lemma ListFirst(macs: seq<nat>, sep: string, end: string)
    requires |sep| == 2 && !IsHex(sep[0]) && macs != [] && end != "" && !IsHex(end[0])
    ensures var t := ListText(macs, sep) + end; 17 <= |t| && Stands(t, 0, MacText(macs[0])) && NoDigitAt(t, 17)
  {
    var head := MacText(macs[0]);
    if |macs| == 1 {
      StandsFirst(head, end);
    } else {
      var rest := ListText(macs[1..], sep);
      Reassociate(head, sep, rest, end);
      StandsFirst(head, sep + rest + end);
    }
  }

  /** Entry `i` of a list stands at its stride, and no digit follows it. */
  lemma {:induction false} ListEntry(macs: seq<nat>, sep: string, end: string, i: nat)
    requires |sep| == 2 && !IsHex(sep[0]) && i < |macs| && end != "" && !IsHex(end[0])
    ensures var t := ListText(macs, sep) + end;
            STRIDE * i + 17 <= |t| && Stands(t, STRIDE * i, MacText(macs[i])) && NoDigitAt(t, STRIDE * i + 17)
    decreases i
  {
    if i == 0 {
      ListFirst(macs, sep, end);
    } else {
      var head, rest := MacText(macs[0]), ListText(macs[1..], sep) + end;
      assert ListText(macs, sep) + end == (head + sep) + rest;
      ListEntry(macs[1..], sep, end, i - 1);
      StandsLater(head + sep, rest, STRIDE * (i - 1), MacText(macs[i]));
    }
  }

  lemma StandsSuffix(s: string, p: nat, t: string)
    requires Stands(s, p, t) && NoDigitAt(s, p + |t|)
    ensures Stands(s[p..], 0, t) && NoDigitAt(s[p..], |t|)
  {
    assert s[p..][..|t|] == s[p..p + |t|];
  }

  /** On a printed message the receiver visits every entry and no other, and reads back each MAC and
      that of the access point. */
  lemma CloserRoundTrip(ap: nat, macs: seq<nat>, sep: string, i: nat, junk: seq<Byte>)
    requires |sep| == 2 && !IsHex(sep[0]) && |junk| == 8
    ensures var msg := CloserText(ap, macs, sep);
            && |msg| >= LIST_AT && EntryCount(msg) == |macs|
            && TextMac(msg[AP_AT..], junk) == ap % 0x1_0000_0000_0000 + HighPart(junk)
            && (i < |macs| ==>
                  LIST_AT + STRIDE * i <= |msg| &&
                  TextMac(msg[LIST_AT + STRIDE * i..], junk) == macs[i] % 0x1_0000_0000_0000 + HighPart(junk))
  {
    var msg := CloserText(ap, macs, sep);
    var list := ListText(macs, sep) + "]";
    assert msg[LIST_AT..] == list;
    if macs != [] {
      ListLength(macs, sep);
    }
    var tail := msg[AP_AT..];
    assert tail == MacText(ap) + (OPENING + list);
    assert tail[..17] == MacText(ap) && tail[17] == ' ';
    MacRoundTrip(tail, ap, junk);
    if i < |macs| {
      ListEntry(macs, sep, "]", i);
      StandsSuffix(list, STRIDE * i, MacText(macs[i]));
      assert msg[LIST_AT + STRIDE * i..] == list[STRIDE * i..];
      MacRoundTrip(list[STRIDE * i..], macs[i], junk);
    }
  }

  /** The text of each entry of a printed message. */
  lemma CloserEntry(ap: nat, macs: seq<nat>, sep: string, i: nat, msg: string, at: nat)
    requires |sep| == 2 && !IsHex(sep[0]) && i < |macs| && msg == CloserText(ap, macs, sep)
    requires at == LIST_AT + STRIDE * i
    ensures at + 17 <= |msg| && msg[at..at + 17] == MacText(macs[i])
  {
    var list := ListText(macs, sep) + "]";
    assert msg[LIST_AT..] == list;
    ListEntry(macs, sep, "]", i);
    assert msg[at..at + 17] == list[STRIDE * i..STRIDE * i + 17];
  }
}
