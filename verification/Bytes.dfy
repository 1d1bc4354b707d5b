/** Byte strings: number formatting, splitting on '/', exclusive or and lexicographic ranges. */
module Bytes {
  type byte = x: int | 0 <= x < 256

  type Bytes = seq<byte>

  const SLASH: byte := 47  // '/'

  predicate NoSlash(s: Bytes) { SLASH !in s }

  /** Letters of the ASCII range as bytes; anything else as 0. */
  function Ascii(s: string): (r: Bytes)
    ensures |r| == |s|
  {
    seq(|s|, i requires 0 <= i < |s| => if (s[i] as int) < 128 then s[i] as int else 0)
  }

  // ----- digits

  function DigitByte(d: nat): byte
    requires d < 16
  {
    if d < 10 then 48 + d else 87 + d
  }

  /** The digits of both radixes, as they are written. */
  lemma DigitsSpelled(d: nat)
    requires d < 16
    ensures DigitByte(d) == Ascii("0123456789abcdef")[d]
  {
  }

  function DigitValue(b: byte): nat {
    if 48 <= b < 58 then b - 48 else if 97 <= b < 103 then b - 87 else 0
  }

  // The two radixes are written out so that every product has a constant factor.

  function Quot(n: nat, hex: bool): nat { if hex then n / 16 else n / 10 }

  function Rem(n: nat, hex: bool): (r: nat)
    ensures r < 16
  {
    if hex then n % 16 else n % 10
  }

  function Scale(n: nat, hex: bool): nat { if hex then n * 16 else n * 10 }

  /** fmt's %x (hex) and %d of a non-negative number. */
  function Digits(n: nat, hex: bool): (r: Bytes)
    ensures r != [] && NoSlash(r)
  {
    if Quot(n, hex) == 0 then [DigitByte(Rem(n, hex))] else Digits(Quot(n, hex), hex) + [DigitByte(Rem(n, hex))]
  }

  function ValueOf(ds: Bytes, hex: bool): nat {
    if ds == [] then 0 else Scale(ValueOf(ds[..|ds| - 1], hex), hex) + DigitValue(ds[|ds| - 1])
  }

  lemma ValueAppend(ds: Bytes, b: byte, hex: bool)
    ensures ValueOf(ds + [b], hex) == Scale(ValueOf(ds, hex), hex) + DigitValue(b)
  {
    assert (ds + [b])[..|ds|] == ds;
  }

  lemma {:induction false} DigitsValue(n: nat, hex: bool)
    ensures ValueOf(Digits(n, hex), hex) == n
    decreases n
  {
    if Quot(n, hex) == 0 {
      ValueAppend([], DigitByte(Rem(n, hex)), hex);
      assert [] + [DigitByte(Rem(n, hex))] == Digits(n, hex);
    } else {
      DigitsValue(Quot(n, hex), hex);
      ValueAppend(Digits(Quot(n, hex), hex), DigitByte(Rem(n, hex)), hex);
    }
  }

  predicate IsDecimal(b: byte) { 48 <= b < 58 }

  /** The longest run of decimal digits at the start of `s`. */
  function LeadingDigits(s: Bytes): Bytes {
    if s == [] || !IsDecimal(s[0]) then [] else [s[0]] + LeadingDigits(s[1..])
  }

  /** fmt.Sscanf with %d on an unsigned number. */
  function ScanNumber(s: Bytes): (r: (bool, nat))
    ensures !r.0 ==> r.1 == 0
  {
    var ds := LeadingDigits(s);
    if ds == [] then (false, 0) else (true, ValueOf(ds, false))
  }

  lemma {:induction false} AllDigitsLead(s: Bytes)
    requires forall i :: 0 <= i < |s| ==> IsDecimal(s[i])
    ensures LeadingDigits(s) == s
  {
    if s != [] { AllDigitsLead(s[1..]); }
  }

  lemma {:induction false} DigitsDecimal(n: nat)
    ensures forall i :: 0 <= i < |Digits(n, false)| ==> IsDecimal(Digits(n, false)[i])
  {
    if n >= 10 { DigitsDecimal(Quot(n, false)); }
  }

  lemma ScanPrinted(n: nat)
    ensures ScanNumber(Digits(n, false)) == (true, n)
  {
    DigitsDecimal(n);
    AllDigitsLead(Digits(n, false));
    DigitsValue(n, false);
  }

  lemma PrintedOnce(n: nat, m: nat, hex: bool)
    requires Digits(n, hex) == Digits(m, hex)
    ensures n == m
  {
    DigitsValue(n, hex);
    DigitsValue(m, hex);
  }

  // ----- strings.Split and strings.Join on '/'

  function Split(s: Bytes): (r: seq<Bytes>)
    ensures r != []
  {
    if s == [] then [[]]
    else
      var r := Split(s[1..]);
      if s[0] == SLASH then [[]] + r else [[s[0]] + r[0]] + r[1..]
  }

  function Join(segs: seq<Bytes>): Bytes
    requires segs != []
  {
    if |segs| == 1 then segs[0] else segs[0] + [SLASH] + Join(segs[1..])
  }

  lemma {:induction false} SplitSegment(a: Bytes, rest: Bytes)
    requires NoSlash(a)
    ensures Split(a + [SLASH] + rest) == [a] + Split(rest)
  {
    var s := a + [SLASH] + rest;
    if a == [] {
      assert s[1..] == rest;
    } else {
      assert s[1..] == a[1..] + [SLASH] + rest;
      SplitSegment(a[1..], rest);
      assert a == [a[0]] + a[1..];
    }
  }

  lemma {:induction false} SplitWhole(a: Bytes)
    requires NoSlash(a)
    ensures Split(a) == [a]
  {
    if a != [] {
      SplitWhole(a[1..]);
      assert a == [a[0]] + a[1..];
    }
  }

  lemma {:induction false} JoinSplit(s: Bytes)
    ensures Join(Split(s)) == s
  {
    if s != [] {
      JoinSplit(s[1..]);
      var r := Split(s[1..]);
      assert s == [s[0]] + s[1..];
      if s[0] == SLASH {
        assert ([[]] + r)[1..] == r;
      } else {
        var r' := [[s[0]] + r[0]] + r[1..];
        assert r'[1..] == r[1..];
        if |r| == 1 {
          assert Join(r') == [s[0]] + r[0];
        } else {
          assert Join(r') == [s[0]] + (r[0] + [SLASH] + Join(r[1..]));
        }
      }
    }
  }

  /** A leading segment is determined by any string it is a prefix of. */
  lemma {:induction false} SegmentPrefix(a: Bytes, x: Bytes, b: Bytes, y: Bytes)
    requires NoSlash(a) && NoSlash(b)
    ensures a + [SLASH] + x <= b + [SLASH] + y <==> a == b && x <= y
  {
    var p, k := a + [SLASH] + x, b + [SLASH] + y;
    if a == [] || b == [] {
      if p <= k {
        assert p[0] == k[0];
        assert a == [] && b == [];
        assert p[1..] == x && k[1..] == y;
      }
    } else {
      SegmentPrefix(a[1..], x, b[1..], y);
      assert p == [a[0]] + (a[1..] + [SLASH] + x);
      assert k == [b[0]] + (b[1..] + [SLASH] + y);
      if p <= k {
        assert p[0] == k[0];
        assert p[1..] <= k[1..];
        assert a == [a[0]] + a[1..] && b == [b[0]] + b[1..];
      }
    }
  }

  // ----- lexicographic order and prefix ranges

  predicate Below(a: Bytes, b: Bytes) {
    b != [] && (a == [] || a[0] < b[0] || (a[0] == b[0] && Below(a[1..], b[1..])))
  }

  predicate InRange(lo: Bytes, hi: Bytes, k: Bytes) { !Below(k, lo) && Below(k, hi) }

  /** clientv3's prefix end: the last byte that can grow is incremented and the rest dropped. */
  function PrefixEnd(p: Bytes): (end: Bytes) {
    if p == [] then []
    else
      var e := PrefixEnd(p[1..]);
      if e != [] then [p[0]] + e
      else if p[0] < 255 then [p[0] + 1]
      else []
  }

  /** No byte can grow: the string is all 0xff. */
  lemma {:induction false} NoEndAllFF(p: Bytes, k: Bytes)
    requires PrefixEnd(p) == []
    ensures !Below(k, p) <==> p <= k
  {
    if p != [] {
      assert p[0] == 255 && PrefixEnd(p[1..]) == [];
      if k != [] {
        NoEndAllFF(p[1..], k[1..]);
        assert p == [p[0]] + p[1..] && k == [k[0]] + k[1..];
      }
    }
  }

  /** A range [p, PrefixEnd(p)) holds exactly the strings that start with `p`. */
  lemma {:induction false} RangeIsPrefix(p: Bytes, k: Bytes)
    requires PrefixEnd(p) != []
    ensures InRange(p, PrefixEnd(p), k) <==> p <= k
  {
    assert p == [p[0]] + p[1..];
    if k != [] {
      assert k == [k[0]] + k[1..];
      if PrefixEnd(p[1..]) != [] {
        RangeIsPrefix(p[1..], k[1..]);
        assert PrefixEnd(p)[1..] == PrefixEnd(p[1..]);
      } else {
        NoEndAllFF(p[1..], k[1..]);
        assert PrefixEnd(p) == [p[0] + 1] && PrefixEnd(p)[1..] == [];
        assert Below(k, PrefixEnd(p)) <==> k[0] <= p[0];
        assert !Below(k, p) <==> k[0] > p[0] || (k[0] == p[0] && !Below(k[1..], p[1..]));
      }
    }
  }

  // ----- exclusive or

  function Pow2(n: nat): nat { if n == 0 then 1 else 2 * Pow2(n - 1) }

  function XorBits(a: nat, b: nat, bits: nat): (r: nat)
    requires a < Pow2(bits) && b < Pow2(bits)
    ensures r < Pow2(bits)
  {
    if bits == 0 then 0
    else (if a % 2 == b % 2 then 0 else 1) + 2 * XorBits(a / 2, b / 2, bits - 1)
  }

  lemma {:induction false} XorTwice(a: nat, b: nat, bits: nat)
    requires a < Pow2(bits) && b < Pow2(bits)
    ensures XorBits(XorBits(a, b, bits), b, bits) == a
  {
    if bits != 0 {
      var q := XorBits(a / 2, b / 2, bits - 1);
      XorTwice(a / 2, b / 2, bits - 1);
      var r := XorBits(a, b, bits);
      assert r / 2 == q;
    }
  }

  lemma Pow2Of8()
    ensures Pow2(8) == 256
  {
    assert Pow2(4) == 16;
    assert Pow2(6) == 64;
    assert Pow2(8) == 256;
  }

  function Xor(a: byte, b: byte): byte {
    Pow2Of8();
    XorBits(a, b, 8)
  }

  function Bit(a: nat, i: nat): nat { if i == 0 then a % 2 else Bit(a / 2, i - 1) }

  lemma {:induction false} XorBitsBit(a: nat, b: nat, bits: nat, i: nat)
    requires a < Pow2(bits) && b < Pow2(bits) && i < bits
    ensures Bit(XorBits(a, b, bits), i) == 1 <==> Bit(a, i) != Bit(b, i)
  {
    var q := XorBits(a / 2, b / 2, bits - 1);
    var r := XorBits(a, b, bits);
    assert r / 2 == q;
    if i > 0 { XorBitsBit(a / 2, b / 2, bits - 1, i - 1); }
  }

  /** A bit of the exclusive or is set exactly when the two bits differ. */
  lemma XorIsExclusive(a: byte, b: byte, i: nat)
    requires i < 8
    ensures Bit(Xor(a, b), i) == 1 <==> Bit(a, i) != Bit(b, i)
  {
    Pow2Of8();
    XorBitsBit(a, b, 8, i);
  }

  lemma XorCancels(a: byte, b: byte)
    ensures Xor(Xor(a, b), b) == a
  {
    Pow2Of8();
    XorTwice(a, b, 8);
  }
}
