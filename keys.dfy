/**
 * The record keys that `create_lmdb_from_array` assigns: `'{:08}'.format(idx)`,
 * the decimal digits of `idx` left-padded with '0' to at least eight
 * characters.  The store orders its cursor by comparing keys byte by byte.
 */
module Keys {

  type Key = string

  predicate IsDigit(c: char) {
    '0' <= c <= '9'
  }

  predicate AllDigits(s: string) {
    forall i :: 0 <= i < |s| ==> IsDigit(s[i])
  }

  function DigitChar(d: nat): (c: char)
    requires d < 10
    ensures IsDigit(c) && DigitValue(c) == d
  {
    ('0' as int + d) as char
  }

  function DigitValue(c: char): nat
    requires IsDigit(c)
  {
    c as int - '0' as int
  }

  function Pow10(k: nat): (p: nat)
    ensures p >= 1
  {
    if k == 0 then 1 else 10 * Pow10(k - 1)
  }

  /** `str(n)`: the shortest decimal representation of `n`. */
  function Digits(n: nat): (s: string)
    ensures 1 <= |s| && AllDigits(s)
    ensures |s| > 1 ==> s[0] != '0'
  {
    if n < 10 then [DigitChar(n)] else Digits(n / 10) + [DigitChar(n % 10)]
  }

  function Zeros(k: nat): (z: string)
    ensures |z| == k && forall i :: 0 <= i < k ==> z[i] == '0'
  {
    seq(k, _ => '0')
  }

  /** `'{:08}'.format(idx)`: pad with leading zeros to width 8, never truncate. */
  function FormatIndex(idx: nat): (key: Key)
    ensures AllDigits(key) && |key| >= 8
  {
    var d := Digits(idx);
    if |d| >= 8 then d else Zeros(8 - |d|) + d
  }

  /** The number a string of decimal digits denotes, most significant digit first. */
  function DecimalValue(s: string): nat
    requires AllDigits(s)
  {
    if s == [] then 0 else DigitValue(s[0]) * Pow10(|s| - 1) + DecimalValue(s[1..])
  }

  /** Byte-wise comparison of keys, as the store's cursor orders them: a proper prefix comes first. */
  predicate LexLess(s: string, t: string) {
    if s == [] then t != []
    else t != [] && (s[0] < t[0] || (s[0] == t[0] && LexLess(s[1..], t[1..])))
  }

  // ---------------------------------------------------------------------

  lemma {:induction false} ValueAppend(s: string, c: char)
    requires AllDigits(s) && IsDigit(c)
    ensures AllDigits(s + [c])
    ensures DecimalValue(s + [c]) == 10 * DecimalValue(s) + DigitValue(c)
  {
    if s == [] {
      assert [c][1..] == [];
    } else {
      assert (s + [c])[1..] == s[1..] + [c];
      ValueAppend(s[1..], c);
      calc {
        DecimalValue(s + [c]);
        DigitValue(s[0]) * Pow10(|s|) + DecimalValue(s[1..] + [c]);
        DigitValue(s[0]) * (10 * Pow10(|s| - 1)) + 10 * DecimalValue(s[1..]) + DigitValue(c);
        { assert DigitValue(s[0]) * (10 * Pow10(|s| - 1)) == 10 * (DigitValue(s[0]) * Pow10(|s| - 1)); }
        10 * DecimalValue(s) + DigitValue(c);
      }
    }
  }

  lemma {:induction false} ValueOfZeros(k: nat, s: string)
    requires AllDigits(s)
    ensures AllDigits(Zeros(k) + s)
    ensures DecimalValue(Zeros(k) + s) == DecimalValue(s)
  {
    if k > 0 {
      var z := Zeros(k) + s;
      assert z[0] == '0' && z[1..] == Zeros(k - 1) + s;
      ValueOfZeros(k - 1, s);
      assert AllDigits(z) by {
        forall i | 0 <= i < |z| ensures IsDigit(z[i]) {
          if i >= k { assert z[i] == s[i - k]; }
        }
      }
      assert DigitValue(z[0]) == 0;
      assert DecimalValue(z) == DecimalValue(z[1..]);
    } else {
      assert Zeros(k) + s == s;
    }
  }

  lemma {:induction false} ValueBound(s: string)
    requires AllDigits(s)
    ensures DecimalValue(s) < Pow10(|s|)
  {
    if s != [] {
      ValueBound(s[1..]);
      LeadingDigitBound(DigitValue(s[0]), Pow10(|s| - 1), DecimalValue(s[1..]));
    }
  }

  /** `str` and decimal parsing are inverse. */
  lemma {:induction false} DigitsValue(n: nat)
    ensures DecimalValue(Digits(n)) == n
  {
    if n >= 10 {
      DigitsValue(n / 10);
      ValueAppend(Digits(n / 10), DigitChar(n % 10));
    }
  }

  lemma {:induction false} DigitsLength(n: nat, k: nat)
    requires 1 <= k && n < Pow10(k)
    ensures |Digits(n)| <= k
  {
    if n >= 10 {
      DigitsLength(n / 10, k - 1);
    }
  }

  /** The key decodes back to the index it was made from, for every index. */
  lemma {:induction false} FormatIndexValue(idx: nat)
    ensures DecimalValue(FormatIndex(idx)) == idx
  {
    var d := Digits(idx);
    DigitsValue(idx);
    if |d| < 8 {
      ValueOfZeros(8 - |d|, d);
    }
  }

  /** Keys of distinct indices are distinct. */
  lemma KeysDistinct(i: nat, j: nat)
    requires i != j
    ensures FormatIndex(i) != FormatIndex(j)
  {
    FormatIndexValue(i);
    FormatIndexValue(j);
  }

  /** Below 10^8 every key is exactly eight characters long. */
  lemma KeyLength(idx: nat)
    requires idx < 100000000
    ensures |FormatIndex(idx)| == 8
  {
    assert Pow10(8) == 100000000;
    DigitsLength(idx, 8);
  }

  /** For digit strings of one length, byte order is numeric order. */
  lemma {:induction false} LexOrderIsNumeric(s: string, t: string)
    requires AllDigits(s) && AllDigits(t) && |s| == |t|
    requires DecimalValue(s) < DecimalValue(t)
    ensures LexLess(s, t)
  {
    var p := Pow10(|s| - 1);
    var ds, dt := DigitValue(s[0]), DigitValue(t[0]);
    ValueBound(s[1..]);
    ValueBound(t[1..]);
    if ds == dt {
      LexOrderIsNumeric(s[1..], t[1..]);
    } else if ds > dt {
      LeadingDigitDominates(dt, ds, p, DecimalValue(s[1..]), DecimalValue(t[1..]));
      assert false;
    }
  }

  /** Byte order is transitive. */
  lemma {:induction false} LexLessTransitive(r: string, s: string, t: string)
    requires LexLess(r, s) && LexLess(s, t)
    ensures LexLess(r, t)
  {
    if r != [] && r[0] == s[0] && s[0] == t[0] {
      LexLessTransitive(r[1..], s[1..], t[1..]);
    }
  }

  /** Byte order is irreflexive: a key never sorts before itself. */
  lemma {:induction false} LexLessIrreflexive(s: string)
    ensures !LexLess(s, s)
  {
    if s != [] {
      LexLessIrreflexive(s[1..]);
    }
  }

  /** Below 10^8, keys are strictly increasing in byte order with the index. */
  lemma KeysIncreasing(i: nat, j: nat)
    requires i < j < 100000000
    ensures LexLess(FormatIndex(i), FormatIndex(j))
  {
    KeyLength(i);
    KeyLength(j);
    FormatIndexValue(i);
    FormatIndexValue(j);
    LexOrderIsNumeric(FormatIndex(i), FormatIndex(j));
  }

  /** The bound 10^8 is tight: the nine-digit key of 10^8 sorts before the key of 10^8 - 1. */
  lemma KeyOrderBreaksAtNineDigits()
    ensures LexLess(FormatIndex(100000000), FormatIndex(99999999))
  {
    assert Pow10(8) == 100000000;
    DigitsLength(99999999, 8);
    var big := Digits(100000000);
    assert big[0] == Digits(10000000)[0];
    assert Digits(10000000)[0] == Digits(1000000)[0];
    assert Digits(1000000)[0] == Digits(100000)[0];
    assert Digits(100000)[0] == Digits(10000)[0];
    assert Digits(10000)[0] == Digits(1000)[0];
    assert Digits(1000)[0] == Digits(100)[0];
    assert Digits(100)[0] == Digits(10)[0];
    assert Digits(10)[0] == '1';
    var small := Digits(99999999);
    assert small[0] == Digits(9999999)[0];
    assert Digits(9999999)[0] == Digits(999999)[0];
    assert Digits(999999)[0] == Digits(99999)[0];
    assert Digits(99999)[0] == Digits(9999)[0];
    assert Digits(9999)[0] == Digits(999)[0];
    assert Digits(999)[0] == Digits(99)[0];
    assert Digits(99)[0] == Digits(9)[0];
    assert Digits(9)[0] == '9';
    DigitsLengthAtLeast(100000000, 8);
    DigitsLengthAtLeast(99999999, 7);
    assert Pow10(7) == 10000000;
  }

  lemma {:induction false} DigitsLengthAtLeast(n: nat, k: nat)
    requires Pow10(k) <= n
    ensures |Digits(n)| >= k + 1
  {
    if k > 0 {
      assert n / 10 >= Pow10(k - 1);
      DigitsLengthAtLeast(n / 10, k - 1);
    }
  }

  lemma LeadingDigitBound(d: nat, p: nat, rest: nat)
    requires d <= 9 && rest < p
    ensures d * p + rest < 10 * p
  {
    assert d * p <= 9 * p;
  }

  lemma LeadingDigitDominates(dt: nat, ds: nat, p: nat, rs: nat, rt: nat)
    requires dt < ds && rt < p
    ensures dt * p + rt < ds * p + rs
  {
    var e := ds - dt;
    assert ds * p == dt * p + e * p;
    assert e * p == p + (e - 1) * p;
  }
}
