/** Small shared vocabulary: optional values, decimal digits and the string
    helpers (`filter(Boolean)`, `join`) that the formatters are built from. */
module Common {

  datatype Option<+T> = None | Some(value: T)

  type Digit = d: int | 0 <= d <= 9

  function Pow10(k: nat): (r: nat)
    ensures r >= 1
  {
    if k == 0 then 1 else 10 * Pow10(k - 1)
  }

  lemma {:induction false} Pow10Add(a: nat, b: nat)
    ensures Pow10(a + b) == Pow10(a) * Pow10(b)
  {
    if a > 0 {
      Pow10Add(a - 1, b);
    }
  }

  lemma {:induction false} Pow10Monotone(a: nat, b: nat)
    requires a <= b
    ensures Pow10(a) <= Pow10(b)
  {
    if a < b {
      Pow10Monotone(a, b - 1);
    }
  }

  /** The number written by a sequence of decimal digits, most significant first. */
  function DigitsValue(ds: seq<Digit>): nat
  {
    if ds == [] then 0 else DigitsValue(ds[..|ds| - 1]) * 10 + ds[|ds| - 1]
  }

  lemma {:induction false} DigitsValueBound(ds: seq<Digit>)
    ensures DigitsValue(ds) < Pow10(|ds|)
  {
    if ds != [] {
      DigitsValueBound(ds[..|ds| - 1]);
    }
  }

  /** Leading zeros do not change the number a digit sequence writes. */
  lemma {:induction false} DigitsValueLeadingZeros(k: nat, ds: seq<Digit>)
    ensures DigitsValue(seq(k, _ => 0) + ds) == DigitsValue(ds)
  {
    if ds == [] {
      if k > 0 {
        var z: seq<Digit> := seq(k, _ => 0);
        assert z[..k - 1] == seq(k - 1, _ => 0);
        DigitsValueLeadingZeros(k - 1, []);
        assert z + [] == z;
        assert seq(k - 1, _ => 0) + [] == seq(k - 1, _ => 0);
      }
    } else {
      var z: seq<Digit> := seq(k, _ => 0);
      DigitsValueLeadingZeros(k, ds[..|ds| - 1]);
      assert (z + ds)[..|z + ds| - 1] == z + ds[..|ds| - 1];
    }
  }

  lemma {:induction false} DigitsValueAppend(ds: seq<Digit>, es: seq<Digit>)
    ensures DigitsValue(ds + es) == DigitsValue(ds) * Pow10(|es|) + DigitsValue(es)
  {
    if es == [] {
      assert ds + es == ds;
    } else {
      var last := es[|es| - 1];
      assert (ds + es)[..|ds + es| - 1] == ds + es[..|es| - 1];
      DigitsValueAppend(ds, es[..|es| - 1]);
      calc {
        DigitsValue(ds + es);
        DigitsValue(ds + es[..|es| - 1]) * 10 + last;
        (DigitsValue(ds) * Pow10(|es| - 1) + DigitsValue(es[..|es| - 1])) * 10 + last;
        DigitsValue(ds) * (Pow10(|es| - 1) * 10) + (DigitsValue(es[..|es| - 1]) * 10 + last);
      }
    }
  }

  /** The decimal digits of `n` without leading zeros (`[0]` for zero). */
  function NatDigits(n: nat): (ds: seq<Digit>)
    ensures |ds| >= 1
    ensures |ds| > 1 ==> ds[0] != 0
    ensures DigitsValue(ds) == n
  {
    if n < 10 then [n] else NatDigits(n / 10) + [n % 10]
  }

  lemma {:induction false} NatDigitsLength(n: nat, k: nat)
    requires 1 <= k
    requires n < Pow10(k)
    ensures |NatDigits(n)| <= k
  {
    if n >= 10 {
      assert k >= 2;
      NatDigitsLength(n / 10, k - 1);
    }
  }

  /** A number below `10^n`, shifted left by `k` places, stays below `10^(n + k)`. */
  lemma ShiftBound(c: nat, n: nat, k: nat)
    requires c < Pow10(n)
    ensures c * Pow10(k) < Pow10(n + k)
  {
    Pow10Add(n, k);
  }

  /** The numbers from `10^(k-1)` up to, not including, `10^k` have exactly
      `k` digits. */
  lemma NatDigitsLengthExact(n: nat, k: nat)
    requires 1 <= k && Pow10(k - 1) <= n < Pow10(k)
    ensures |NatDigits(n)| == k
  {
    NatDigitsLength(n, k);
    DigitsValueBound(NatDigits(n));
    if |NatDigits(n)| < k {
      Pow10Monotone(|NatDigits(n)|, k - 1);
      assert false;
    }
  }

  predicate IsDigitChar(c: char)
  {
    '0' <= c <= '9'
  }

  predicate AllDigits(s: string)
  {
    forall i :: 0 <= i < |s| ==> IsDigitChar(s[i])
  }

  function DigitChar(d: Digit): (c: char)
    ensures IsDigitChar(c)
  {
    ('0' as int + d) as char
  }

  function CharDigit(c: char): Digit
    requires IsDigitChar(c)
  {
    c as int - '0' as int
  }

  function DigitString(ds: seq<Digit>): (s: string)
    ensures |s| == |ds| && AllDigits(s)
  {
    seq(|ds|, i requires 0 <= i < |ds| => DigitChar(ds[i]))
  }

  function StringDigits(s: string): (ds: seq<Digit>)
    requires AllDigits(s)
    ensures |ds| == |s|
  {
    seq(|s|, i requires 0 <= i < |s| => CharDigit(s[i]))
  }

  /** Reading a digit string back recovers the digits that were written. */
  lemma DigitStringRoundTrip(ds: seq<Digit>)
    ensures StringDigits(DigitString(ds)) == ds
  {
    var back := StringDigits(DigitString(ds));
    forall i | 0 <= i < |ds| ensures back[i] == ds[i] {
      assert DigitString(ds)[i] == DigitChar(ds[i]);
    }
  }

  /** `String(n)` for a non-negative integer `n`. */
  function NatToString(n: nat): (s: string)
    ensures |s| >= 1 && AllDigits(s)
  {
    DigitString(NatDigits(n))
  }

  /** The value of a non-empty string of ASCII digits. */
  function ParseNat(s: string): nat
    requires AllDigits(s)
  {
    DigitsValue(StringDigits(s))
  }

  lemma {:induction false} ParseNatToString(n: nat)
    ensures ParseNat(NatToString(n)) == n
  {
    DigitStringRoundTrip(NatDigits(n));
  }

  lemma AllDigitsAppend(a: string, b: string)
    requires AllDigits(a) && AllDigits(b)
    ensures AllDigits(a + b)
  {
    forall i | 0 <= i < |a + b| ensures IsDigitChar((a + b)[i]) {
      if i >= |a| {
        assert (a + b)[i] == b[i - |a|];
      }
    }
  }

  lemma StringDigitsAppend(a: string, b: string)
    requires AllDigits(a) && AllDigits(b) && AllDigits(a + b)
    ensures StringDigits(a + b) == StringDigits(a) + StringDigits(b)
  {
    var s, ds, es := a + b, StringDigits(a), StringDigits(b);
    forall i | 0 <= i < |s| ensures StringDigits(s)[i] == (ds + es)[i] {
      if i >= |a| {
        assert s[i] == b[i - |a|];
      }
    }
  }

  /** Reading `a + b` reads `a`, shifts it left by `|b|` places and adds `b`. */
  lemma ParseNatAppend(a: string, b: string)
    requires AllDigits(a) && AllDigits(b)
    ensures AllDigits(a + b)
    ensures ParseNat(a + b) == ParseNat(a) * Pow10(|b|) + ParseNat(b)
  {
    AllDigitsAppend(a, b);
    StringDigitsAppend(a, b);
    DigitsValueAppend(StringDigits(a), StringDigits(b));
  }

  /** Two digit sequences of the same length that write the same number are equal. */
  lemma {:induction false} DigitsValueInjective(a: seq<Digit>, b: seq<Digit>)
    requires |a| == |b|
    requires DigitsValue(a) == DigitsValue(b)
    ensures a == b
  {
    if a != [] {
      var n := |a| - 1;
      assert DigitsValue(a) % 10 == a[n] && DigitsValue(b) % 10 == b[n];
      assert DigitsValue(a[..n]) == DigitsValue(b[..n]);
      DigitsValueInjective(a[..n], b[..n]);
      assert a == a[..n] + [a[n]] && b == b[..n] + [b[n]];
    }
  }

  lemma StringDigitsInjective(s: string, t: string)
    requires AllDigits(s) && AllDigits(t)
    requires StringDigits(s) == StringDigits(t)
    ensures s == t
  {
    forall i | 0 <= i < |s| ensures s[i] == t[i] {
      assert StringDigits(s)[i] == StringDigits(t)[i];
    }
  }

  lemma StringDigitsZeros(k: nat, s: string)
    requires AllDigits(s)
    ensures AllDigits(seq(k, _ => '0') + s)
    ensures StringDigits(seq(k, _ => '0') + s) == seq(k, _ => 0) + StringDigits(s)
  {
    var z := seq(k, _ => '0') + s;
    assert forall i :: 0 <= i < |z| ==> IsDigitChar(z[i]) by {
      forall i | 0 <= i < |z| ensures IsDigitChar(z[i]) {
        if i >= k { assert z[i] == s[i - k]; }
      }
    }
    var l := StringDigits(z);
    var r: seq<Digit> := seq(k, _ => 0) + StringDigits(s);
    forall i | 0 <= i < |l| ensures l[i] == r[i] {
      if i >= k { assert z[i] == s[i - k]; }
    }
  }

  /** A number written with leading zeros up to `width` digits reads back as itself. */
  lemma {:induction false} ParsePaddedNat(n: nat, width: nat)
    ensures AllDigits(PadLeft(NatToString(n), width, '0'))
    ensures ParseNat(PadLeft(NatToString(n), width, '0')) == n
  {
    var s := NatToString(n);
    ParseNatToString(n);
    if |s| < width {
      StringDigitsZeros(width - |s|, s);
      DigitsValueLeadingZeros(width - |s|, StringDigits(s));
    }
  }

  /** A digit string is the padded rendering of its own value. */
  lemma {:induction false} PaddedParse(t: string)
    requires |t| >= 1 && AllDigits(t)
    ensures PadLeft(NatToString(ParseNat(t)), |t|, '0') == t
  {
    var v := ParseNat(t);
    DigitsValueBound(StringDigits(t));
    NatDigitsLength(v, |t|);
    var p := PadLeft(NatToString(v), |t|, '0');
    ParsePaddedNat(v, |t|);
    DigitsValueInjective(StringDigits(p), StringDigits(t));
    StringDigitsInjective(p, t);
  }

  /** `s` padded on the left with `c` to at least `width` characters. */
  function PadLeft(s: string, width: nat, c: char): (r: string)
    ensures |r| == if |s| >= width then |s| else width
    ensures r[|r| - |s|..] == s
    ensures forall i :: 0 <= i < |r| - |s| ==> r[i] == c
  {
    if |s| >= width then s else seq(width - |s|, _ => c) + s
  }

  /** JavaScript's `parts.filter(Boolean)` on strings: keep the non-empty ones, in order. */
  function NonEmpty(parts: seq<string>): (r: seq<string>)
    ensures |r| <= |parts|
    ensures forall i :: 0 <= i < |r| ==> r[i] != "" && r[i] in parts
  {
    if parts == [] then []
    else if parts[0] == "" then NonEmpty(parts[1..])
    else [parts[0]] + NonEmpty(parts[1..])
  }

  /** JavaScript's `parts.join(sep)`. */
  function Join(parts: seq<string>, sep: string): string
  {
    if parts == [] then ""
    else if |parts| == 1 then parts[0]
    else parts[0] + sep + Join(parts[1..], sep)
  }

  /** Splitting at every occurrence of the one-character separator `sep`. */
  function Split(s: string, sep: char): (r: seq<string>)
    ensures |r| >= 1
    decreases |s|
  {
    if sep !in s then [s]
    else
      var k := IndexOf(s, sep);
      [s[..k]] + Split(s[k + 1..], sep)
  }

  function IndexOf(s: string, c: char): (k: nat)
    requires c in s
    ensures k < |s| && s[k] == c && c !in s[..k]
  {
    if s[0] == c then 0 else 1 + IndexOf(s[1..], c)
  }

  /** Joining separator-free pieces and splitting again gives the pieces back. */
  lemma {:induction false} SplitJoin(parts: seq<string>, sep: char)
    requires |parts| >= 1
    requires forall i :: 0 <= i < |parts| ==> sep !in parts[i]
    ensures Split(Join(parts, [sep]), sep) == parts
  {
    if |parts| == 1 {
    } else {
      var rest := Join(parts[1..], [sep]);
      var s := parts[0] + [sep] + rest;
      assert s[|parts[0]|] == sep;
      assert s[..|parts[0]|] == parts[0];
      assert sep in s;
      var k := IndexOf(s, sep);
      assert k == |parts[0]|;
      assert s[k + 1..] == rest;
      SplitJoin(parts[1..], sep);
    }
  }
}
