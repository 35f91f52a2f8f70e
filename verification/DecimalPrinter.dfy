/** The bounded decimal printer of the logger: at most eight digits, through a ten-character scratch
    buffer filled from the right, then copied into a buffer with a limit. */
module DecimalPrinter {
  import opened Decimals

  /** The last `k` decimal digits of `n`. */
  function Digits(n: nat, k: nat): (s: string)
    ensures |s| == k && AllDigits(s)
    decreases k
  {
    if k == 0 then "" else Digits(n / 10, k - 1) + [Digit(n % 10)]
  }

  /** `n` without its last `k` digits. */
  function Shifted(n: nat, k: nat): nat
    decreases k
  {
    if k == 0 then n else Shifted(n / 10, k - 1)
  }

  function NumDigits(n: nat): (k: nat)
    ensures k >= 1
  {
    if n < 10 then 1 else 1 + NumDigits(n / 10)
  }

  function Pow10(k: nat): (p: nat)
    ensures p >= 1
  {
    if k == 0 then 1 else 10 * Pow10(k - 1)
  }

  function Min(a: int, b: int): int {
    if a < b then a else b
  }

  /** The digits asked for, of which there are never more than eight. */
  function Cap(len: int): nat {
    if len <= 0 then 0 else Min(len, 8)
  }

  /** How many characters are printed. Zero takes one character even when none is asked for. */
  function Width(n: nat, len: int, zeroPadded: bool): nat {
    if n == 0 && (!zeroPadded || len <= 0) then 1
    else if zeroPadded then Cap(len)
    else Min(Cap(len), NumDigits(n))
  }

  function Text(n: nat, len: int, zeroPadded: bool): string {
    Digits(n, Width(n, len, zeroPadded))
  }

  // ---------- what the text says ----------

  lemma {:induction false} Multiples(d: nat, a: nat, b: nat)
    requires a < b
    ensures d * a + d <= d * b
    decreases b
  {
    assert d * (b - 1) + d == d * b;
    if a < b - 1 {
      Multiples(d, a, b - 1);
    }
  }

  lemma ModUnique(n: nat, d: nat, q: nat, r: nat)
    requires d > 0 && n == d * q + r && r < d
    ensures n % d == r
  {
    var q', r' := n / d, n % d;
    assert n == d * q' + r' && r' < d;
    if q < q' {
      Multiples(d, q, q');
      assert false;
    }
    if q' < q {
      Multiples(d, q', q);
      assert false;
    }
  }

  lemma ValueStep(n: nat, k: nat)
    requires k > 0
    ensures DecimalValue(Digits(n, k)) == DecimalValue(Digits(n / 10, k - 1)) * 10 + n % 10
  {
    assert Digits(n, k)[..k - 1] == Digits(n / 10, k - 1);
  }

  lemma SplitStep(q: nat, r: nat, m: nat, high: nat, low: nat)
    requires q == m * high + low && low < m && r < 10
    ensures q * 10 + r == (10 * m) * high + (low * 10 + r)
    ensures low * 10 + r < 10 * m
  {
    assert (10 * m) * high == 10 * (m * high);
  }

  lemma {:induction false} DigitsSplit(n: nat, k: nat)
    ensures n == Pow10(k) * Shifted(n, k) + DecimalValue(Digits(n, k))
    ensures DecimalValue(Digits(n, k)) < Pow10(k)
    decreases k
  {
    if k > 0 {
      var q, r := n / 10, n % 10;
      DigitsSplit(q, k - 1);
      var m, high, low := Pow10(k - 1), Shifted(q, k - 1), DecimalValue(Digits(q, k - 1));
      SplitStep(q, r, m, high, low);
      assert DecimalValue(Digits(n, k)) == low * 10 + r by {
        ValueStep(n, k);
      }
      assert q * 10 + r == n;
    }
  }

  lemma ValueOfDigits(n: nat, k: nat)
    ensures DecimalValue(Digits(n, k)) == n % Pow10(k)
  {
    DigitsSplit(n, k);
    ModUnique(n, Pow10(k), Shifted(n, k), DecimalValue(Digits(n, k)));
  }

  lemma SmallMod(n: nat, d: nat)
    requires n < d
    ensures n % d == n
  {
    ModUnique(n, d, 0, n);
  }

  lemma {:induction false} NumDigitsBound(n: nat)
    ensures n < Pow10(NumDigits(n))
    ensures n > 0 ==> n >= Pow10(NumDigits(n) - 1)
  {
    if n >= 10 {
      NumDigitsBound(n / 10);
    }
  }

  lemma {:induction false} Pow10Grows(j: nat, k: nat)
    requires j <= k
    ensures Pow10(j) <= Pow10(k)
    decreases k - j
  {
    if j < k {
      Pow10Grows(j, k - 1);
    }
  }

  /** Without padding there are as many characters as the number has digits, up to the length asked for:
      another one would be a leading zero, and one less would lose a digit. */
  lemma UnpaddedLength(n: nat, len: int)
    requires len >= 1
    ensures var text := Text(n, len, false);
            && 1 <= |text| <= Min(len, 8)
            && (|text| > 1 ==> n >= Pow10(|text| - 1))
            && (|text| < Min(len, 8) ==> n < Pow10(|text|))
  {
    NumDigitsBound(n);
    var k := |Text(n, len, false)|;
    if n > 0 {
      Pow10Grows(k - 1, NumDigits(n) - 1);
    }
  }

  /** With no length asked for, nothing is printed but the number zero. */
  lemma NoLength(n: nat, len: int, zeroPadded: bool)
    requires len <= 0
    ensures Text(n, len, zeroPadded) == if n == 0 then "0" else ""
  {
    if n == 0 {
      assert Digits(0, 1) == "" + [Digit(0)];
    }
  }

  /** The printed text is a decimal numeral for the number, reduced to the digits asked for (at most
      eight); zero padding fills it up to exactly that many. */
  lemma TextDenotes(n: nat, len: int, zeroPadded: bool)
    requires len >= 1
    ensures DecimalValue(Text(n, len, zeroPadded)) == n % Pow10(Min(len, 8))
    ensures zeroPadded ==> |Text(n, len, zeroPadded)| == Min(len, 8)
  {
    var k, cap := Width(n, len, zeroPadded), Min(len, 8);
    assert DecimalValue(Digits(n, k)) == n % Pow10(k) by {
      ValueOfDigits(n, k);
    }
    if k < cap {
      NumDigitsBound(n);
      Pow10Grows(k, cap);
      SmallMod(n, Pow10(k));
      SmallMod(n, Pow10(cap));
    }
  }

  // ---------- the loops ----------

  lemma {:induction false} ShiftedSucc(n: nat, k: nat)
    ensures Shifted(n, k + 1) == Shifted(n, k) / 10
    decreases k
  {
    if k > 0 {
      ShiftedSucc(n / 10, k - 1);
    }
  }

  lemma {:induction false} DigitsFront(n: nat, k: nat)
    ensures Digits(n, k + 1) == [Digit(Shifted(n, k) % 10)] + Digits(n, k)
    decreases k
  {
    if k > 0 {
      DigitsFront(n / 10, k - 1);
    }
  }

  /** When nothing is left to shift, the digits so far are all there are. */
  lemma {:induction false} ShiftedZero(n: nat, k: nat)
    ensures n > 0 ==> (Shifted(n, k) == 0 <==> NumDigits(n) <= k)
    ensures n == 0 ==> Shifted(n, k) == 0
    decreases k
  {
    if k > 0 {
      ShiftedZero(n / 10, k - 1);
    }
  }

  method AddToBuff(str: array<char>, from: nat, ghost text: string, buf: array<char>, pos: nat, lim: nat)
    returns (end: nat)
    requires str != buf && lim <= buf.Length
    requires from + |text| < str.Length && str[from..from + |text|] == text && str[from + |text|] == '\0'
    requires forall i | 0 <= i < |text| :: text[i] != '\0'
    modifies buf
    ensures end == pos + if pos < lim then Min(|text|, lim - pos) else 0
    ensures pos < lim ==> buf[pos..end] == text[..end - pos]
    ensures forall i | 0 <= i < buf.Length && !(pos <= i < end) && !(i == end < lim) :: buf[i] == old(buf[i])
    ensures end < lim ==> buf[end] == '\0'
  {
    end := pos;
    var i := from;
    while end < lim
      invariant from <= i <= from + |text| && end == pos + (i - from)
      invariant end <= lim || end == pos
      invariant forall j | pos <= j < end :: buf[j] == text[j - pos]
      invariant forall j | 0 <= j < buf.Length && !(pos <= j < end) :: buf[j] == old(buf[j])
      invariant str[from..from + |text|] == text && str[from + |text|] == '\0'
    {
      buf[end] := str[i];
      assert i < from + |text| ==> str[i] == str[from..from + |text|][i - from];
      if str[i] == '\0' {
        return;
      }
      i, end := i + 1, end + 1;
    }
  }

  /** Characters `p` to 7 of the scratch buffer hold the last digits of `n`, and character 8 ends them. */
  ghost predicate Holds(local: array<char>, p: int, n: nat)
    reads local
  {
    local.Length == 10 && 0 <= p <= 8 && local[p..8] == Digits(n, 8 - p) && local[8] == '\0'
  }

  method PutDigit(local: array<char>, p: int, c: char, ghost n: nat)
    requires Holds(local, p, n) && p > 0 && c == Digit(Shifted(n, 8 - p) % 10)
    modifies local
    ensures Holds(local, p - 1, n)
  {
    DigitsFront(n, 8 - p);
    ghost var before := local[p..8];
    local[p - 1] := c;
    assert local[p..8] == before;
    assert local[p - 1..8] == [c] + before;
  }

  method FillDigits(local: array<char>, n: nat, len: int) returns (p: int, left: int)
    requires Holds(local, 8, n)
    modifies local
    ensures Holds(local, p, n)
    ensures 8 - p == Width(n, len, false) && left == len - (8 - p)
  {
    var rest := n;
    p, left := 8, len;
    if n > 0 {
      while rest > 0 && p > 0 && left > 0
        invariant Holds(local, p, n)
        invariant left == len - (8 - p) && rest == Shifted(n, 8 - p)
        invariant 8 - p <= NumDigits(n) && 8 - p <= Cap(len)
        decreases p
      {
        ShiftedSucc(n, 8 - p);
        ShiftedZero(n, 8 - p);
        PutDigit(local, p, Digit(rest % 10), n);
        p, rest, left := p - 1, rest / 10, left - 1;
      }
      ShiftedZero(n, 8 - p);
    } else {
      PutDigit(local, p, '0', n);
      p, left := p - 1, left - 1;
    }
  }

  method PadZeros(local: array<char>, n: nat, len: int, from: int) returns (p: int)
    requires Holds(local, from, n) && 8 - from == Width(n, len, false)
    modifies local
    ensures Holds(local, p, n) && 8 - p == Width(n, len, true)
  {
    var left := len - (8 - from);
    p := from;
    ShiftedZero(n, 8 - p);
    while p > 0 && left > 0
      invariant Holds(local, p, n) && p <= from
      invariant left == len - (8 - p)
      invariant p == 0 || left <= 0 || Shifted(n, 8 - p) == 0
      invariant 8 - p <= Width(n, len, true)
      decreases p
    {
      ShiftedSucc(n, 8 - p);
      PutDigit(local, p, '0', n);
      p, left := p - 1, left - 1;
    }
  }

  method ConvertAndAddToBuff(n: nat, len: int, buf: array<char>, pos: nat, lim: nat, zeroPadded: bool)
    returns (end: nat)
    requires lim <= buf.Length
    modifies buf
    ensures var text := Text(n, len, zeroPadded);
            && end == pos + (if pos < lim then Min(|text|, lim - pos) else 0)
            && (pos < lim ==> buf[pos..end] == text[..end - pos])
    ensures end < lim ==> buf[end] == '\0'
    ensures forall i | 0 <= i < buf.Length && !(pos <= i < end) && !(i == end < lim) :: buf[i] == old(buf[i])
  {
    var local := new char[10](_ => '\0');
    var p, left := FillDigits(local, n, len);
    if zeroPadded {
      p := PadZeros(local, n, len, p);
    }
    end := AddToBuff(local, p, Text(n, len, zeroPadded), buf, pos, lim);
  }
}
