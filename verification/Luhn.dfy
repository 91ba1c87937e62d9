/** The card-number checksum of both redactors: the algorithm of ISO/IEC 7812-1, Annex B, written in two ways. */
module Luhn {

  predicate IsDigit(c: char)
    ensures IsDigit(c) <==> c in "0123456789"
  {
    '0' <= c <= '9'
  }

  type Digit = d: nat | d <= 9

  function DigitValue(c: char): (d: Digit)
    requires IsDigit(c)
    ensures "0123456789"[d] == c
  {
    c as int - '0' as int
  }

  /** The digits of a text, whatever stands between them. */
  function DigitsOf(s: string): seq<Digit> {
    if s == "" then []
    else
      var before := DigitsOf(s[..|s| - 1]);
      if IsDigit(s[|s| - 1]) then before + [DigitValue(s[|s| - 1])] else before
  }

  /** The decimal digits of twice the digit, added up. */
  function Doubled(d: Digit): (r: Digit)
    ensures r == 2 * d / 10 + 2 * d % 10
  {
    if d <= 4 then 2 * d else 2 * d - 9
  }

  predicate IsEven(n: nat) { n % 2 == 0 }

  function Weight(d: Digit, double: bool): Digit { if double then Doubled(d) else d }

  /** What a digit contributes: every second one counted from the right is doubled. */
  function Weighted(ds: seq<Digit>, i: nat): Digit
    requires i < |ds|
  {
    Weight(ds[i], !IsEven(|ds| - 1 - i))
  }

  /** The contributions of the first `n` digits. */
  function Total(ds: seq<Digit>, n: nat): nat
    requires n <= |ds|
  {
    if n == 0 then 0 else Total(ds, n - 1) + Weighted(ds, n - 1)
  }

  predicate Passes(ds: seq<Digit>) { Total(ds, |ds|) % 10 == 0 }

  // ---------------------------------------------------------------- the two programs

  /** The TypeScript loop, right to left with a flag. */
  method LuhnCheck(s: string) returns (ok: bool)
    ensures ok == Passes(DigitsOf(s))
  {
    var nums := DigitsOf(s);
    var sum, double := 0, false;
    for i := |nums| downto 0
      invariant double == !IsEven(|nums| - i)
      invariant sum + Total(nums, i) == Total(nums, |nums|)
    {
      var d: int := nums[i];
      if double {
        d := d * 2;
        if d > 9 {
          d := d - 9;
        }
      }
      sum := sum + d;
      double := !double;
    }
    ok := sum % 10 == 0;
  }

  /** `ds[start::-2]`. */
  function EveryOther(ds: seq<Digit>, start: int): (slice: seq<Digit>)
    requires start < |ds|
  {
    if start < 0 then [] else [ds[start]] + EveryOther(ds, start - 2)
  }

  function Sum(ds: seq<Digit>): nat { if ds == [] then 0 else ds[0] + Sum(ds[1..]) }

  function SumDoubled(ds: seq<Digit>): nat { if ds == [] then 0 else Doubled(ds[0]) + SumDoubled(ds[1..]) }

  lemma SliceStep(ds: seq<Digit>, k: nat)
    requires k < |ds|
    ensures Sum(EveryOther(ds, k)) == ds[k] + Sum(EveryOther(ds, k - 2))
    ensures SumDoubled(EveryOther(ds, k)) == Doubled(ds[k]) + SumDoubled(EveryOther(ds, k - 2))
  {
    assert EveryOther(ds, k)[1..] == EveryOther(ds, k - 2);
  }

  lemma Alternates(n: nat)
    ensures IsEven(n + 1) == !IsEven(n)
  {}

  lemma {:induction false} SlicesMakeTheTotal(ds: seq<Digit>, k: int)
    requires -1 <= k < |ds| && IsEven(|ds| - 1 - k)
    ensures Sum(EveryOther(ds, k)) + SumDoubled(EveryOther(ds, k - 1)) == Total(ds, k + 1)
    decreases k + 1
  {
    if k >= 0 {
      var m := |ds| - 1 - k;
      Alternates(m);
      SliceStep(ds, k);
      assert Total(ds, k + 1) == Total(ds, k) + ds[k];
      if k >= 1 {
        Alternates(m + 1);
        SlicesMakeTheTotal(ds, k - 2);
        SliceStep(ds, k - 1);
        assert Total(ds, k) == Total(ds, k - 1) + Doubled(ds[k - 1]);
      }
    }
  }

  /** `sum(ds)`. */
  method SumOf(ds: seq<Digit>) returns (sum: nat)
    ensures sum == Sum(ds)
  {
    sum := 0;
    for i := 0 to |ds|
      invariant sum + Sum(ds[i..]) == Sum(ds)
    {
      sum := sum + ds[i];
      assert ds[i..][1..] == ds[i + 1..];
    }
  }

  /** The Python version: the undoubled digits at once, the doubled ones in a loop. */
  method LuhnCheckSliced(s: string) returns (ok: bool)
    ensures ok == Passes(DigitsOf(s))
  {
    var digits := DigitsOf(s);
    var odd, even := EveryOther(digits, |digits| - 1), EveryOther(digits, |digits| - 2);
    var total := SumOf(odd);
    for i := 0 to |even|
      invariant total + SumDoubled(even[i..]) == Sum(odd) + SumDoubled(even)
    {
      var twice := (even[i] as int) * 2;
      total := total + (twice / 10 + twice % 10);
      assert even[i..][1..] == even[i + 1..];
    }
    SlicesMakeTheTotal(digits, |digits| - 1);
    ok := total % 10 == 0;
  }

  // ---------------------------------------------------------------- which numbers pass

  lemma DigitsOfMore(s: string, c: char)
    ensures DigitsOf(s + [c]) == DigitsOf(s) + if IsDigit(c) then [DigitValue(c)] else []
  {
    assert (s + [c])[..|s|] == s;
  }

  /** The digits of two texts one after the other are those of the first, then those of the second. */
  lemma {:induction false} DigitsInOrder(s: string, t: string)
    ensures DigitsOf(s + t) == DigitsOf(s) + DigitsOf(t)
    decreases |t|
  {
    if t == "" {
      assert s + t == s;
    } else {
      var init, last := t[..|t| - 1], t[|t| - 1];
      DigitsInOrder(s, init);
      DigitsOfMore(init, last);
      DigitsOfMore(s + init, last);
      assert t == init + [last] && s + t == (s + init) + [last];
    }
  }

  lemma {:induction false} EveryOtherOfLonger(ds: seq<Digit>, d: Digit, start: int)
    requires start < |ds|
    ensures EveryOther(ds + [d], start) == EveryOther(ds, start)
    decreases start
  {
    if start >= 0 {
      EveryOtherOfLonger(ds, d, start - 2);
    }
  }

  /** What the digits before the check digit contribute: the last of them is doubled, then every second one. */
  function Contribution(ds: seq<Digit>): nat {
    SumDoubled(EveryOther(ds, |ds| - 1)) + Sum(EveryOther(ds, |ds| - 2))
  }

  /** The two slices of the completed number: the check digit before one, the other unchanged. */
  lemma SlicesOfCompleted(ds: seq<Digit>, d: Digit)
    ensures EveryOther(ds + [d], |ds|) == [d] + EveryOther(ds, |ds| - 2)
    ensures EveryOther(ds + [d], |ds| - 1) == EveryOther(ds, |ds| - 1)
  {
    EveryOtherOfLonger(ds, d, |ds| - 1);
    EveryOtherOfLonger(ds, d, |ds| - 2);
  }

  lemma SumOfFirst(d: Digit, rest: seq<Digit>)
    ensures Sum([d] + rest) == d + Sum(rest)
  {
    assert ([d] + rest)[1..] == rest;
  }

  lemma TotalOfAll(all: seq<Digit>, k: nat)
    requires |all| == k + 1
    ensures Total(all, k + 1) == Sum(EveryOther(all, k)) + SumDoubled(EveryOther(all, k - 1))
  {
    SlicesMakeTheTotal(all, k);
  }

  lemma TotalOfCompleted(ds: seq<Digit>, d: Digit)
    ensures Total(ds + [d], |ds| + 1) == Contribution(ds) + d
  {
    TotalOfAll(ds + [d], |ds|);
    SlicesOfCompleted(ds, d);
    SumOfFirst(d, EveryOther(ds, |ds| - 2));
  }

  lemma Completes(sum: nat, d: Digit)
    ensures (sum + d) % 10 == 0 <==> d == (10 - sum % 10) % 10
  {
    assert sum == 10 * (sum / 10) + sum % 10;
  }

  /** Exactly one digit completes a number: the one that brings the contribution of the others to a multiple of ten. */
  lemma CheckDigit(ds: seq<Digit>, d: Digit)
    ensures Passes(ds + [d]) <==> d == (10 - Contribution(ds) % 10) % 10
  {
    TotalOfCompleted(ds, d);
    Completes(Contribution(ds), d);
  }

  // ---------------------------------------------------------------- what the checksum detects

  /** By how much the total moves when digit `i` becomes `d`. */
  function Change(ds: seq<Digit>, i: nat, d: Digit): int
    requires i < |ds|
  {
    Weight(d, !IsEven(|ds| - 1 - i)) - Weighted(ds, i)
  }

  lemma {:induction false} TotalAfterChange(ds: seq<Digit>, i: nat, d: Digit, n: nat)
    requires i < |ds| && n <= |ds|
    ensures Total(ds[i := d], n) == Total(ds, n) + if i < n then Change(ds, i, d) else 0
  {
    if n > 0 {
      TotalAfterChange(ds, i, d, n - 1);
    }
  }

  lemma Shifted(total: nat, shift: int)
    requires total % 10 == 0 && total + shift >= 0
    ensures (total + shift) % 10 == 0 <==> shift % 10 == 0
  {
    assert total == 10 * (total / 10);
  }

  /** Doubling permutes the digits. */
  lemma WeightIsInjective(a: Digit, b: Digit, double: bool)
    ensures (Weight(a, double) - Weight(b, double)) % 10 == 0 <==> a == b
  {}

  /** Any change of a single digit is detected. */
  lemma OneWrongDigit(ds: seq<Digit>, i: nat, d: Digit)
    requires Passes(ds) && i < |ds|
    ensures Passes(ds[i := d]) <==> d == ds[i]
  {
    var double := !IsEven(|ds| - 1 - i);
    TotalAfterChange(ds, i, d, |ds|);
    Shifted(Total(ds, |ds|), Change(ds, i, d));
    WeightIsInjective(d, ds[i], double);
  }

  function Swapped(ds: seq<Digit>, i: nat): seq<Digit>
    requires i + 1 < |ds|
  {
    ds[i := ds[i + 1]][i + 1 := ds[i]]
  }

  /** The two digits a transposition cannot tell apart: their doubles differ by as much as they do. */
  predicate SameShift(a: Digit, b: Digit) { a == b || (a == 0 && b == 9) || (a == 9 && b == 0) }

  /** What doubling adds to a digit's contribution. */
  function Gain(d: Digit): int { Doubled(d) - d }

  lemma GainTellsApart(a: Digit, b: Digit)
    ensures -4 <= Gain(a) <= 4
    ensures Gain(a) == Gain(b) <==> SameShift(a, b)
  {}

  /** By how much the total moves when neighbours change places, the first of them doubled or not. */
  function SwapChange(a: Digit, b: Digit, double: bool): int {
    Weight(b, double) - Weight(a, double) + Weight(a, !double) - Weight(b, !double)
  }

  lemma SwapShifts(a: Digit, b: Digit, double: bool)
    ensures SwapChange(a, b, double) % 10 == 0 <==> SameShift(a, b)
  {
    assert SwapChange(a, b, double) == if double then Gain(b) - Gain(a) else Gain(a) - Gain(b);
    GainTellsApart(a, b);
    GainTellsApart(b, a);
  }

  lemma SecondChange(ds: seq<Digit>, i: nat, a: Digit)
    requires i + 1 < |ds|
    ensures var double := !IsEven(|ds| - 1 - i); Change(ds, i + 1, a) == Weight(a, !double) - Weight(ds[i + 1], !double)
  {
    Alternates(|ds| - 2 - i);
  }

  lemma TotalAfterFirst(ds: seq<Digit>, i: nat, b: Digit, double: bool)
    requires i < |ds| && double == !IsEven(|ds| - 1 - i)
    ensures Total(ds[i := b], |ds|) == Total(ds, |ds|) + Weight(b, double) - Weight(ds[i], double)
  {
    TotalAfterChange(ds, i, b, |ds|);
  }

  lemma TotalAfterSecond(ds: seq<Digit>, i: nat, a: Digit, double: bool)
    requires i + 1 < |ds| && double == !IsEven(|ds| - 1 - i)
    ensures Total(ds[i + 1 := a], |ds|) == Total(ds, |ds|) + Weight(a, !double) - Weight(ds[i + 1], !double)
  {
    TotalAfterChange(ds, i + 1, a, |ds|);
    SecondChange(ds, i, a);
  }

  lemma TotalAfterSwap(ds: seq<Digit>, i: nat, double: bool)
    requires i + 1 < |ds| && double == !IsEven(|ds| - 1 - i)
    ensures Total(Swapped(ds, i), |ds|) == Total(ds, |ds|) + SwapChange(ds[i], ds[i + 1], double)
  {
    var a, b := ds[i], ds[i + 1];
    TotalAfterFirst(ds, i, b, double);
    var mid := ds[i := b];
    assert |mid| == |ds| && mid[i + 1] == b;
    TotalAfterSecond(mid, i, a, double);
    assert SwapChange(a, b, double)
        == Weight(b, double) - Weight(a, double) + Weight(a, !double) - Weight(b, !double);
  }

  /** A transposition of neighbours is detected, except of equal digits and of 0 with 9. */
  lemma TwoSwappedDigits(ds: seq<Digit>, i: nat)
    requires Passes(ds) && i + 1 < |ds|
    ensures Passes(Swapped(ds, i)) <==> SameShift(ds[i], ds[i + 1])
  {
    var double := !IsEven(|ds| - 1 - i);
    TotalAfterSwap(ds, i, double);
    Shifted(Total(ds, |ds|), SwapChange(ds[i], ds[i + 1], double));
    SwapShifts(ds[i], ds[i + 1], double);
  }

  lemma {:induction false} DigitsOfChanged(s: string, i: nat, c: char) returns (k: nat)
    requires i < |s| && IsDigit(s[i]) && IsDigit(c)
    ensures k < |DigitsOf(s)| && DigitsOf(s)[k] == DigitValue(s[i])
    ensures DigitsOf(s[i := c]) == DigitsOf(s)[k := DigitValue(c)]
    decreases |s|
  {
    var n := |s| - 1;
    if i == n {
      k := |DigitsOf(s[..n])|;
      assert s[i := c][..n] == s[..n];
    } else {
      k := DigitsOfChanged(s[..n], i, c);
      assert s[i := c][..n] == s[..n][i := c];
    }
  }

  /** So a card number with one digit replaced by another is never taken for a card number. */
  lemma OneWrongCharacter(s: string, i: nat, c: char)
    requires Passes(DigitsOf(s)) && i < |s| && IsDigit(s[i]) && IsDigit(c) && c != s[i]
    ensures !Passes(DigitsOf(s[i := c]))
  {
    var k := DigitsOfChanged(s, i, c);
    OneWrongDigit(DigitsOf(s), k, DigitValue(c));
  }
}
