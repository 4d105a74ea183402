/** Toast ids: a counter that wraps at `Number.MAX_SAFE_INTEGER`, written out
    in decimal (`count.toString()`). */
module ToastIds {

  /** `Number.MAX_SAFE_INTEGER`, 2^53 - 1. */
  const MaxSafeInteger: nat := 9007199254740991

  /** One step of `genId`: add one, modulo `MaxSafeInteger`. */
  function NextCount(c: nat): (r: nat)
    ensures r < MaxSafeInteger
    ensures c + 1 < MaxSafeInteger ==> r == c + 1
    ensures c + 1 == MaxSafeInteger ==> r == 0
  {
    (c + 1) % MaxSafeInteger
  }

  /** The counter after `k` calls of `genId`, starting from `c`. */
  function CountAfter(c: nat, k: nat): nat
  {
    if k == 0 then c else NextCount(CountAfter(c, k - 1))
  }

  /** Within two wrap periods the counter is `c + k`, less one period once it wrapped. */
  lemma {:induction false} CountAfterClosedForm(c: nat, k: nat)
    requires c < MaxSafeInteger && k <= MaxSafeInteger
    ensures CountAfter(c, k) == if c + k < MaxSafeInteger then c + k else c + k - MaxSafeInteger
  {
    if k > 0 {
      CountAfterClosedForm(c, k - 1);
    }
  }

  /** The counters of any `MaxSafeInteger` successive calls are pairwise distinct. */
  lemma CountsDistinctWithinWrap(c: nat, i: nat, j: nat)
    requires c < MaxSafeInteger
    requires 1 <= i < j <= MaxSafeInteger
    ensures CountAfter(c, i) != CountAfter(c, j)
  {
    CountAfterClosedForm(c, i);
    CountAfterClosedForm(c, j);
  }

  // ---------------------------------------------------------------------
  // Decimal strings
  // ---------------------------------------------------------------------

  function DigitChar(d: nat): char
    requires d < 10
  {
    "0123456789"[d]
  }

  function DigitValue(ch: char): nat
  {
    if '0' <= ch <= '9' then (ch as int - '0' as int) as nat else 0
  }

  /** `n.toString()` for a non-negative integer below 2^53: its decimal digits,
      most significant first, with no leading zero. */
  function DecimalString(n: nat): (r: string)
    ensures |r| >= 1
    ensures forall k :: 0 <= k < |r| ==> '0' <= r[k] <= '9'
    ensures r[0] == '0' ==> n == 0
  {
    if n < 10 then [DigitChar(n)] else DecimalString(n / 10) + [DigitChar(n % 10)]
  }

  /** Reads a decimal string back. */
  function ParseDecimal(s: string): nat
  {
    if s == [] then 0 else ParseDecimal(s[..|s| - 1]) * 10 + DigitValue(s[|s| - 1])
  }

  lemma DigitRoundTrip(d: nat)
    requires d < 10
    ensures DigitValue(DigitChar(d)) == d
  {
  }

  /** Reading back a written counter gives the counter. */
  lemma {:induction false} DecimalRoundTrip(n: nat)
    ensures ParseDecimal(DecimalString(n)) == n
  {
    var s := DecimalString(n);
    if n < 10 {
      DigitRoundTrip(n);
      assert s[..|s| - 1] == [];
    } else {
      DecimalRoundTrip(n / 10);
      DigitRoundTrip(n % 10);
      assert s[..|s| - 1] == DecimalString(n / 10);
    }
  }

  /** Distinct counters give distinct ids. */
  lemma DecimalStringInjective(a: nat, b: nat)
    requires a != b
    ensures DecimalString(a) != DecimalString(b)
  {
    DecimalRoundTrip(a);
    DecimalRoundTrip(b);
  }

  /** The id produced by the `k`-th call of `genId` after the counter was `c`. */
  function IdAfter(c: nat, k: nat): string
  {
    DecimalString(CountAfter(c, k))
  }

  /** Ids produced by successive calls within one wrap period are pairwise distinct. */
  lemma IdsDistinctWithinWrap(c: nat, i: nat, j: nat)
    requires c < MaxSafeInteger
    requires 1 <= i < j <= MaxSafeInteger
    ensures IdAfter(c, i) != IdAfter(c, j)
  {
    CountsDistinctWithinWrap(c, i, j);
    DecimalStringInjective(CountAfter(c, i), CountAfter(c, j));
  }

  /** The period is exact: `MaxSafeInteger` calls bring the counter back. */
  lemma CounterWrapsAfterPeriod(c: nat)
    requires c < MaxSafeInteger
    ensures CountAfter(c, MaxSafeInteger) == c
  {
    CountAfterClosedForm(c, MaxSafeInteger);
  }
}
