/**
 The look-ahead limiter (`spikes/voice-ether/ether.py`, `limit`), over the reals: a sliding minimum of the gain each
 sample needs, smoothed by a running mean taken from prefix sums.
 */
module VoiceLimiter {
  import opened Options

  const CEILING := 0.975
  const SILENCE := 0.000000000001

  function Abs(x: real): real {
    if x < 0.0 then -x else x
  }

  function Larger(a: real, b: real): real {
    if a < b then b else a
  }

  function Smaller(a: real, b: real): real {
    if a < b then a else b
  }

  // ----- the limiter -----

  /** The most gain a sample can take. */
  function Need(x: real): real {
    Smaller(1.0, CEILING / Larger(Abs(x), SILENCE))
  }

  function Needs(x: seq<real>): seq<real> {
    if x == [] then [] else Needs(x[..|x| - 1]) + [Need(x[|x| - 1])]
  }

  function Repeat(v: real, n: nat): seq<real> {
    seq(n, _ => v)
  }

  function Least(s: seq<real>): real
    requires s != []
  {
    if |s| == 1 then s[0] else Smaller(Least(s[..|s| - 1]), s[|s| - 1])
  }

  /** The least value of each window of `look` values, for the first `n` windows. */
  function SlidingLeast(s: seq<real>, look: nat, n: nat): seq<real>
    requires look > 0 && (n > 0 ==> n - 1 + look <= |s|)
  {
    if n == 0 then [] else SlidingLeast(s, look, n - 1) + [Least(s[n - 1..n - 1 + look])]
  }

  /** Prefix sums, the empty one first. */
  function Cumulative(s: seq<real>): (c: seq<real>)
    ensures |c| == |s| + 1
  {
    if s == [] then [0.0]
    else
      var before := Cumulative(s[..|s| - 1]);
      before + [before[|s| - 1] + s[|s| - 1]]
  }

  function Ahead(x: seq<real>, look: nat): seq<real>
    requires look > 0
  {
    Needs(x) + Repeat(1.0, look - 1)
  }

  /** The floor, held before its start so that the mean looks only back. */
  function Lead(x: seq<real>, look: nat): seq<real>
    requires look > 0 && x != []
  {
    NeedsLength(x);
    var floor := SlidingLeast(Ahead(x, look), look, |x|);
    SlidingLength(Ahead(x, look), look, |x|);
    Repeat(floor[0], look - 1) + floor
  }

  /** The sum of `look` values from `i` on, as the difference of two prefix sums. */
  function WindowSum(lead: seq<real>, look: nat, i: nat): real
    requires i + look <= |lead|
  {
    Cumulative(lead)[i + look] - Cumulative(lead)[i]
  }

  function Clip(v: real): real {
    if v < -CEILING then -CEILING else if v > CEILING then CEILING else v
  }

  function Applied(x: real, total: real, look: nat): real
    requires look > 0
  {
    Clip(x * total / look as real)
  }

  function Limited(x: seq<real>, look: nat, n: nat): seq<real>
    requires look > 0 && x != [] && n <= |x|
  {
    LeadLength(x, look);
    if n == 0 then []
    else Limited(x, look, n - 1) + [Applied(x[n - 1], WindowSum(Lead(x, look), look, n - 1), look)]
  }

  function Window(samples: int): nat {
    if samples > 1 then samples else 1
  }

  /** The limited signal; an empty one is an error, and a window of no samples is taken as one. */
  function Limit(x: seq<real>, samples: int): Option<seq<real>> {
    if x == [] then None else Some(Limited(x, Window(samples), |x|))
  }

  // ----- lengths and reads -----

  lemma {:induction false} NeedsLength(x: seq<real>)
    ensures |Needs(x)| == |x| && forall i :: 0 <= i < |x| ==> Needs(x)[i] == Need(x[i])
  {
    if x == [] {
    } else {
      NeedsLength(x[..|x| - 1]);
    }
  }

  lemma {:induction false} SlidingLength(s: seq<real>, look: nat, n: nat)
    requires look > 0 && (n > 0 ==> n - 1 + look <= |s|)
    ensures |SlidingLeast(s, look, n)| == n
    ensures forall i :: 0 <= i < n ==> SlidingLeast(s, look, n)[i] == Least(s[i..i + look])
  {
    if n > 0 {
      SlidingLength(s, look, n - 1);
    }
  }

  lemma LeadLength(x: seq<real>, look: nat)
    requires look > 0 && x != []
    ensures |Lead(x, look)| == look - 1 + |x|
  {
    NeedsLength(x);
    SlidingLength(Ahead(x, look), look, |x|);
  }

  // ----- sums -----

  function Sum(s: seq<real>): real {
    if s == [] then 0.0 else Sum(s[..|s| - 1]) + s[|s| - 1]
  }

  lemma {:induction false} CumulativeIsSum(s: seq<real>, k: nat)
    requires k <= |s|
    ensures Cumulative(s)[k] == Sum(s[..k])
  {
    if s == [] {
    } else if k < |s| {
      CumulativeIsSum(s[..|s| - 1], k);
      assert s[..|s| - 1][..k] == s[..k];
    } else {
      CumulativeIsSum(s[..|s| - 1], k - 1);
      assert s[..|s| - 1][..k - 1] == s[..k - 1] && s[..k] == s && s[..k][..k - 1] == s[..k - 1];
    }
  }

  lemma {:induction false} SumSplits(s: seq<real>, i: nat)
    requires i <= |s|
    ensures Sum(s) == Sum(s[..i]) + Sum(s[i..])
  {
    if i < |s| {
      SumSplits(s[..|s| - 1], i);
      assert s[..|s| - 1][..i] == s[..i] && s[..|s| - 1][i..] == s[i..][..|s[i..]| - 1];
    } else {
      assert s[..i] == s;
    }
  }

  /** The running mean's window sum is the sum of the window. */
  lemma WindowIsSummed(lead: seq<real>, look: nat, i: nat)
    requires i + look <= |lead|
    ensures WindowSum(lead, look, i) == Sum(lead[i..i + look])
  {
    CumulativeIsSum(lead, i);
    CumulativeIsSum(lead, i + look);
    SumSplits(lead[..i + look], i);
    assert lead[..i + look][..i] == lead[..i] && lead[..i + look][i..] == lead[i..i + look];
  }

  lemma {:induction false} SumBetween(s: seq<real>, low: real, high: real)
    requires forall i :: 0 <= i < |s| ==> low <= s[i] <= high
    ensures |s| as real * low <= Sum(s) <= |s| as real * high
  {
    if s == [] {
    } else {
      SumBetween(s[..|s| - 1], low, high);
      assert |s| as real * high == (|s| - 1) as real * high + high;
      assert |s| as real * low == (|s| - 1) as real * low + low;
    }
  }

  lemma WindowSumBetween(lead: seq<real>, look: nat, i: nat, low: real, high: real)
    requires i + look <= |lead| && forall j :: i <= j < i + look ==> low <= lead[j] <= high
    ensures look as real * low <= WindowSum(lead, look, i) <= look as real * high
  {
    WindowIsSummed(lead, look, i);
    SumBetween(lead[i..i + look], low, high);
  }

  lemma {:induction false} LeastBounds(s: seq<real>, i: nat, low: real)
    requires i < |s| && forall k :: 0 <= k < |s| ==> low <= s[k]
    ensures low <= Least(s) <= s[i]
  {
    if |s| > 1 {
      LeastBounds(s[..|s| - 1], if i < |s| - 1 then i else 0, low);
    }
  }

  // ----- the gain -----

  lemma NeedRange(x: real)
    ensures 0.0 < Need(x) <= 1.0 && (Abs(x) <= CEILING ==> Need(x) == 1.0)
    ensures Abs(x) * Need(x) <= CEILING
  {
    var d := Larger(Abs(x), SILENCE);
    QuotientScales(CEILING, d);
    if CEILING / d < 1.0 {
      assert Need(x) == CEILING / d;
      ProductGrows(CEILING / d, Abs(x), d);
    }
  }

  lemma LoudNeed(x: real)
    requires Abs(x) > CEILING
    ensures Abs(x) * Need(x) == CEILING
  {
    var a := Abs(x);
    QuotientScales(CEILING, a);
    assert Larger(a, SILENCE) == a;
    assert Need(x) == CEILING / a;
  }

  /** The need is the largest gain up to one that keeps the sample within the ceiling; a loud sample it brings there. */
  lemma NeedIsTheMost(x: real, gain: real)
    requires 0.0 <= gain <= 1.0
    ensures Abs(x) * gain <= 0.975 <==> gain <= Need(x)
    ensures Abs(x) > 0.975 ==> Abs(x) * Need(x) == 0.975
  {
    NeedRange(x);
    if Abs(x) > CEILING { LoudNeed(x); }
    if gain <= Need(x) {
      ScaledBetween(Abs(x), gain, Need(x), CEILING);
    } else {
      ScaledMore(Abs(x), Need(x), gain);
    }
  }

  lemma ScaledMore(a: real, b: real, c: real)
    requires a > 0.0 && b < c
    ensures a * b < a * c
  {
    var gap := c - b;
    assert a * gap > 0.0;
    assert a * c == a * b + a * gap;
  }

  lemma QuotientScales(c: real, d: real)
    requires c > 0.0 && d > 0.0
    ensures c / d > 0.0 && c / d * d == c && (d <= c ==> c / d >= 1.0) && (d > c ==> c / d < 1.0)
  {
  }

  lemma ProductGrows(k: real, a: real, b: real)
    requires k >= 0.0 && a <= b
    ensures k * a <= k * b
  {
  }

  lemma AheadReads(x: seq<real>, look: nat, k: nat, low: real)
    requires look > 0 && k < |x| && low <= 1.0
    requires forall i :: k <= i < k + look && i < |x| ==> low <= Need(x[i])
    ensures |Ahead(x, look)| == |x| + look - 1
    ensures forall i :: 0 <= i < |x| ==> Ahead(x, look)[i] == Need(x[i])
    ensures forall j :: k <= j < k + look ==> low <= Ahead(x, look)[j]
  {
    NeedsLength(x);
  }

  lemma LeadReads(x: seq<real>, look: nat, j: nat)
    requires look > 0 && x != [] && j < look - 1 + |x|
    ensures |Lead(x, look)| == look - 1 + |x| && |Ahead(x, look)| == |x| + look - 1
    ensures var k := if j < look - 1 then 0 else j - (look - 1); Lead(x, look)[j] == Least(Ahead(x, look)[k..k + look])
  {
    LeadLength(x, look);
    NeedsLength(x);
    SlidingLength(Ahead(x, look), look, |x|);
  }

  lemma LeastOfSlice(s: seq<real>, k: nat, look: nat, i: nat, low: real)
    requires k <= i < k + look <= |s| && forall j :: k <= j < k + look ==> low <= s[j]
    ensures low <= Least(s[k..k + look]) <= s[i]
  {
    assert s[k..k + look][i - k] == s[i];
    LeastBounds(s[k..k + look], i - k, low);
  }

  /** Every sample less than `look` away from sample `i` needs no less gain than `low`. */
  ghost predicate NeedAround(x: seq<real>, look: nat, i: nat, low: real) {
    low <= 1.0 && forall k :: 0 <= k < |x| && i - look < k < i + look ==> low <= Need(x[k])
  }

  /** Every value the mean at `i` takes in is at most what sample `i` needs, and no less than the least need around. */
  lemma LeadBelowNeed(x: seq<real>, look: nat, i: nat, j: nat, low: real)
    requires look > 0 && i < |x| && i <= j < i + look && NeedAround(x, look, i, low)
    ensures |Lead(x, look)| == look - 1 + |x| && low <= Lead(x, look)[j] <= Need(x[i])
  {
    var k := if j < look - 1 then 0 else j - (look - 1);
    LeadReads(x, look, j);
    AheadReads(x, look, k, low);
    LeastOfSlice(Ahead(x, look), k, look, i, low);
  }

  /** The gain applied to sample `i`. */
  function Gain(x: seq<real>, look: nat, i: nat): real
    requires look > 0 && i < |x|
  {
    LeadLength(x, look);
    WindowSum(Lead(x, look), look, i) / look as real
  }

  lemma MeanBetween(total: real, n: real, low: real, high: real)
    requires n > 0.0 && n * low <= total <= n * high
    ensures low <= total / n <= high
  {
    assert total / n * n == total;
    if total / n > high { ProductGrows(n, high, total / n); }
    if total / n < low { ProductGrows(n, total / n, low); }
  }

  lemma WindowBetween(x: seq<real>, look: nat, i: nat, low: real)
    requires look > 0 && i < |x| && NeedAround(x, look, i, low)
    ensures |Lead(x, look)| == look - 1 + |x|
    ensures look as real * low <= WindowSum(Lead(x, look), look, i) <= look as real * Need(x[i])
  {
    LeadLength(x, look);
    forall j | i <= j < i + look ensures low <= Lead(x, look)[j] <= Need(x[i]) {
      LeadBelowNeed(x, look, i, j, low);
    }
    WindowSumBetween(Lead(x, look), look, i, low, Need(x[i]));
  }

  /** The gain lies between the least that is needed around the sample and what the sample needs itself. */
  lemma GainBetween(x: seq<real>, look: nat, i: nat, low: real)
    requires look > 0 && i < |x| && NeedAround(x, look, i, low)
    ensures low <= Gain(x, look, i) <= Need(x[i])
  {
    WindowBetween(x, look, i, low);
    MeanBetween(WindowSum(Lead(x, look), look, i), look as real, low, Need(x[i]));
  }

  // ----- the signal -----

  lemma ScaledWithin(x: real, gain: real)
    requires 0.0 <= gain <= Need(x)
    ensures -CEILING <= x * gain <= CEILING && Clip(x * gain) == x * gain
  {
    NeedRange(x);
    ScaledBetween(Abs(x), gain, Need(x), CEILING);
    SignOut(x, gain);
  }

  /** A magnitude scaled by less than it may be stays under the bound it may reach. */
  lemma ScaledBetween(a: real, gain: real, need: real, bound: real)
    requires 0.0 <= a && 0.0 <= gain <= need && a * need <= bound
    ensures 0.0 <= a * gain <= bound
  {
    ProductNotNegative(a, gain);
    ProductNotNegative(a, need - gain);
    assert a * need == a * gain + a * (need - gain);
  }

  lemma ProductNotNegative(a: real, b: real)
    requires 0.0 <= a && 0.0 <= b
    ensures 0.0 <= a * b
  {
  }

  /** Scaling keeps the sign: a sample and its magnitude scale to opposite or equal values. */
  lemma SignOut(x: real, gain: real)
    ensures x * gain == if x < 0.0 then -(Abs(x) * gain) else Abs(x) * gain
  {
    if x < 0.0 {
      assert (-x) * gain == -(x * gain);
    }
  }

  /** What is applied to a sample is the mean of the window, and the clip finds nothing to do. */
  lemma AppliedIsScaled(x: real, total: real, look: nat, gain: real)
    requires look > 0 && gain == total / look as real && 0.0 <= gain <= Need(x)
    ensures Applied(x, total, look) == x * gain && -CEILING <= x * gain <= CEILING
  {
    ScaleThenDivide(x, total, look as real);
    ScaledWithin(x, gain);
  }

  lemma ScaleThenDivide(x: real, total: real, n: real)
    requires n > 0.0
    ensures x * total / n == x * (total / n)
  {
    assert total == total / n * n;
    assert x * total == x * (total / n) * n;
    QuotientOfProduct(x * (total / n), n);
  }

  lemma QuotientOfProduct(a: real, n: real)
    requires n > 0.0
    ensures a * n / n == a
  {
  }

  lemma {:induction false} LimitedLength(x: seq<real>, look: nat, n: nat)
    requires look > 0 && x != [] && n <= |x|
    ensures |Limited(x, look, n)| == n
  {
    if n > 0 {
      LimitedLength(x, look, n - 1);
    }
  }

  lemma {:induction false} LimitedReads(x: seq<real>, look: nat, n: nat, i: nat)
    requires look > 0 && x != [] && i < n <= |x|
    ensures |Limited(x, look, n)| == n && |Lead(x, look)| == look - 1 + |x|
    ensures Limited(x, look, n)[i] == Applied(x[i], WindowSum(Lead(x, look), look, i), look)
  {
    LeadLength(x, look);
    LimitedLength(x, look, n);
    LimitedLength(x, look, n - 1);
    if i < n - 1 {
      LimitedReads(x, look, n - 1, i);
    }
  }

  lemma {:induction false} LeastIsOne(s: seq<real>) returns (k: nat)
    requires s != []
    ensures k < |s| && s[k] == Least(s)
  {
    if |s| == 1 {
      k := 0;
    } else {
      k := LeastIsOne(s[..|s| - 1]);
      if Least(s[..|s| - 1]) >= s[|s| - 1] { k := |s| - 1; }
    }
  }

  lemma LeastNeed(x: seq<real>) returns (low: real)
    requires x != []
    ensures 0.0 < low <= 1.0 && forall k :: 0 <= k < |x| ==> low <= Need(x[k])
  {
    NeedsLength(x);
    var least := LeastIsOne(Needs(x));
    low := Need(x[least]);
    NeedRange(x[least]);
    forall k | 0 <= k < |x| ensures 0.0 <= Needs(x)[k] { NeedRange(x[k]); }
    forall k | 0 <= k < |x| ensures low <= Need(x[k]) {
      LeastBounds(Needs(x), k, 0.0);
    }
  }

  lemma GainAboveZero(x: seq<real>, look: nat, i: nat)
    requires look > 0 && i < |x|
    ensures 0.0 < Gain(x, look, i) <= Need(x[i])
  {
    var low := LeastNeed(x);
    GainBetween(x, look, i, low);
  }

  /**
   For every window and every signal the length is kept, each sample is scaled by a gain above zero and never above
   what that sample needs, and the final clip changes nothing: what comes out is within the ceiling by the gain alone.
   */
  lemma ClipChangesNothing(x: seq<real>, samples: int, i: nat)
    requires i < |x|
    ensures Limit(x, samples).Some? && |Limit(x, samples).value| == |x|
    ensures var gain := Gain(x, Window(samples), i);
            && 0.0 < gain <= Need(x[i])
            && Limit(x, samples).value[i] == x[i] * gain
            && -CEILING <= Limit(x, samples).value[i] <= CEILING
  {
    var look := Window(samples);
    LimitedReads(x, look, |x|, i);
    GainAboveZero(x, look, i);
    AppliedIsScaled(x[i], WindowSum(Lead(x, look), look, i), look, Gain(x, look, i));
  }

  /** The least that `look` samples from `k` on need, past the end none being needed. */
  ghost predicate IsLowest(x: seq<real>, look: nat, k: nat, low: real) {
    && (exists m :: k <= m < k + look && m < |x| && low == Need(x[m]))
    && (forall m :: k <= m < k + look && m < |x| ==> low <= Need(x[m]))
  }

  lemma WindowIsLowest(x: seq<real>, look: nat, k: nat, window: seq<real>)
    requires k < |x| && |window| == look > 0
    requires forall m :: 0 <= m < look ==> window[m] == if k + m < |x| then Need(x[k + m]) else 1.0
    ensures IsLowest(x, look, k, Least(window))
  {
    forall m | 0 <= m < |x| ensures 0.0 <= Need(x[m]) <= 1.0 { NeedRange(x[m]); }
    var least := LeastIsOne(window);
    forall m | k <= m < k + look && m < |x| ensures Least(window) <= Need(x[m]) {
      LeastBounds(window, m - k, 0.0);
    }
    assert window[least] == Need(x[if k + least < |x| then k + least else k]);
  }

  lemma LeadIsLowest(x: seq<real>, look: nat, j: nat)
    requires look > 0 && x != [] && j < look - 1 + |x|
    ensures |Lead(x, look)| == look - 1 + |x|
    ensures IsLowest(x, look, if j < look - 1 then 0 else j - (look - 1), Lead(x, look)[j])
  {
    var k := if j < look - 1 then 0 else j - (look - 1);
    LeadReads(x, look, j);
    NeedsLength(x);
    WindowIsLowest(x, look, k, Ahead(x, look)[k..k + look]);
  }

  /**
   The gain of a sample is the mean of `look` values, one for each window of `look` samples that holds it: the least
   that window needs, a window that would begin before the signal beginning with it.
   */
  lemma GainIsTheMean(x: seq<real>, samples: int, i: nat) returns (lows: seq<real>)
    requires i < |x|
    ensures var look := if samples > 1 then samples else 1;
            && |lows| == look && Gain(x, Window(samples), i) == Sum(lows) / look as real
            && forall m :: 0 <= m < look ==> IsLowest(x, look, if i + m < look then 0 else i + m + 1 - look, lows[m])
  {
    var look := Window(samples);
    LeadLength(x, look);
    lows := Lead(x, look)[i..i + look];
    WindowIsSummed(Lead(x, look), look, i);
    forall m | 0 <= m < look
      ensures IsLowest(x, look, if i + m < look then 0 else i + m + 1 - look, lows[m])
    {
      LeadIsLowest(x, look, i + m);
    }
  }

  /** Every sample less than `look` away from sample `i` is within the ceiling. */
  ghost predicate QuietAround(x: seq<real>, look: nat, i: nat) {
    forall k :: 0 <= k < |x| && i - look < k < i + look ==> Abs(x[k]) <= CEILING
  }

  lemma QuietGain(x: seq<real>, look: nat, i: nat)
    requires look > 0 && i < |x| && QuietAround(x, look, i)
    ensures Gain(x, look, i) == 1.0
  {
    forall k | 0 <= k < |x| && i - look < k < i + look ensures 1.0 <= Need(x[k]) { NeedRange(x[k]); }
    NeedRange(x[i]);
    GainBetween(x, look, i, 1.0);
  }

  /** A sample with nothing loud within the window before it or after it comes out as it went in. */
  lemma QuietAroundIsUntouched(x: seq<real>, samples: int, i: nat)
    requires i < |x| && QuietAround(x, Window(samples), i)
    ensures Limit(x, samples).Some? && |Limit(x, samples).value| == |x| && Limit(x, samples).value[i] == x[i]
  {
    ClipChangesNothing(x, samples, i);
    QuietGain(x, Window(samples), i);
  }

  /** With a window of one sample each takes just what it needs; a wider one asks no more than the loudest around. */
  lemma GainIsNeeded(x: seq<real>, samples: int, i: nat, low: real)
    requires i < |x| && NeedAround(x, Window(samples), i, low)
    ensures low <= Gain(x, Window(samples), i)
    ensures samples <= 1 ==> Gain(x, Window(samples), i) == Need(x[i])
  {
    GainBetween(x, Window(samples), i, low);
    if samples <= 1 {
      NeedRange(x[i]);
      GainBetween(x, 1, i, Need(x[i]));
    }
  }

  /** A signal within the ceiling throughout comes out as it went in. */
  lemma QuietSignalIsUntouched(x: seq<real>, samples: int)
    requires x != [] && forall k :: 0 <= k < |x| ==> Abs(x[k]) <= CEILING
    ensures Limit(x, samples) == Some(x)
  {
    forall i | 0 <= i < |x| ensures |Limit(x, samples).value| == |x| && Limit(x, samples).value[i] == x[i] {
      QuietAroundIsUntouched(x, samples, i);
    }
    assert |Limit(x, samples).value| == |x|;
    assert Limit(x, samples).value == x;
  }
}
