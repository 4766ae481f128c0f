/**
 The number of workers that fits in a pod, from config/config.go.

 The code multiplies and divides 64-bit floats and truncates. Each operation is modelled as the
 exact real operation followed by `rnd`, of which only what IEEE 754-2019, section 4.3.1, promises
 of round-to-nearest is used.
 */
module AutoWorkers {

  const TWO_53 := 0x20_0000_0000_0000

  /** Half a unit in the last place: the relative error of one rounding, 2^-53. */
  const UNIT: real := 1.0 / 9007199254740992.0

  /** The double nearest to 0.8. */
  const FOUR_FIFTHS: real := 7205759403792794.0 / 9007199254740992.0

  const TINY: real := 1.0 / 1152921504606846976.0
  const HUGE: real := 1152921504606846976.0

  /** Monotone, symmetric, exact on the integers up to 2^53, and within `UNIT` of a value that neither
      overflows nor underflows. */
  ghost predicate Rounding(rnd: real -> real) {
    && (forall x, y :: x <= y ==> rnd(x) <= rnd(y))
    && (forall x :: OddAt(rnd, x))
    && (forall i :: -TWO_53 <= i <= TWO_53 ==> ExactAt(rnd, i))
    && (forall x :: TINY <= x <= HUGE ==> rnd(x) <= x * (1.0 + UNIT))
  }

  predicate ExactAt(rnd: real -> real, i: int) {
    rnd(i as real) == i as real
  }

  predicate OddAt(rnd: real -> real, x: real) {
    rnd(-x) == -rnd(x)
  }

  /** Go's conversion from float to int drops the fraction. */
  function Truncate(x: real): int {
    if x >= 0.0 then x.Floor else -((-x).Floor)
  }

  /** The pod's 80%, as the code computes them. */
  function Usable(rnd: real -> real, pod: int): real {
    rnd(pod as real * FOUR_FIFTHS)
  }

  /** `int(float64(pod)*0.8/float64(share))` */
  function Quotient(rnd: real -> real, pod: int, share: int): int
    requires share != 0
  {
    Truncate(rnd(Usable(rnd, pod) / share as real))
  }

  function CalcAutoMaxWorkers(rnd: real -> real, podCPU: int, podMem: int, workerCPU: int, workerMem: int): int
    requires workerCPU != 0 && workerMem != 0
  {
    var byCPU := Quotient(rnd, podCPU, workerCPU);
    var byMem := Quotient(rnd, podMem, workerMem);
    var m := if byCPU <= byMem then byCPU else byMem;
    if m > 0 then m else 1
  }

  /** The exact quotient, rounded towards minus infinity. */
  function Share(pod: int, share: int): int
    requires share > 0
  {
    (4 * pod) / (5 * share)
  }

  /** `n` workers take at most 80% of the pod. */
  predicate Fits(n: int, pod: int, share: int) {
    5 * (n * share) <= 4 * pod
  }

  /** The exact quotient is the largest number of workers that fits. */
  lemma ShareIsLargest(pod: int, share: int, n: int)
    requires share > 0
    ensures Fits(n, pod, share) <==> n <= Share(pod, share)
  {
    var q := Share(pod, share);
    assert 4 * pod == 5 * share * q + (4 * pod) % (5 * share);
    assert 5 * share * q == 5 * (q * share) && 5 * share * (q + 1) == 5 * ((q + 1) * share);
    if n <= q {
      assert n * share <= q * share;
    } else {
      assert n * share >= (q + 1) * share;
    }
  }

  lemma RoundedKeepsOrder(rnd: real -> real, x: real, y: real)
    requires Rounding(rnd) && x <= y
    ensures rnd(x) <= rnd(y)
  {
  }

  lemma DivideBound(a: real, w: real, n: real)
    requires w > 0.0
    ensures a >= w * n ==> a / w >= n
    ensures a <= w * n ==> a / w <= n
    ensures a < w * n ==> a / w < n
  {
    assert a == (a / w) * w;
  }

  lemma {:induction false} ProductAsReal(n: nat, share: int)
    ensures (n * share) as real == n as real * share as real
  {
    if n > 0 {
      ProductAsReal(n - 1, share);
      assert n * share == (n - 1) * share + share;
      assert n as real * share as real == (n - 1) as real * share as real + share as real;
    }
  }

  /** What `n` workers take of the pod, as an integer and as a real. */
  lemma Need(n: nat, pod: int, share: int) returns (m: int, r: real)
    requires share >= 1
    ensures m >= n && m as real == r == share as real * n as real
    ensures Fits(n, pod, share) <==> 5 * m <= 4 * pod
  {
    m, r := n * share, share as real * n as real;
    ProductAsReal(n, share);
    assert n * 1 <= n * share;
  }

  lemma UsableAtLeast(rnd: real -> real, pod: int, m: nat)
    requires Rounding(rnd) && 5 * m <= 4 * pod && pod <= TWO_53
    ensures Usable(rnd, pod) >= m as real
  {
    RoundedKeepsOrder(rnd, m as real, pod as real * FOUR_FIFTHS);
    assert ExactAt(rnd, m);
  }

  lemma QuotientAtLeast(rnd: real -> real, a: real, w: real, n: nat, r: real)
    requires Rounding(rnd) && w > 0.0 && r == w * n as real && a >= r && n <= TWO_53
    ensures rnd(a / w) >= n as real
  {
    DivideBound(a, w, n as real);
    RoundedKeepsOrder(rnd, n as real, a / w);
    assert ExactAt(rnd, n);
  }

  /** Both roundings together never lose a whole worker, if `n` of them take `m` of the pod. */
  lemma NotTooSmall(rnd: real -> real, pod: int, w: real, n: nat, m: int, r: real)
    requires Rounding(rnd) && 0 <= pod <= TWO_53 && w > 0.0 && 5 * m <= 4 * pod
    requires m >= n && m as real == r == w * n as real
    ensures rnd(Usable(rnd, pod) / w) >= n as real
  {
    UsableAtLeast(rnd, pod, m);
    QuotientAtLeast(rnd, Usable(rnd, pod), w, n, r);
  }

  /** Three roundings of a pod together stay below the gap of 1/5 to the next whole worker. */
  lemma ErrorBelowGap(rnd: real -> real, pod: int, m: int)
    requires Rounding(rnd) && 0 <= pod <= TWO_53 / 16 && 5 * m > 4 * pod
    ensures Usable(rnd, pod) * (1.0 + UNIT) < m as real
  {
    var x, e := pod as real, 1.0 + UNIT;
    assert m as real >= 0.8 * x + 0.2;
    if pod == 0 {
      assert ExactAt(rnd, 0);
      assert x * FOUR_FIFTHS == 0.0;
    } else {
      var a := rnd(x * FOUR_FIFTHS);
      assert x >= 1.0;
      assert x * FOUR_FIFTHS >= 0.5 && x * FOUR_FIFTHS <= HUGE;
      assert a <= x * FOUR_FIFTHS * e;
      assert a * e <= x * FOUR_FIFTHS * e * e;
      assert FOUR_FIFTHS * e * e <= 0.8 + 3.0 * UNIT;
      assert x * FOUR_FIFTHS * e * e == x * (FOUR_FIFTHS * e * e);
      assert x * (FOUR_FIFTHS * e * e) <= x * (0.8 + 3.0 * UNIT);
      assert x * UNIT <= 0.0625;
    }
  }

  lemma ScaledQuotient(a: real, w: real, e: real)
    requires w > 0.0
    ensures a * e / w == (a / w) * e
  {
    assert (a / w) * w == a;
    assert ((a / w) * e) * w == a * e;
    DivideExact(a * e, w, (a / w) * e);
  }

  lemma DivideExact(a: real, w: real, q: real)
    requires w > 0.0 && q * w == a
    ensures a / w == q
  {
  }

  lemma RoundUp(rnd: real -> real, y: real, bound: real)
    requires Rounding(rnd) && 1.0 <= bound && y * (1.0 + UNIT) < bound && y <= HUGE
    ensures rnd(y) < bound
  {
    if y < TINY {
      RoundedKeepsOrder(rnd, y, TINY);
      assert rnd(TINY) <= TINY * (1.0 + UNIT);
    } else {
      assert rnd(y) <= y * (1.0 + UNIT);
    }
  }

  lemma UsableInRange(rnd: real -> real, pod: int)
    requires Rounding(rnd) && 0 <= pod <= TWO_53
    ensures Usable(rnd, pod) <= TWO_53 as real
  {
    RoundedKeepsOrder(rnd, pod as real * FOUR_FIFTHS, TWO_53 as real);
    assert ExactAt(rnd, TWO_53);
  }

  lemma QuotientBelow(rnd: real -> real, a: real, w: real, bound: real, r: real)
    requires Rounding(rnd) && w >= 1.0 && 1.0 <= bound && a <= TWO_53 as real
    requires r == w * bound && a * (1.0 + UNIT) < r
    ensures rnd(a / w) < bound
  {
    DivideBound(a * (1.0 + UNIT), w, bound);
    ScaledQuotient(a, w, 1.0 + UNIT);
    assert TWO_53 as real <= w * TWO_53 as real;
    DivideBound(a, w, TWO_53 as real);
    RoundUp(rnd, a / w, bound);
  }

  /** Nor do they gain one. */
  lemma NotTooLarge(rnd: real -> real, pod: int, w: real, n: nat, m: int, r: real)
    requires Rounding(rnd) && 0 <= pod <= TWO_53 / 16 && w >= 1.0 && 5 * m > 4 * pod
    requires n >= 1 && m as real == r == w * n as real
    ensures rnd(Usable(rnd, pod) / w) < n as real
  {
    var a, bound := Usable(rnd, pod), n as real;
    assert a * (1.0 + UNIT) < r by {
      ErrorBelowGap(rnd, pod, m);
    }
    assert a <= TWO_53 as real by {
      UsableInRange(rnd, pod);
    }
    QuotientBelow(rnd, a, w, bound, r);
  }

  lemma LosesNoWorker(rnd: real -> real, pod: int, share: int, n: nat)
    requires Rounding(rnd) && 0 <= pod <= TWO_53 && 1 <= share && Fits(n, pod, share)
    ensures rnd(Usable(rnd, pod) / share as real) >= n as real
  {
    var m, r := Need(n, pod, share);
    NotTooSmall(rnd, pod, share as real, n, m, r);
  }

  lemma GainsNoWorker(rnd: real -> real, pod: int, share: int, n: nat)
    requires Rounding(rnd) && 0 <= pod <= TWO_53 / 16 && 1 <= share && n >= 1 && !Fits(n, pod, share)
    ensures rnd(Usable(rnd, pod) / share as real) < n as real
  {
    var m, r := Need(n, pod, share);
    NotTooLarge(rnd, pod, share as real, n, m, r);
  }

  /** Pods and shares of the usual signs. */
  lemma QuotientOfPositive(rnd: real -> real, pod: int, share: int)
    requires Rounding(rnd) && 0 <= pod <= TWO_53 / 16 && 1 <= share
    ensures Quotient(rnd, pod, share) == Share(pod, share)
  {
    var n := Share(pod, share);
    ShareIsLargest(pod, share, n);
    ShareIsLargest(pod, share, n + 1);
    ShareIsLargest(pod, share, 0);
    LosesNoWorker(rnd, pod, share, n);
    GainsNoWorker(rnd, pod, share, n + 1);
  }

  // The other signs.

  function Abs(x: int): nat {
    if x < 0 then -x else x
  }

  /** Go's division of integers, which drops the fraction. */
  function TruncDiv(a: int, b: int): int
    requires b != 0
  {
    if (a < 0) == (b < 0) then Abs(a) / Abs(b) else -(Abs(a) / Abs(b))
  }

  lemma QuotientOfNegatedPod(rnd: real -> real, pod: int, share: int)
    requires Rounding(rnd) && share != 0
    ensures Quotient(rnd, -pod, share) == -Quotient(rnd, pod, share)
  {
    UsableOfNegated(rnd, pod);
    var a, w := Usable(rnd, pod), share as real;
    NegatedQuotient(a, w);
    assert OddAt(rnd, a / w);
  }

  lemma UsableOfNegated(rnd: real -> real, pod: int)
    requires Rounding(rnd)
    ensures Usable(rnd, -pod) == -Usable(rnd, pod)
  {
    var x := pod as real * FOUR_FIFTHS;
    assert (-pod) as real * FOUR_FIFTHS == -x && OddAt(rnd, x);
  }

  lemma QuotientOfNegatedShare(rnd: real -> real, pod: int, share: int)
    requires Rounding(rnd) && share != 0
    ensures Quotient(rnd, pod, -share) == -Quotient(rnd, pod, share)
  {
    var a, w := Usable(rnd, pod), share as real;
    assert (-share) as real == -w;
    NegatedQuotient(a, w);
    assert OddAt(rnd, a / w);
  }

  lemma NegatedQuotient(a: real, w: real)
    requires w != 0.0
    ensures (-a) / w == -(a / w) == a / (-w)
  {
  }

  /** The sign that a quotient of numbers with the signs of `a` and `b` has. */
  function Signed(a: int, b: int, q: int): int {
    if (a < 0) == (b < 0) then q else -q
  }

  lemma {:induction false} QuotientSigns(rnd: real -> real, pod: int, share: int)
    requires Rounding(rnd) && share != 0
    ensures Quotient(rnd, pod, share) == Signed(pod, share, Quotient(rnd, Abs(pod), Abs(share)))
  {
    if pod < 0 {
      QuotientOfNegatedPod(rnd, -pod, share);
    }
    if share < 0 {
      QuotientOfNegatedShare(rnd, Abs(pod), -share);
    }
  }

  lemma {:induction false} TruncDivSigns(pod: int, share: int)
    requires share != 0
    ensures TruncDiv(4 * pod, 5 * share) == Signed(pod, share, Share(Abs(pod), Abs(share)))
  {
    assert Abs(4 * pod) == 4 * Abs(pod) && Abs(5 * share) == 5 * Abs(share);
  }

  /** Both roundings and the truncation together are Go's exact division of 4 * pod by 5 * share. */
  lemma {:induction false} QuotientExact(rnd: real -> real, pod: int, share: int)
    requires Rounding(rnd) && Abs(pod) <= TWO_53 / 16 && 1 <= Abs(share) <= TWO_53
    ensures Quotient(rnd, pod, share) == TruncDiv(4 * pod, 5 * share)
  {
    QuotientOfPositive(rnd, Abs(pod), Abs(share));
    QuotientSigns(rnd, pod, share);
    TruncDivSigns(pod, share);
  }

  /** From 2^52 to 2^53 the doubles are the integers. */
  ghost predicate NearestInteger(rnd: real -> real) {
    forall x: real :: TWO_53 as real / 2.0 <= x <= TWO_53 as real ==> NearestAt(rnd, x)
  }

  predicate NearestAt(rnd: real -> real, x: real) {
    rnd(x) == rnd(x).Floor as real && -0.5 <= rnd(x) - x <= 0.5
  }

  /** For pods far beyond any machine the roundings can gain a worker. */
  lemma HugePodGainsAWorker(rnd: real -> real)
    requires Rounding(rnd) && NearestInteger(rnd)
    ensures Quotient(rnd, 5629499534213121, 1) == TruncDiv(4 * 5629499534213121, 5) + 1
  {
    var m := 4503599627370497;
    var x := 5629499534213121 as real * FOUR_FIFTHS;
    assert m as real <= x <= m as real + 0.1;
    assert NearestAt(rnd, x);
    assert rnd(x) == m as real;
    assert ExactAt(rnd, m);
  }

  lemma NegativePod(rnd: real -> real, pod: int, share: int)
    requires Rounding(rnd) && pod < 0 && 1 <= share
    ensures Quotient(rnd, pod, share) <= 0 && Share(pod, share) <= 0
  {
    assert ExactAt(rnd, 0);
    RoundedKeepsOrder(rnd, pod as real * FOUR_FIFTHS, 0.0);
    DivideBound(rnd(pod as real * FOUR_FIFTHS), share as real, 0.0);
    RoundedKeepsOrder(rnd, rnd(pod as real * FOUR_FIFTHS) / share as real, 0.0);
    ShareIsLargest(pod, share, 1);
  }

  /** The float expression gives exactly the largest number of workers that keeps processor and
      memory within 80% of the pod, and 1 if none does. */
  lemma AutoMaxWorkersExact(rnd: real -> real, podCPU: int, podMem: int, workerCPU: int, workerMem: int)
    requires Rounding(rnd) && workerCPU >= 1 && workerMem >= 1
    requires -TWO_53 <= podCPU <= TWO_53 / 16 && -TWO_53 <= podMem <= TWO_53 / 16
    requires workerCPU <= TWO_53 && workerMem <= TWO_53
    ensures
      var m := CalcAutoMaxWorkers(rnd, podCPU, podMem, workerCPU, workerMem);
      && m >= 1
      && forall n :: n > 1 ==> (n <= m <==> Fits(n, podCPU, workerCPU) && Fits(n, podMem, workerMem))
  {
    if podCPU < 0 {
      NegativePod(rnd, podCPU, workerCPU);
    } else {
      QuotientOfPositive(rnd, podCPU, workerCPU);
    }
    if podMem < 0 {
      NegativePod(rnd, podMem, workerMem);
    } else {
      QuotientOfPositive(rnd, podMem, workerMem);
    }
    forall n | n > 1
      ensures n <= CalcAutoMaxWorkers(rnd, podCPU, podMem, workerCPU, workerMem) <==>
              Fits(n, podCPU, workerCPU) && Fits(n, podMem, workerMem)
    {
      ShareIsLargest(podCPU, workerCPU, n);
      ShareIsLargest(podMem, workerMem, n);
    }
  }

  /** For shares of any sign the result is the smaller of the two exact quotients, and at least 1. */
  lemma AutoMaxWorkersAnySign(rnd: real -> real, podCPU: int, podMem: int, workerCPU: int, workerMem: int)
    requires Rounding(rnd) && 1 <= Abs(workerCPU) <= TWO_53 && 1 <= Abs(workerMem) <= TWO_53
    requires Abs(podCPU) <= TWO_53 / 16 && Abs(podMem) <= TWO_53 / 16
    ensures
      var m := CalcAutoMaxWorkers(rnd, podCPU, podMem, workerCPU, workerMem);
      var byCPU, byMem := TruncDiv(4 * podCPU, 5 * workerCPU), TruncDiv(4 * podMem, 5 * workerMem);
      && m >= 1 && (m == 1 || m == byCPU || m == byMem)
      && (byCPU >= 1 && byMem >= 1 ==> m <= byCPU && m <= byMem && (m == byCPU || m == byMem))
      && (byCPU < 1 || byMem < 1 ==> m == 1)
  {
    QuotientExact(rnd, podCPU, workerCPU);
    QuotientExact(rnd, podMem, workerMem);
  }
}
