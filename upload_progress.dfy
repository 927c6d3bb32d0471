/**
 * The progress bookkeeping of the upload manager: rounded percentages, and
 * what a stream of absolute byte counts adds to the queue-wide counter.
 */
module UploadProgress {
  import opened Common

  /** `Math.round(num / den)` for non-negative operands: halves round up. */
  function RoundRatio(num: nat, den: nat): nat
    requires den > 0
  {
    (2 * num + den) / (2 * den)
  }

  /** Rounding is monotone in the numerator. */
  lemma RoundRatioMonotone(a: nat, b: nat, den: nat)
    requires den > 0 && a <= b
    ensures RoundRatio(a, den) <= RoundRatio(b, den)
  {
    DivMonotone(2 * a + den, 2 * b + den, 2 * den);
  }

  lemma MulMonotone(a: int, b: int, d: nat)
    ensures a >= b ==> a * d >= b * d
  {
    assert a * d - b * d == (a - b) * d;
  }

  lemma DivMonotone(x: nat, y: nat, d: nat)
    requires d > 0 && x <= y
    ensures x / d <= y / d
  {
    var qx, qy := x / d, y / d;
    assert qx * d <= x;
    assert y < (qy + 1) * d;
    MulMonotone(qx, qy + 1, d);
  }

  /** A quotient is pinned down by the bounds of its dividend. */
  lemma DivBetween(x: nat, d: nat, q: nat)
    requires d > 0 && q * d <= x < (q + 1) * d
    ensures x / d == q
  {
    var r := x / d;
    assert r * d <= x < (r + 1) * d;
    MulMonotone(r, q + 1, d);
    MulMonotone(q, r + 1, d);
  }

  /** The queue-wide bar: `min(100, round(uploaded / total * 100))`, only defined for total > 0. */
  function QueuePercent(uploaded: nat, total: nat): nat
    requires total > 0
  {
    Min(100, RoundRatio(100 * uploaded, total))
  }

  /**
   * The queue-wide bar stays within [0, 100], is 0 before any byte is
   * counted, never decreases as bytes are counted, and reads 100 once the
   * counter reaches the queued total.
   */
  lemma QueuePercentBounds(uploaded: nat, more: nat, total: nat)
    requires total > 0
    ensures 0 <= QueuePercent(uploaded, total) <= 100
    ensures uploaded == 0 ==> QueuePercent(uploaded, total) == 0
    ensures QueuePercent(uploaded, total) <= QueuePercent(uploaded + more, total)
    ensures uploaded >= total ==> QueuePercent(uploaded, total) == 100
  {
    RoundRatioMonotone(100 * uploaded, 100 * (uploaded + more), total);
    if uploaded >= total {
      RoundRatioMonotone(100 * total, 100 * uploaded, total);
      RoundRatioOfWhole(total);
    }
    if uploaded == 0 {
      DivBetween(total, 2 * total, 0);
    }
  }

  /** round(total / total * 100) is 100. */
  lemma RoundRatioOfWhole(total: nat)
    requires total > 0
    ensures RoundRatio(100 * total, total) == 100
  {
    assert 2 * (100 * total) + total == 201 * total;
    DivBetween(201 * total, 2 * total, 100);
  }

  /** One item's bar: `min(100, round(current / total * 100))`, or 100 for an empty file. */
  function ItemPercent(current: nat, total: nat): (p: nat)
    ensures p <= 100
  {
    if total > 0 then Min(100, RoundRatio(100 * current, total)) else 100
  }

  /** The last value reported, or `last` when nothing was reported. */
  function LastOr(last: nat, reports: seq<nat>): nat {
    if reports == [] then last else reports[|reports| - 1]
  }

  /**
   * What a stream of absolute byte counts adds to the queue-wide counter
   * when the previously recorded count is `last`: every report adds
   * max(0, report - previous) and becomes the new previous.
   */
  function Contribution(last: nat, reports: seq<nat>): nat
    decreases |reports|
  {
    if reports == [] then 0 else Max(0, reports[0] - last) + Contribution(reports[0], reports[1..])
  }

  /** Reports can be split anywhere: the second part starts from what the first left behind. */
  lemma {:induction false} ContributionAppend(last: nat, a: seq<nat>, b: seq<nat>)
    ensures Contribution(last, a + b) == Contribution(last, a) + Contribution(LastOr(last, a), b)
    decreases |a|
  {
    if a != [] {
      assert (a + b)[1..] == a[1..] + b;
      ContributionAppend(a[0], a[1..], b);
      assert LastOr(a[0], a[1..]) == LastOr(last, a);
    } else {
      assert a + b == b;
    }
  }

  predicate NonDecreasingFrom(last: nat, reports: seq<nat>) {
    (forall i :: 0 <= i < |reports| ==> last <= reports[i])
    && (forall i, j :: 0 <= i < j < |reports| ==> reports[i] <= reports[j])
  }

  /** A stream that only grows contributes exactly its rise: nothing is counted twice. */
  lemma {:induction false} ContributionOfGrowingStream(last: nat, reports: seq<nat>)
    requires NonDecreasingFrom(last, reports)
    ensures Contribution(last, reports) == LastOr(last, reports) - last
    decreases |reports|
  {
    if reports != [] {
      assert NonDecreasingFrom(reports[0], reports[1..]) by {
        forall i | 0 <= i < |reports[1..]| ensures reports[0] <= reports[1..][i] {
          assert reports[1..][i] == reports[i + 1];
        }
        forall i, j | 0 <= i < j < |reports[1..]| ensures reports[1..][i] <= reports[1..][j] {
          assert reports[1..][i] == reports[i + 1] && reports[1..][j] == reports[j + 1];
        }
      }
      ContributionOfGrowingStream(reports[0], reports[1..]);
      assert LastOr(reports[0], reports[1..]) == LastOr(last, reports);
    }
  }

  /** Whatever the stream, the counter grows by at least the stream's overall rise. */
  lemma {:induction false} ContributionAtLeastRise(last: nat, reports: seq<nat>)
    ensures Contribution(last, reports) >= LastOr(last, reports) - last
    decreases |reports|
  {
    if reports != [] {
      ContributionAtLeastRise(reports[0], reports[1..]);
      assert LastOr(reports[0], reports[1..]) == LastOr(last, reports);
    }
  }

  /**
   * A stream that falls back and climbs again is counted twice over the
   * climb: reports 5, 3, 5 for a 5-byte file add 7 to the counter.
   */
  lemma FallingStreamRecounts()
    ensures Contribution(0, [5, 3, 5]) == 7
  {
    assert [5, 3, 5][1..] == [3, 5];
    assert [3, 5][1..] == [5];
  }

  /** The counter of `addUploadedDelta`: non-positive deltas are ignored. */
  function Accumulate(deltas: seq<int>): nat
    decreases |deltas|
  {
    if deltas == [] then 0 else Max(0, deltas[0]) + Accumulate(deltas[1..])
  }

  lemma {:induction false} AccumulateConcat(a: seq<int>, b: seq<int>)
    ensures Accumulate(a + b) == Accumulate(a) + Accumulate(b)
    decreases |a|
  {
    if a == [] {
      assert a + b == b;
    } else {
      assert (a + b)[1..] == a[1..] + b;
      AccumulateConcat(a[1..], b);
    }
  }

  /**
   * The queue-wide counter is order-insensitive: any interleaving of the same
   * deltas (the same multiset) leaves the same total.
   */
  lemma {:induction false} AccumulateCommutes(a: seq<int>, b: seq<int>)
    requires multiset(a) == multiset(b)
    ensures Accumulate(a) == Accumulate(b)
    decreases |a|
  {
    if a == [] {
      assert |multiset(b)| == 0;
    } else {
      var x := a[0];
      assert x in multiset(b);
      var j :| 0 <= j < |b| && b[j] == x;
      var rest := b[..j] + b[j + 1..];
      assert b == b[..j] + ([x] + b[j + 1..]);
      AccumulateConcat(b[..j], [x] + b[j + 1..]);
      AccumulateConcat([x], b[j + 1..]);
      AccumulateConcat(b[..j], b[j + 1..]);
      assert a == [x] + a[1..];
      assert multiset(a) == multiset([x]) + multiset(a[1..]);
      assert multiset(b) == multiset(b[..j]) + multiset([x]) + multiset(b[j + 1..]);
      assert multiset(rest) == multiset(b[..j]) + multiset(b[j + 1..]);
      assert multiset(a[1..]) == multiset(a) - multiset{x};
      assert multiset(rest) == multiset(b) - multiset{x};
      AccumulateCommutes(a[1..], rest);
    }
  }
}
