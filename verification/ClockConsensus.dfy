/**
 The wall clock the device agrees on while its own is unset: clients report the offset
 between their clock and the device uptime, and two thirds of them must agree.
 */
module ClockConsensus {
  import opened Arithmetic
  import opened ChatTypes

  const TIME_SYNC_TOLERANCE_S := 120

  /** C integer division: truncates toward zero. */
  function TruncDiv(a: int, b: int): int
    requires b > 0
  {
    if a >= 0 then a / b else -((-a) / b)
  }

  function Threshold(count: nat): nat {
    (count * 2 + 2) / 3
  }

  predicate HasSample(slot: Slot) {
    slot.active && slot.joined && slot.timeOffsetValid
  }

  /** The offsets the joined clients have reported, in slot order. */
  function Samples(slots: seq<Slot>): seq<int> {
    if slots == [] then []
    else
      var slot := slots[|slots| - 1];
      Samples(slots[..|slots| - 1]) + if HasSample(slot) then [slot.timeOffset] else []
  }

  predicate InWindow(x: int, lower: int) {
    lower <= x <= lower + TIME_SYNC_TOLERANCE_S
  }

  /** How many samples lie in the 120-second window starting at `lower`. */
  function Count(xs: seq<int>, lower: int): (n: nat)
    ensures n <= |xs|
  {
    if xs == [] then 0
    else Count(xs[..|xs| - 1], lower) + if InWindow(xs[|xs| - 1], lower) then 1 else 0
  }

  function Total(xs: seq<int>, lower: int): int {
    if xs == [] then 0
    else Total(xs[..|xs| - 1], lower) + if InWindow(xs[|xs| - 1], lower) then xs[|xs| - 1] else 0
  }

  /** Two thirds of the samples agree within the tolerance: some window, anywhere, holds that many. */
  ghost predicate Agreement(xs: seq<int>) {
    |xs| > 0 && exists lower :: Count(xs, lower) >= Threshold(|xs|)
  }

  /** The estimate from the cluster anchored at sample `i`, when no cluster is larger. */
  ghost predicate LargestCluster(xs: seq<int>, i: nat) {
    && i < |xs|
    && Count(xs, xs[i]) >= Threshold(|xs|)
    && Count(xs, xs[i]) > 0
    && forall j :: 0 <= j < |xs| ==> Count(xs, xs[j]) <= Count(xs, xs[i])
  }

  lemma {:induction false} CountMember(xs: seq<int>, lower: int, i: nat)
    requires i < |xs| && InWindow(xs[i], lower)
    ensures Count(xs, lower) > 0
  {
    if i < |xs| - 1 {
      CountMember(xs[..|xs| - 1], lower, i);
    }
  }

  /** Moving a window up to the least sample it holds loses none of them. */
  lemma {:induction false} CountFromLeast(xs: seq<int>, lower: int, least: int)
    requires lower <= least
    requires forall j :: 0 <= j < |xs| && InWindow(xs[j], lower) ==> least <= xs[j]
    ensures Count(xs, lower) <= Count(xs, least)
  {
    if xs != [] {
      CountFromLeast(xs[..|xs| - 1], lower, least);
    }
  }

  lemma {:induction false} LeastInWindow(xs: seq<int>, lower: int) returns (i: nat)
    requires Count(xs, lower) > 0
    ensures i < |xs| && InWindow(xs[i], lower)
    ensures forall j :: 0 <= j < |xs| && InWindow(xs[j], lower) ==> xs[i] <= xs[j]
  {
    var last := |xs| - 1;
    if Count(xs[..last], lower) == 0 {
      i := last;
      forall j | 0 <= j < last && InWindow(xs[j], lower) ensures false {
        CountMember(xs[..last], lower, j);
      }
    } else {
      i := LeastInWindow(xs[..last], lower);
      if InWindow(xs[last], lower) && xs[last] < xs[i] {
        i := last;
      }
    }
  }

  /** Windows anchored at samples are enough: some anchored window is as full as any window. */
  lemma AnchoredWindowsSuffice(xs: seq<int>, lower: int)
    requires Count(xs, lower) > 0
    ensures exists i :: 0 <= i < |xs| && Count(xs, xs[i]) >= Count(xs, lower)
  {
    var i := LeastInWindow(xs, lower);
    CountFromLeast(xs, lower, xs[i]);
  }

  lemma {:induction false} TotalBounds(xs: seq<int>, lower: int)
    ensures Count(xs, lower) * lower <= Total(xs, lower) <= Count(xs, lower) * (lower + TIME_SYNC_TOLERANCE_S)
  {
    if xs != [] {
      TotalBounds(xs[..|xs| - 1], lower);
      var c := Count(xs[..|xs| - 1], lower);
      var upper := lower + TIME_SYNC_TOLERANCE_S;
      assert (c + 1) * lower == c * lower + lower;
      assert (c + 1) * upper == c * upper + upper;
    }
  }

  lemma FloorInRange(a: nat, c: int, lo: int, hi: int)
    requires c > 0 && c * lo <= a <= c * hi
    ensures lo <= a / c <= hi
  {
    var q := a / c;
    assert c * q <= a < c * q + c;
    assert c * (q + 1) == c * q + c;
    assert c * (hi + 1) == c * hi + c;
    MulCancel(c, lo, q + 1);
    MulCancel(c, q, hi + 1);
  }

  lemma TruncatedMeanInRange(a: int, c: int, lo: int, hi: int)
    requires c > 0 && c * lo <= a <= c * hi
    ensures lo <= TruncDiv(a, c) <= hi
  {
    if a >= 0 {
      FloorInRange(a, c, lo, hi);
    } else {
      assert c * -hi == -(c * hi) && c * -lo == -(c * lo);
      FloorInRange(-a, c, -hi, -lo);
    }
  }

  // ---- What the parts of the estimate mean ----

  lemma FloorIsExact(a: nat, b: int)
    requires b > 0
    ensures 0 <= (a / b) * b <= a < (a / b) * b + b
  {
  }

  /** The quotient is exact up to the divisor, on the side of zero. */
  lemma MeanIsTruncated(a: int, b: int, q: int)
    requires b > 0 && q == TruncDiv(a, b)
    ensures a >= 0 ==> 0 <= q * b <= a < q * b + b
    ensures a <= 0 ==> q * b - b < a <= q * b <= 0
  {
    if a >= 0 {
      FloorIsExact(a, b);
    } else {
      FloorIsExact(-a, b);
      NegateProduct((-a) / b, b);
    }
  }

  lemma NegateProduct(p: int, b: int)
    ensures -p * b == -(p * b)
  {
  }

  /** The least number that is two thirds of all. */
  lemma ThresholdIsTwoThirds(count: nat, k: nat)
    ensures k >= Threshold(count) <==> 3 * k >= 2 * count
  {
  }

  /** Exactly the samples of the joined slots that have one, in slot order; `at` says whose they are. */
  ghost predicate SampledAt(xs: seq<int>, slots: seq<Slot>, at: seq<nat>) {
    && |at| == |xs|
    && (forall k :: 0 <= k < |at| ==>
                      && at[k] < |slots| && slots[at[k]].active && slots[at[k]].joined
                      && slots[at[k]].timeOffsetValid && xs[k] == slots[at[k]].timeOffset)
    && (forall j, k :: 0 <= j < k < |at| ==> at[j] < at[k])
    && (forall i :: 0 <= i < |slots| && slots[i].active && slots[i].joined && slots[i].timeOffsetValid ==> i in at)
  }

  lemma SampledLast(xs: seq<int>, slots: seq<Slot>, at: seq<nat>)
    requires slots != [] && SampledAt(xs, slots[..|slots| - 1], at)
    ensures var last := slots[|slots| - 1];
            if HasSample(last) then SampledAt(xs + [last.timeOffset], slots, at + [|slots| - 1])
            else SampledAt(xs, slots, at)
  {
    var front := slots[..|slots| - 1];
    forall k | 0 <= k < |at| ensures at[k] < |front| && slots[at[k]] == front[at[k]] {
    }
    forall i | 0 <= i < |front| && HasSample(slots[i]) ensures i in at {
      assert front[i] == slots[i];
    }
    assert forall i :: i in at ==> i in at + [|slots| - 1];
  }

  lemma {:induction false} SamplesAreListed(slots: seq<Slot>) returns (at: seq<nat>)
    ensures SampledAt(Samples(slots), slots, at)
  {
    at := [];
    if slots != [] {
      at := SamplesAreListed(slots[..|slots| - 1]);
      SampledLast(Samples(slots[..|slots| - 1]), slots, at);
      if HasSample(slots[|slots| - 1]) {
        at := at + [|slots| - 1];
      }
    }
  }

  function Share(x: int, lower: int): int {
    if lower <= x <= lower + 120 then x else 0
  }

  /** The total is made of one share for each sample: itself if it is in the window, else nothing. */
  lemma {:induction false} TotalCountsEachOnce(xs: seq<int>, lower: int, i: nat, x: int)
    requires i < |xs|
    ensures Total(xs[i := x], lower) - Total(xs, lower) == Share(x, lower) - Share(xs[i], lower)
    ensures (forall k :: 0 <= k < |xs| ==> Share(xs[k], lower) == 0) ==> Total(xs, lower) == 0
  {
    var last := |xs| - 1;
    var ys := xs[i := x];
    if i < last {
      assert ys[..last] == xs[..last][i := x] && ys[last] == xs[last];
      TotalCountsEachOnce(xs[..last], lower, i, x);
    } else {
      assert ys[..last] == xs[..last];
      if last > 0 {
        TotalCountsEachOnce(xs[..last], lower, 0, x);
      }
    }
  }

  method CollectSamples(slots: array<Slot>) returns (offsets: seq<int>)
    ensures offsets == Samples(slots[..])
  {
    offsets := [];
    for i := 0 to slots.Length
      invariant offsets == Samples(slots[..i])
    {
      assert slots[..i + 1][..i] == slots[..i];
      if !HasSample(slots[i]) {
        continue;
      }
      offsets := offsets + [slots[i].timeOffset];
    }
    assert slots[..slots.Length] == slots[..];
  }

  /** The samples in the window anchored at one of them. */
  method SumCluster(offsets: seq<int>, lower: int) returns (total: int, clusterCount: nat)
    ensures total == Total(offsets, lower) && clusterCount == Count(offsets, lower)
  {
    total, clusterCount := 0, 0;
    var upper := lower + TIME_SYNC_TOLERANCE_S;
    for j := 0 to |offsets|
      invariant total == Total(offsets[..j], lower) && clusterCount == Count(offsets[..j], lower)
    {
      assert offsets[..j + 1][..j] == offsets[..j];
      if lower <= offsets[j] <= upper {
        total := total + offsets[j];
        clusterCount := clusterCount + 1;
      }
    }
    assert offsets[..|offsets|] == offsets;
  }

  /** The estimator: every sample anchors a window, the fullest qualifying window wins. */
  method ConsensusOffset(slots: array<Slot>) returns (found: bool, offset: int)
    ensures var xs := Samples(slots[..]);
            && (found <==> Agreement(xs))
            && (found ==> exists i: nat :: LargestCluster(xs, i)
                                       && offset == TruncDiv(Total(xs, xs[i]), Count(xs, xs[i])))
  {
    var offsets := CollectSamples(slots);
    ghost var xs := offsets;
    found, offset := false, 0;
    var count := |offsets|;
    var required := Threshold(count);
    if required == 0 {
      return;
    }
    var selectedTotal, selectedCount := 0, 0;
    ghost var anchor := 0;
    for i := 0 to count
      invariant !found ==> selectedCount == 0
                           && forall j :: 0 <= j < i ==> Count(xs, xs[j]) < required
      invariant found ==> anchor < i && selectedCount == Count(xs, xs[anchor]) >= required
                          && selectedTotal == Total(xs, xs[anchor])
                          && forall j :: 0 <= j < i ==> Count(xs, xs[j]) <= selectedCount
    {
      var total, clusterCount := SumCluster(offsets, offsets[i]);
      if clusterCount >= required && clusterCount > selectedCount {
        selectedTotal, selectedCount, found := total, clusterCount, true;
        anchor := i;
      }
    }
    if !found {
      NoAgreement(xs);
      return;
    }
    offset := TruncDiv(selectedTotal, selectedCount);
    assert LargestCluster(xs, anchor);
  }

  lemma NoAgreement(xs: seq<int>)
    requires xs != [] && forall j :: 0 <= j < |xs| ==> Count(xs, xs[j]) < Threshold(|xs|)
    ensures !Agreement(xs)
  {
    forall lower ensures Count(xs, lower) < Threshold(|xs|) {
      if Count(xs, lower) >= Threshold(|xs|) {
        AnchoredWindowsSuffice(xs, lower);
      }
    }
  }

  ghost function Range(n: nat): (r: set<nat>)
    ensures |r| == n
    ensures forall i: nat :: i in r <==> i < n
  {
    if n == 0 then {} else Range(n - 1) + {n - 1}
  }

  ghost function Cluster(xs: seq<int>, lower: int): set<nat> {
    set i: nat | i < |xs| && InWindow(xs[i], lower)
  }

  lemma {:induction false} ClusterSize(xs: seq<int>, lower: int)
    ensures |Cluster(xs, lower)| == Count(xs, lower)
  {
    if xs == [] {
      assert Cluster(xs, lower) == {};
    } else {
      var last := |xs| - 1;
      ClusterSize(xs[..last], lower);
      var shorter := Cluster(xs[..last], lower);
      if InWindow(xs[last], lower) {
        assert Cluster(xs, lower) == shorter + {last};
      } else {
        assert Cluster(xs, lower) == shorter;
      }
    }
  }

  /** Two groups of two thirds of the samples always share one. */
  lemma QuorumsIntersect(n: nat, a: set<nat>, b: set<nat>) returns (common: nat)
    requires n > 0 && a <= Range(n) && b <= Range(n)
    requires |a| >= Threshold(n) && |b| >= Threshold(n)
    ensures common in a && common in b
  {
    if a * b == {} {
      assert |a + b| == |a| + |b|;
      SubsetSize(a + b, Range(n));
      assert false;
    }
    common :| common in a * b;
  }

  lemma SubsetSize(a: set<nat>, b: set<nat>)
    requires a <= b
    ensures |a| <= |b|
  {
    assert b == a + (b - a);
  }

  /**
   Fault bound: if two thirds of the clients have clocks within the tolerance of each other, the
   estimator finds a consensus, and whatever the others report its answer is within 120 seconds of
   one of those honest samples and within 240 seconds of all of them.
   */
  lemma ConsensusNearHonest(xs: seq<int>, honest: set<nat>, i: nat)
    requires honest <= Range(|xs|) && |xs| > 0 && |honest| >= Threshold(|xs|)
    requires forall h, k :: h in honest && k in honest ==> xs[h] - xs[k] <= TIME_SYNC_TOLERANCE_S
    ensures Agreement(xs)
    ensures LargestCluster(xs, i) ==>
              var m := TruncDiv(Total(xs, xs[i]), Count(xs, xs[i]));
              && (exists h :: h in honest && -TIME_SYNC_TOLERANCE_S <= m - xs[h] <= TIME_SYNC_TOLERANCE_S)
              && (forall h :: h in honest ==> -2 * TIME_SYNC_TOLERANCE_S <= m - xs[h] <= 2 * TIME_SYNC_TOLERANCE_S)
  {
    HonestAgree(xs, honest);
    if LargestCluster(xs, i) {
      EstimateNearHonest(xs, honest, i);
    }
  }

  lemma MeanInWindow(xs: seq<int>, lower: int)
    requires Count(xs, lower) > 0
    ensures InWindow(TruncDiv(Total(xs, lower), Count(xs, lower)), lower)
  {
    TotalBounds(xs, lower);
    TruncatedMeanInRange(Total(xs, lower), Count(xs, lower), lower, lower + TIME_SYNC_TOLERANCE_S);
  }

  lemma EstimateNearHonest(xs: seq<int>, honest: set<nat>, i: nat)
    requires honest <= Range(|xs|) && |xs| > 0 && |honest| >= Threshold(|xs|)
    requires LargestCluster(xs, i)
    ensures var m := TruncDiv(Total(xs, xs[i]), Count(xs, xs[i]));
            exists h :: h in honest && -TIME_SYNC_TOLERANCE_S <= m - xs[h] <= TIME_SYNC_TOLERANCE_S
  {
    var cluster := Cluster(xs, xs[i]);
    ClusterSize(xs, xs[i]);
    assert cluster <= Range(|xs|);
    var common := QuorumsIntersect(|xs|, cluster, honest);
    MeanInWindow(xs, xs[i]);
    assert InWindow(xs[common], xs[i]);
  }

  lemma HonestAgree(xs: seq<int>, honest: set<nat>)
    requires honest <= Range(|xs|) && |xs| > 0 && |honest| >= Threshold(|xs|)
    requires forall h, k :: h in honest && k in honest ==> xs[h] - xs[k] <= TIME_SYNC_TOLERANCE_S
    ensures Agreement(xs)
  {
    assert honest != {};
    var least := LeastHonest(xs, honest);
    assert honest <= Cluster(xs, xs[least]);
    SubsetSize(honest, Cluster(xs, xs[least]));
    ClusterSize(xs, xs[least]);
  }

  lemma {:induction false} LeastHonest(xs: seq<int>, honest: set<nat>) returns (least: nat)
    requires honest != {} && honest <= Range(|xs|)
    ensures least in honest && forall h :: h in honest ==> xs[least] <= xs[h]
    decreases |honest|
  {
    var h :| h in honest;
    least := h;
    if honest != {h} {
      assert honest == (honest - {h}) + {h};
      var other := LeastHonest(xs, honest - {h});
      if xs[other] < xs[h] {
        least := other;
      }
    }
  }
}
