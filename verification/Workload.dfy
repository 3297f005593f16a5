/**
 * The two-pass workload generator over an arbitrary random stream. The engine's raw outputs, the
 * logarithm and the rounding of floating-point results are parameters.
 */
module Workload {
  import opened Model
  import opened Machine
  import opened Invariant
  import opened Outcomes
  import opened Reservation

  /** The top 53 of 64 random bits, as a number in (0, 1]. */
  function Uniform(x: nat): (u: real)
    ensures 0.0 < u
    ensures x < 0x1_0000_0000_0000_0000 ==> u <= 1.0
  {
    UniformRange(x / 2048 + 1);
    (x / 2048 + 1) as real / 9_007_199_254_740_992.0
  }

  lemma UniformRange(n: nat)
    requires n > 0
    ensures 0.0 < n as real / 9_007_199_254_740_992.0
    ensures n <= 9_007_199_254_740_992 ==> n as real / 9_007_199_254_740_992.0 <= 1.0
  {
  }

  /** Every multiple of 2^-53 in (0, 1], and nothing else, is drawn, each for 2048 neighbouring outputs. */
  lemma UniformIsEven(x: nat, k: nat)
    ensures Uniform(x) * 9_007_199_254_740_992.0 == k as real <==> 2048 * (k - 1) <= x < 2048 * k
  {
    var n := x / 2048 + 1;
    assert Uniform(x) * 9_007_199_254_740_992.0 == n as real;
    assert 2048 * (n - 1) <= x < 2048 * n;
  }

  /**
   * raw k: the k-th 64-bit output; negLog: minus the logarithm; round: the floating-point number a
   * real result is rounded to.
   */
  datatype Stream = Stream(raw: nat -> nat, negLog: real -> real, round: real -> real)
  {
    /** Rounding keeps order, 0, 1, what is already rounded, and the integral part of that. */
    ghost predicate Valid()
    {
      && (forall k: nat :: raw(k) < 0x1_0000_0000_0000_0000)
      && (forall u: real :: 0.0 < u <= 1.0 ==> negLog(u) >= 0.0)
      && (forall a: real, b: real :: a <= b ==> round(a) <= round(b))
      && (forall a: real :: round(round(a)) == round(a))
      && (forall a: real :: round(round(a).Floor as real) == round(a).Floor as real)
      && round(0.0) == 0.0 && round(1.0) == 1.0
    }

    /** Floating-point multiplication. */
    function Mul(a: real, b: real): real
    {
      round(a * b)
    }

    /** Floating-point addition. */
    function Add(a: real, b: real): real
    {
      round(a + b)
    }
  }

  datatype Profile = Profile(request: Resources, meanDuration: nat)

  const SECOND := 1_000_000

  const PROFILES: seq<Profile> := [
    Profile(Resources(1, 2_048), 30 * SECOND),
    Profile(Resources(4, 8_192), 120 * SECOND),
    Profile(Resources(16, 32_768), 600 * SECOND),
    Profile(Resources(4, 49_152), 600 * SECOND)
  ]

  const DEFAULT_NODE := Resources(16, 65_536)

  /** Deterministic source of workload randomness: a position in the stream. */
  class RandomSource {
    const stream: Stream
    var drawn: nat

    constructor (stream: Stream)
      ensures this.stream == stream && drawn == 0
    {
      this.stream := stream;
      drawn := 0;
    }

    method NextBelow(n: nat) returns (r: nat)
      requires n > 0
      modifies this`drawn
      ensures r == stream.raw(old(drawn)) % n && r < n && drawn == old(drawn) + 1
    {
      r := stream.raw(drawn) % n;
      drawn := drawn + 1;
    }

    method NextUniform() returns (u: real)
      requires stream.Valid()
      modifies this`drawn
      ensures u == Uniform(stream.raw(old(drawn))) && 0.0 < u <= 1.0 && drawn == old(drawn) + 1
    {
      u := Uniform(stream.raw(drawn));
      drawn := drawn + 1;
    }

    method NextExponential(mean: real) returns (gap: nat)
      requires stream.Valid() && mean >= 0.0
      modifies this`drawn
      ensures gap == Exponential(stream, old(drawn), mean) && drawn == old(drawn) + 1
    {
      var u := NextUniform();
      ExponentialRange(stream, u, mean);
      gap := stream.Mul(stream.negLog(u), mean).Floor;
    }

    method NextInterarrival(rate: real) returns (gap: nat)
      requires stream.Valid() && rate > 0.0
      modifies this`drawn
      ensures gap == Exponential(stream, old(drawn), MeanGap(stream, rate)) && drawn == old(drawn) + 1
    {
      gap := NextExponential(MeanGap(stream, rate));
    }
  }

  // ----- what is drawn -----

  lemma RoundKeepsOrder(g: Stream, a: real, b: real)
    requires g.Valid() && a <= b
    ensures g.round(a) <= g.round(b)
    ensures g.round(0.0) == 0.0 && g.round(1.0) == 1.0 && g.round(g.round(b)) == g.round(b)
  {
  }

  lemma MulKeepsOrder(g: Stream, x: real, y: real, z: real)
    requires g.Valid() && x >= 0.0 && y <= z
    ensures g.Mul(x, y) <= g.Mul(x, z)
  {
    hide g.Valid;
    assert x * y <= x * z;
    RoundKeepsOrder(g, x * y, x * z);
  }

  lemma MulNotNegative(g: Stream, x: real, y: real)
    requires g.Valid() && x >= 0.0 && y >= 0.0
    ensures g.Mul(x, y) >= 0.0
  {
    hide g.Valid;
    assert x * y >= 0.0;
    RoundKeepsOrder(g, 0.0, x * y);
  }

  /** -ln(u) * mean for the k-th output, truncated to a tick. */
  function Exponential(g: Stream, k: nat, mean: real): nat
    requires g.Valid() && mean >= 0.0
  {
    ExponentialRange(g, Uniform(g.raw(k)), mean);
    g.Mul(g.negLog(Uniform(g.raw(k))), mean).Floor
  }

  lemma ExponentialRange(g: Stream, u: real, mean: real)
    requires g.Valid() && 0.0 < u <= 1.0 && mean >= 0.0
    ensures g.Mul(g.negLog(u), mean) >= 0.0
  {
    MulNotNegative(g, g.negLog(u), mean);
  }

  /** Mean ticks between arrivals at so many a second. */
  function MeanGap(g: Stream, rate: real): (mean: real)
    requires g.Valid() && rate > 0.0
    ensures mean >= 0.0
  {
    RoundKeepsOrder(g, 0.0, 1.0 / rate);
    MulNotNegative(g, g.round(1.0 / rate), SECOND as real);
    g.Mul(g.round(1.0 / rate), SECOND as real)
  }

  function ProfileOf(g: Stream, at: nat): (p: Profile)
    ensures Within(p.request, DEFAULT_NODE)
  {
    var k := g.raw(at) % |PROFILES|;
    assert k == 0 || k == 1 || k == 2 || k == 3;
    PROFILES[k]
  }

  /** First pass: three draws a job, before any estimate. */
  function FirstPass(g: Stream, rate: real, at: nat, count: nat): (jobs: seq<Job>)
    requires g.Valid() && rate > 0.0
    ensures |jobs| == count
  {
    if count == 0 then []
    else
      var before := FirstPass(g, rate, at, count - 1);
      var p := at + 3 * (count - 1);
      var profile := ProfileOf(g, p);
      before + [FreshJob(count - 1, profile.request,
                         Exponential(g, p + 1, profile.meanDuration as real),
                         LastTick(before) + Exponential(g, p + 2, MeanGap(g, rate)))]
  }

  function LastTick(jobs: seq<Job>): nat
  {
    if jobs == [] then 0 else jobs[|jobs| - 1].submitTime
  }

  /** How much a claim is stretched: 1 + padding * u. */
  function Factor(g: Stream, padding: real, u: real): (f: real)
    requires padding >= 0.0 && 0.0 < u && g.Valid()
    ensures f >= 1.0
  {
    MulAtLeast(g, 0.0, padding, u);
    AddAtLeast(g, 1.0, g.Mul(padding, u));
    g.Add(1.0, g.Mul(padding, u))
  }

  /** The stretched duration, truncated to a tick. */
  function Padded(g: Stream, padding: real, u: real, duration: nat): (e: nat)
    requires padding >= 0.0 && 0.0 < u && g.Valid()
    ensures g.round(duration as real).Floor <= e
  {
    Stretched(g, duration, Factor(g, padding, u));
    g.Mul(g.round(duration as real), Factor(g, padding, u)).Floor
  }

  lemma Stretched(g: Stream, duration: nat, factor: real)
    requires g.Valid() && factor >= 1.0
    ensures 0.0 <= g.round(duration as real) <= g.Mul(g.round(duration as real), factor)
  {
    RoundKeepsOrder(g, 0.0, duration as real);
    hide g.Valid, g.Mul;
    MulAtLeast(g, g.round(duration as real), g.round(duration as real), factor);
  }

  /** A rounded product is at least any rounded number the product is at least: zero, or x itself when stretched. */
  lemma MulAtLeast(g: Stream, low: real, x: real, y: real)
    requires g.Valid() && x >= 0.0 && y > 0.0 && g.round(low) == low
    requires low == 0.0 || (low == x && y >= 1.0)
    ensures low <= g.Mul(x, y)
  {
    hide g.Valid;
    ProductAtLeast(low, x, y);
    RoundKeepsOrder(g, low, x * y);
    RoundKeepsOrder(g, low, low);
  }

  lemma ProductAtLeast(low: real, x: real, y: real)
    requires x >= 0.0 && y > 0.0 && (low == 0.0 || (low == x && y >= 1.0))
    ensures low <= x * y
  {
    if y >= 1.0 { assert x <= x * y; }
  }

  lemma AddAtLeast(g: Stream, low: real, x: real)
    requires g.Valid() && x >= 0.0 && g.round(low) == low
    ensures low <= g.Add(low, x)
  {
    RoundKeepsOrder(g, low, low + x);
  }

  /** No padding lets an estimate fall below the duration, exactly when rounding does not do so already. */
  lemma {:induction false} EstimateNotBelow(g: Stream, duration: nat)
    requires g.Valid()
    ensures (forall padding: real, u: real :: padding >= 0.0 && 0.0 < u <= 1.0 ==>
               duration <= Padded(g, padding, u, duration))
            <==> duration as real <= g.round(duration as real)
  {
    hide g.Valid, Padded;
    if duration as real <= g.round(duration as real) {
      forall padding: real, u: real | padding >= 0.0 && 0.0 < u <= 1.0
        ensures duration <= Padded(g, padding, u, duration)
      {
        assert g.round(duration as real).Floor <= Padded(g, padding, u, duration);
      }
    } else {
      WithoutPadding(g, duration);
    }
  }

  lemma WithoutPadding(g: Stream, duration: nat)
    requires g.Valid()
    ensures Padded(g, 0.0, 1.0, duration) == g.round(duration as real).Floor
  {
    RoundKeepsOrder(g, 0.0, duration as real);
    assert Factor(g, 0.0, 1.0) == 1.0;
  }

  /** The estimate of a job, from its own draw. */
  function Estimate(g: Stream, padding: real, duration: nat, at: nat): nat
    requires padding >= 0.0 && g.Valid()
  {
    Padded(g, padding, Uniform(g.raw(at)), duration)
  }

  /** A duration that is a truncated floating-point number, as every drawn one is. */
  ghost predicate Drawable(g: Stream, duration: nat)
  {
    g.round(duration as real) == duration as real
  }

  /** The whole workload: the first pass with estimates drawn afterwards, one more draw a job. */
  function Generated(g: Stream, rate: real, padding: real, at: nat, count: nat): (jobs: seq<Job>)
    requires rate > 0.0 && padding >= 0.0 && g.Valid()
    ensures |jobs| == count
  {
    Estimated(g, padding, at + 3 * count, FirstPass(g, rate, at, count))
  }

  /** Second pass: one draw a job, overwriting the estimate. */
  function Estimated(g: Stream, padding: real, at: nat, jobs: seq<Job>): (r: seq<Job>)
    requires padding >= 0.0 && g.Valid()
    ensures |r| == |jobs|
    ensures forall i :: 0 <= i < |jobs| ==> r[i] == jobs[i].(estimatedDuration := r[i].estimatedDuration)
  {
    seq(|jobs|, i requires 0 <= i < |jobs| =>
      jobs[i].(estimatedDuration := Estimate(g, padding, jobs[i].duration, at + i)))
  }

  lemma EstimatedAt(g: Stream, padding: real, at: nat, jobs: seq<Job>, i: nat)
    requires padding >= 0.0 && g.Valid() && i < |jobs|
    ensures Estimated(g, padding, at, jobs)[i]
            == jobs[i].(estimatedDuration := Padded(g, padding, Uniform(g.raw(at + i)), jobs[i].duration))
  {
    hide g.Valid, Padded, Uniform;
  }

  lemma NothingDrawn(g: Stream, rate: real, at: nat)
    requires g.Valid() && rate > 0.0
    ensures FirstPass(g, rate, at, 0) == []
  {
  }

  lemma FirstPassStep(g: Stream, rate: real, at: nat, num: nat)
    requires g.Valid() && rate > 0.0
    ensures var p, profile := at + 3 * num, PROFILES[g.raw(at + 3 * num) % |PROFILES|];
            FirstPass(g, rate, at, num + 1)
            == FirstPass(g, rate, at, num)
               + [FreshJob(num, profile.request, Exponential(g, p + 1, profile.meanDuration as real),
                           LastTick(FirstPass(g, rate, at, num)) + Exponential(g, p + 2, MeanGap(g, rate)))]
  {
    hide g.Valid, Exponential, MeanGap;
  }

  /** WorkloadGenerator::generate. */
  method Generate(rng: RandomSource, rate: real, padding: real, count: nat) returns (jobs: seq<Job>)
    requires rate > 0.0 && padding >= 0.0 && rng.stream.Valid()
    modifies rng`drawn
    ensures jobs == Generated(rng.stream, rate, padding, old(rng.drawn), count)
    ensures rng.drawn == old(rng.drawn) + 4 * count
  {
    hide Estimated, FirstPass, rng.stream.Valid, Exponential, MeanGap;
    ghost var at := rng.drawn;
    NothingDrawn(rng.stream, rate, at);
    jobs := [];
    var curTick := 0;
    for num := 0 to count
      invariant rng.drawn == at + 3 * num
      invariant jobs == FirstPass(rng.stream, rate, at, num)
      invariant curTick == LastTick(jobs)
    {
      FirstPassStep(rng.stream, rate, at, num);
      var k := rng.NextBelow(|PROFILES|);
      var profile := PROFILES[k];
      var duration := rng.NextExponential(profile.meanDuration as real);
      var wait := rng.NextInterarrival(rate);
      curTick := curTick + wait;
      jobs := jobs + [FreshJob(num, profile.request, duration, curTick)];
    }
    jobs := DrawEstimates(rng, padding, jobs);
  }

  /** The second pass of generate. */
  method DrawEstimates(rng: RandomSource, padding: real, first: seq<Job>) returns (jobs: seq<Job>)
    requires padding >= 0.0 && rng.stream.Valid()
    modifies rng`drawn
    ensures jobs == Estimated(rng.stream, padding, old(rng.drawn), first)
    ensures rng.drawn == old(rng.drawn) + |first|
  {
    hide rng.stream.Valid, Padded, Uniform, Estimated;
    ghost var at, goal := rng.drawn, Estimated(rng.stream, padding, rng.drawn, first);
    jobs := first;
    for i := 0 to |first|
      invariant rng.drawn == at + i && |jobs| == |first|
      invariant forall k :: 0 <= k < i ==> jobs[k] == goal[k]
      invariant forall k :: i <= k < |first| ==> jobs[k] == first[k]
    {
      EstimatedAt(rng.stream, padding, at, first, i);
      var u := rng.NextUniform();
      jobs := jobs[i := jobs[i].(estimatedDuration := Padded(rng.stream, padding, u, jobs[i].duration))];
    }
  }

  // ----- properties -----

  /** Fresh, dense, in submission order, and fitting a default node. */
  ghost predicate Tidy(jobs: seq<Job>)
  {
    && (forall i :: 0 <= i < |jobs| ==>
          && jobs[i].id == i && jobs[i].state == Queued
          && jobs[i].startTime == NEVER && jobs[i].finishTime == NEVER
          && Within(jobs[i].request, DEFAULT_NODE))
    && (forall i, k :: 0 <= i < k < |jobs| ==> jobs[i].submitTime <= jobs[k].submitTime)
  }

  lemma TidyAppend(jobs: seq<Job>, request: Resources, duration: nat, wait: nat)
    requires Tidy(jobs) && Within(request, DEFAULT_NODE)
    ensures Tidy(jobs + [FreshJob(|jobs|, request, duration, LastTick(jobs) + wait)])
  {
  }

  lemma {:induction false} FirstPassIsTidy(g: Stream, rate: real, at: nat, count: nat)
    requires g.Valid() && rate > 0.0
    ensures Tidy(FirstPass(g, rate, at, count))
  {
    hide Tidy, g.Valid, Exponential, MeanGap;
    if count == 0 {
      EmptyIsTidy();
    } else {
      FirstPassIsTidy(g, rate, at, count - 1);
      var before, p := FirstPass(g, rate, at, count - 1), at + 3 * (count - 1);
      TidyAppend(before, ProfileOf(g, p).request,
                 Exponential(g, p + 1, ProfileOf(g, p).meanDuration as real),
                 Exponential(g, p + 2, MeanGap(g, rate)));
    }
  }

  lemma EmptyIsTidy()
    ensures Tidy([])
  {
  }

  lemma GeneratedIsWellFormed(g: Stream, rate: real, padding: real, at: nat, count: nat)
    requires rate > 0.0 && padding >= 0.0 && g.Valid()
    ensures var jobs := Generated(g, rate, padding, at, count);
            Tidy(jobs) && forall i :: 0 <= i < count ==> jobs[i].duration <= jobs[i].estimatedDuration
  {
    hide FirstPass, g.Valid, Estimate;
    FirstPassIsTidy(g, rate, at, count);
    FirstPassIsDrawable(g, rate, at, count);
    EstimatesStayTidy(g, padding, at + 3 * count, FirstPass(g, rate, at, count));
  }

  lemma {:induction false} FirstPassIsDrawable(g: Stream, rate: real, at: nat, count: nat)
    requires g.Valid() && rate > 0.0
    ensures forall i :: 0 <= i < count ==> Drawable(g, FirstPass(g, rate, at, count)[i].duration)
  {
    if count > 0 {
      FirstPassIsDrawable(g, rate, at, count - 1);
    }
  }

  lemma EstimatesStayTidy(g: Stream, padding: real, at: nat, jobs: seq<Job>)
    requires padding >= 0.0 && g.Valid() && Tidy(jobs)
    requires forall i :: 0 <= i < |jobs| ==> Drawable(g, jobs[i].duration)
    ensures Tidy(Estimated(g, padding, at, jobs))
    ensures forall i :: 0 <= i < |jobs| ==> jobs[i].duration <= Estimated(g, padding, at, jobs)[i].estimatedDuration
  {
    forall i | 0 <= i < |jobs|
      ensures jobs[i].duration <= Estimated(g, padding, at, jobs)[i].estimatedDuration
    {
      assert Drawable(g, jobs[i].duration);
      EstimateNotBelow(g, jobs[i].duration);
    }
    hide Padded;
  }

  // ----- what each job is -----

  /** The profile drawn by one output, in numbers. */
  ghost predicate HasProfile(g: Stream, j: Job, k: nat, request: Resources, mean: real)
    requires g.Valid() && mean >= 0.0
  {
    j.request == request && j.duration == Exponential(g, k, mean)
  }

  lemma {:induction false} FirstPassJob(g: Stream, rate: real, at: nat, count: nat, i: nat)
    requires g.Valid() && rate > 0.0 && i < count
    ensures var jobs := FirstPass(g, rate, at, count);
            var p, profile := at + 3 * i, PROFILES[g.raw(at + 3 * i) % |PROFILES|];
            && jobs[i].request == profile.request
            && jobs[i].duration == Exponential(g, p + 1, profile.meanDuration as real)
            && jobs[i].submitTime == (if i == 0 then 0 else jobs[i - 1].submitTime) + Exponential(g, p + 2, MeanGap(g, rate))
  {
    hide g.Valid, Exponential, MeanGap, FirstPass;
    var jobs := FirstPass(g, rate, at, count);
    FirstPassPrefix(g, rate, at, i + 1, count);
    FirstPassStep(g, rate, at, i);
    assert jobs[i] == jobs[..i + 1][i];
    if i > 0 { assert jobs[i - 1] == jobs[..i + 1][i - 1]; }
  }

  /**
   * Job i of a generated workload: three outputs give its profile, its duration and its gap to the
   * job before; one output after all of those gives its estimate. The four profiles ask for 1, 4, 16
   * and 4 cores and for mean durations of 30, 120, 600 and 600 seconds.
   */
  lemma {:induction false} GeneratedJob(g: Stream, rate: real, padding: real, at: nat, count: nat, i: nat)
    requires rate > 0.0 && padding >= 0.0 && g.Valid() && i < count
    ensures var jobs := Generated(g, rate, padding, at, count);
            var j, p := jobs[i], at + 3 * i;
            && (g.raw(p) % 4 == 0 ==> HasProfile(g, j, p + 1, Resources(1, 2048), 30_000_000.0))
            && (g.raw(p) % 4 == 1 ==> HasProfile(g, j, p + 1, Resources(4, 8192), 120_000_000.0))
            && (g.raw(p) % 4 == 2 ==> HasProfile(g, j, p + 1, Resources(16, 32768), 600_000_000.0))
            && (g.raw(p) % 4 == 3 ==> HasProfile(g, j, p + 1, Resources(4, 49152), 600_000_000.0))
            && j.submitTime == (if i == 0 then 0 else jobs[i - 1].submitTime) + Exponential(g, p + 2, MeanGap(g, rate))
            && j.estimatedDuration == Padded(g, padding, Uniform(g.raw(at + 3 * count + i)), j.duration)
  {
    hide g.Valid, Exponential, MeanGap, FirstPass, Padded;
    FirstPassJob(g, rate, at, count, i);
  }

  /**
   * Of a 16-core node with 65536 MB the first three profiles take twice the share of cores as of
   * memory, and the fourth three times the share of memory as of cores.
   */
  lemma {:induction false} ProfileShapes(g: Stream, rate: real, padding: real, at: nat, count: nat, i: nat)
    requires rate > 0.0 && padding >= 0.0 && g.Valid() && i < count
    ensures var j := Generated(g, rate, padding, at, count)[i];
            && 0 < j.request.cores <= 16 && 0 < j.request.memory <= 65536
            && (g.raw(at + 3 * i) % 4 != 3 ==> j.request.cores as real / 16.0 == 2.0 * (j.request.memory as real / 65536.0))
            && (g.raw(at + 3 * i) % 4 == 3 ==> j.request.memory as real / 65536.0 == 3.0 * (j.request.cores as real / 16.0))
  {
    GeneratedJob(g, rate, padding, at, count, i);
    hide Generated, Exponential, MeanGap, Padded, g.Valid;
  }

  /** What a floating-point operation yields when its result needs no rounding. */
  ghost predicate Unrounded(g: Stream, x: real)
  {
    g.round(x) == x
  }

  /** A drawn time is -ln(u) * mean down to a tick, for u the top 53 bits plus one over 2^53. */
  lemma ExponentialValue(g: Stream, k: nat, mean: real, u: real)
    requires g.Valid() && mean >= 0.0 && u * 9_007_199_254_740_992.0 == (g.raw(k) / 2048 + 1) as real
    requires Unrounded(g, g.negLog(u) * mean)
    ensures var gap := Exponential(g, k, mean) as real;
            gap <= g.negLog(u) * mean < gap + 1.0
  {
    assert u == Uniform(g.raw(k));
    hide g.Valid;
  }

  /** The mean gap is a second over the rate. */
  lemma MeanGapValue(g: Stream, rate: real)
    requires g.Valid() && rate > 0.0
    requires Unrounded(g, 1.0 / rate) && Unrounded(g, 1.0 / rate * 1_000_000.0)
    ensures MeanGap(g, rate) * rate == 1_000_000.0
  {
    hide g.Valid;
    assert MeanGap(g, rate) == 1.0 / rate * 1_000_000.0;
    Reciprocal(rate, 1_000_000.0);
  }

  lemma Reciprocal(rate: real, x: real)
    requires rate > 0.0
    ensures 1.0 / rate * x * rate == x
  {
    assert 1.0 / rate * rate == 1.0;
  }

  /** A claim is the duration times 1 + padding * u, down to a tick. */
  lemma PaddedValue(g: Stream, padding: real, u: real, duration: nat, factor: real)
    requires padding >= 0.0 && 0.0 < u && factor == 1.0 + padding * u && g.Valid() && Drawable(g, duration)
    requires Unrounded(g, padding * u) && Unrounded(g, factor) && Unrounded(g, duration as real * factor)
    ensures var e := Padded(g, padding, u, duration) as real;
            e <= duration as real * factor < e + 1.0
  {
    hide g.Valid;
    assert Factor(g, padding, u) == factor;
    PaddedByFactor(g, padding, u, duration, factor);
  }

  lemma PaddedByFactor(g: Stream, padding: real, u: real, duration: nat, factor: real)
    requires padding >= 0.0 && 0.0 < u && g.Valid() && Drawable(g, duration)
    requires Factor(g, padding, u) == factor && Unrounded(g, duration as real * factor)
    ensures var e := Padded(g, padding, u, duration) as real;
            e <= duration as real * factor < e + 1.0
  {
    hide g.Valid, Factor;
    assert g.Mul(duration as real, factor) == duration as real * factor;
  }

  /** A larger draw or a wider padding never gives a smaller claim. */
  lemma PaddedGrows(g: Stream, padding: real, u: real, padding': real, u': real, duration: nat)
    requires 0.0 <= padding <= padding' && 0.0 < u <= u' && g.Valid()
    ensures Padded(g, padding, u, duration) <= Padded(g, padding', u', duration)
  {
    hide g.Valid, Padded;
    ProductGrows(padding, u, padding', u');
    RoundKeepsOrder(g, padding * u, padding' * u');
    RoundKeepsOrder(g, 1.0 + g.Mul(padding, u), 1.0 + g.Mul(padding', u'));
    PaddedFollowsFactor(g, padding, u, padding', u', duration);
  }

  lemma ProductGrows(a: real, b: real, a': real, b': real)
    requires 0.0 <= a <= a' && 0.0 <= b <= b'
    ensures a * b <= a' * b'
  {
    assert a * b <= a' * b;
    assert a' * b <= a' * b';
  }

  lemma PaddedFollowsFactor(g: Stream, padding: real, u: real, padding': real, u': real, duration: nat)
    requires 0.0 <= padding && 0.0 <= padding' && 0.0 < u && 0.0 < u' && g.Valid()
    requires Factor(g, padding, u) <= Factor(g, padding', u')
    ensures Padded(g, padding, u, duration) <= Padded(g, padding', u', duration)
  {
    RoundKeepsOrder(g, 0.0, duration as real);
    MulKeepsOrder(g, g.round(duration as real), Factor(g, padding, u), Factor(g, padding', u'));
    hide g.Valid, Factor;
  }

  /** Each job's claim is its own: its duration times 1 + padding * u for the u of its own output. */
  lemma {:induction false} GeneratedEstimate(
    g: Stream, rate: real, padding: real, at: nat, count: nat, i: nat, duration: nat, u: real, factor: real)
    requires rate > 0.0 && padding >= 0.0 && g.Valid() && i < count
    requires duration == Generated(g, rate, padding, at, count)[i].duration
    requires u * 9_007_199_254_740_992.0 == (g.raw(at + 3 * count + i) / 2048 + 1) as real
    requires factor == 1.0 + padding * u
    requires Unrounded(g, padding * u) && Unrounded(g, factor) && Unrounded(g, duration as real * factor)
    ensures 1.0 <= factor <= 1.0 + padding
    ensures var e := Generated(g, rate, padding, at, count)[i].estimatedDuration as real;
            e <= duration as real * factor < e + 1.0
  {
    hide g.Valid, Padded, Exponential, MeanGap, Factor, Uniform, Generated;
    GeneratedDraw(g, rate, padding, at, count, i, u);
    FactorRange(padding, u, factor);
    PaddedValue(g, padding, u, duration, factor);
  }

  lemma GeneratedDraw(g: Stream, rate: real, padding: real, at: nat, count: nat, i: nat, u: real)
    requires rate > 0.0 && padding >= 0.0 && g.Valid() && i < count
    requires u * 9_007_199_254_740_992.0 == (g.raw(at + 3 * count + i) / 2048 + 1) as real
    ensures 0.0 < u <= 1.0
    ensures var j := Generated(g, rate, padding, at, count)[i];
            Drawable(g, j.duration) && j.estimatedDuration == Padded(g, padding, u, j.duration)
  {
    OutputRange(g, at + 3 * count + i);
    hide g.Valid, Padded, Exponential, MeanGap, Factor, FirstPass;
    assert u == Uniform(g.raw(at + 3 * count + i));
    FirstPassIsDrawable(g, rate, at, count);
    GeneratedJob(g, rate, padding, at, count, i);
  }

  lemma FactorRange(padding: real, u: real, factor: real)
    requires padding >= 0.0 && 0.0 < u <= 1.0 && factor == 1.0 + padding * u
    ensures 1.0 <= factor <= 1.0 + padding
  {
    ProductGrows(padding, 0.0, padding, u);
    ProductGrows(padding, u, padding, 1.0);
  }

  lemma OutputRange(g: Stream, k: nat)
    requires g.Valid()
    ensures 0.0 < Uniform(g.raw(k)) <= 1.0
  {
  }

  /** Changing the padding changes estimates and nothing else. */
  lemma PaddingOnlyMovesEstimates(g: Stream, rate: real, p: real, q: real, at: nat, count: nat, i: nat)
    requires rate > 0.0 && p >= 0.0 && q >= 0.0 && g.Valid() && i < count
    ensures var a, b := Generated(g, rate, p, at, count)[i], Generated(g, rate, q, at, count)[i];
            a == b.(estimatedDuration := a.estimatedDuration)
  {
  }

  lemma {:induction false} FirstPassPrefix(g: Stream, rate: real, at: nat, n: nat, m: nat)
    requires g.Valid() && rate > 0.0 && n <= m
    ensures FirstPass(g, rate, at, m)[..n] == FirstPass(g, rate, at, n)
  {
    hide FirstPass;
    if n < m {
      FirstPassPrefix(g, rate, at, n, m - 1);
      FirstPassStep(g, rate, at, m - 1);
      assert FirstPass(g, rate, at, m)[..n] == FirstPass(g, rate, at, m - 1)[..n];
    } else {
      assert FirstPass(g, rate, at, m)[..m] == FirstPass(g, rate, at, m);
    }
  }

  /** n jobs are a prefix of m jobs in every field but the estimates. */
  lemma FewerJobsAreAPrefix(g: Stream, rate: real, padding: real, at: nat, n: nat, m: nat, i: nat)
    requires rate > 0.0 && padding >= 0.0 && g.Valid() && i < n <= m
    ensures var a, b := Generated(g, rate, padding, at, n)[i], Generated(g, rate, padding, at, m)[i];
            a == b.(estimatedDuration := a.estimatedDuration)
  {
    FirstPassPrefix(g, rate, at, n, m);
    assert FirstPass(g, rate, at, m)[..n][i] == FirstPass(g, rate, at, n)[i];
  }

  /** A generated workload on at least one default node. */
  ghost predicate DefaultSetup(c: Config, g: Stream, rate: real, padding: real, at: nat)
    requires rate > 0.0 && padding >= 0.0 && g.Valid()
  {
    && c.jobs == Generated(g, rate, padding, at, |c.jobs|)
    && c.nodes != []
    && forall i :: 0 <= i < |c.nodes| ==> c.nodes[i] == Node(i, Resources(16, 65536), Resources(16, 65536), 0)
  }

  /** Whatever the stream, a generated workload meets what the run theorems ask for, and completes. */
  lemma GeneratedRunsComplete(c: Config, g: Stream, rate: real, padding: real, at: nat)
    requires rate > 0.0 && padding >= 0.0 && g.Valid() && DefaultSetup(c, g, rate, padding, at)
    ensures WellFormed(c) && HonestEstimates(c)
    ensures Final(c).pending == [] && |Final(c).jobs| == |c.jobs|
    ensures forall i :: 0 <= i < |c.jobs| ==> Final(c).jobs[i].state == Done
  {
    hide Generated, Final, g.Valid;
    GeneratedIsWellFormed(g, rate, padding, at, |c.jobs|);
    forall i | 0 <= i < |c.jobs|
      ensures Satisfiable(c.jobs[i].request, c.nodes)
    {
      assert Within(c.jobs[i].request, c.nodes[0].capacity);
    }
    NoStarvation(c);
  }
}
