/**
 * The sustained-CPU signal (pkg/abuse/window.go): an unbroken run of samples at or above the threshold, and when it has
 * lasted the window. Instants and lengths of time are in nanoseconds.
 */
module AbuseWindow {
  import opened Wrappers

  const MAX_GAP := 180_000_000_000

  /** One look at a service. permille is the share of what its copies are allowed that they used, in thousandths. */
  datatype Sample = Sample(at: int, measured: bool, pods: string, permille: int, requestsPerMinute: Option<real>)

  /** What is read of a service: whether it is settled, its copies, what they used and are allowed, and the requests they were sent. */
  datatype Reading = Reading(measured: bool, pods: string, usedMilli: nat, allowedMilli: nat, requestsPerMinute: Option<real>)

  /** Every reading of a look is a sample at the instant of the look. */
  function SampleOf(reading: Reading, now: int): Sample
  {
    Sample(now, reading.measured, reading.pods, Share(reading.usedMilli, reading.allowedMilli), reading.requestsPerMinute)
  }

  /** Sample.Permille of the source. */
  function Share(usedMilli: nat, allowedMilli: nat): int
  {
    if allowedMilli == 0 then 0 else usedMilli * 1000 / allowedMilli
  }

  /** The share is the largest whole number of thousandths of what is allowed that was used up, and nothing when nothing is allowed. */
  lemma ShareIsTheLargest(usedMilli: nat, allowedMilli: nat, permille: int)
    ensures allowedMilli == 0 ==> Share(usedMilli, allowedMilli) == 0
    ensures allowedMilli > 0 ==> (permille <= Share(usedMilli, allowedMilli) <==> permille * allowedMilli <= usedMilli * 1000)
  {
    if allowedMilli > 0 {
      QuotientIsTheLargest(usedMilli * 1000, allowedMilli, permille);
    }
  }

  lemma QuotientIsTheLargest(a: nat, b: nat, k: int)
    requires b > 0
    ensures k <= a / b <==> k * b <= a
  {
    var q := a / b;
    assert q * b <= a < q * b + b;
    if k <= q {
      assert k * b <= q * b;
    } else {
      assert k * b >= (q + 1) * b;
    }
  }

  datatype Run = Run(since: int, last: int, samples: nat, sumPermille: int, minPermille: int, pods: string, blind: bool) {

    function Lasted(): int
    {
      last - since
    }
  }

  datatype Quiet = Quiet(maxRequestsPerMinute: real, blindThresholdPercent: nat, blindWindow: int)

  datatype Params = Params(thresholdPercent: nat, window: int, quiet: Option<Quiet>) {

    predicate Blind(sample: Sample)
    {
      quiet.Some? && sample.requestsPerMinute.None?
    }

    function ThresholdFor(sample: Sample): int
    {
      if Blind(sample) then quiet.value.blindThresholdPercent * 10 else thresholdPercent * 10
    }

    function WindowFor(blind: bool): int
    {
      if blind && quiet.Some? then quiet.value.blindWindow else window
    }
  }

  /** A sample that is part of a run: measured, at the threshold, and of a service that is quiet where that is asked. */
  predicate Counts(sample: Sample, p: Params)
  {
    && sample.measured && sample.permille >= p.ThresholdFor(sample)
    && !(p.quiet.Some? && sample.requestsPerMinute.Some? && sample.requestsPerMinute.value > p.quiet.value.maxRequestsPerMinute)
  }

  function Min(a: int, b: int): int
  {
    if a < b then a else b
  }

  /** Whether a sample carries a run on: the same copies, later, and not too much later. */
  predicate Continues(run: Run, sample: Sample)
  {
    run.pods == sample.pods && run.last < sample.at && sample.at - run.last <= MAX_GAP
  }

  /** Observe: the run after a sample, and whether it has now lasted the window. */
  function Observe(run: Option<Run>, sample: Sample, p: Params): (Option<Run>, bool)
  {
    var share := sample.permille;
    if !sample.measured || share < p.ThresholdFor(sample) then (None, false)
    else if p.quiet.Some? && sample.requestsPerMinute.Some? && sample.requestsPerMinute.value > p.quiet.value.maxRequestsPerMinute then (None, false)
    else
      var begun := if run.None? || !Continues(run.value, sample) then Run(sample.at, sample.at, 0, 0, share, sample.pods, false) else run.value;
      var next := Run(begun.since, sample.at, begun.samples + 1, begun.sumPermille + share, Min(begun.minPermille, share), begun.pods,
                      begun.blind || p.Blind(sample));
      (Some(next), next.Lasted() >= p.WindowFor(next.blind))
  }

  // ----- what counts, by what was read

  /**
   * Whether a reading is of a service in use: measured, at the percentage of what it is allowed that is asked (or with none
   * asked), and sent no more requests than a quiet one, where only quiet ones are looked for. The percentage is the blind one
   * where that is so and the requests are not known.
   */
  predicate InUse(reading: Reading, p: Params)
  {
    var percent := if p.quiet.Some? && reading.requestsPerMinute.None? then p.quiet.value.blindThresholdPercent else p.thresholdPercent;
    && reading.measured
    && (if reading.allowedMilli > 0 then reading.usedMilli * 100 >= percent * reading.allowedMilli else percent == 0)
    && (p.quiet.Some? && reading.requestsPerMinute.Some? ==> reading.requestsPerMinute.value <= p.quiet.value.maxRequestsPerMinute)
  }

  lemma ReadingCounts(reading: Reading, now: int, p: Params)
    ensures Counts(SampleOf(reading, now), p) <==> InUse(reading, p)
  {
    var percent := if p.quiet.Some? && reading.requestsPerMinute.None? then p.quiet.value.blindThresholdPercent else p.thresholdPercent;
    ShareIsTheLargest(reading.usedMilli, reading.allowedMilli, percent * 10);
    ShareInPercent(reading.usedMilli, reading.allowedMilli, percent);
  }

  lemma ShareInPercent(usedMilli: nat, allowedMilli: nat, percent: nat)
    ensures percent * 10 * allowedMilli <= usedMilli * 1000 <==> percent * allowedMilli <= usedMilli * 100
  {
    assert percent * 10 * allowedMilli == 10 * (percent * allowedMilli);
  }

  // ----- what a history of samples comes to

  /** The run after every sample of a history in turn. */
  function After(history: seq<Sample>, p: Params): Option<Run>
  {
    if history == [] then None else Observe(After(history[..|history| - 1], p), history[|history| - 1], p).0
  }

  /** Two samples of one run, one after the other. */
  predicate Joined(earlier: Sample, later: Sample)
  {
    earlier.pods == later.pods && earlier.at < later.at && later.at - earlier.at <= MAX_GAP
  }

  /** Every sample from the mth on counts, and each follows on from the one before. */
  ghost predicate Unbroken(history: seq<Sample>, m: nat, p: Params)
  {
    && (forall i :: m <= i < |history| ==> Counts(history[i], p))
    && (forall i :: m < i < |history| ==> Joined(history[i - 1], history[i]))
  }

  function SumPermille(samples: seq<Sample>): int
  {
    if samples == [] then 0 else SumPermille(samples[..|samples| - 1]) + samples[|samples| - 1].permille
  }

  function LeastPermille(samples: seq<Sample>): int
    requires samples != []
  {
    if |samples| == 1 then samples[0].permille
    else Min(LeastPermille(samples[..|samples| - 1]), samples[|samples| - 1].permille)
  }

  ghost predicate IsLeast(permille: int, samples: seq<Sample>)
  {
    (forall s :: s in samples ==> permille <= s.permille) && exists s :: s in samples && permille == s.permille
  }

  lemma {:induction false} LeastIsLeast(samples: seq<Sample>)
    requires samples != []
    ensures IsLeast(LeastPermille(samples), samples)
  {
    if |samples| > 1 {
      var earlier, last := samples[..|samples| - 1], samples[|samples| - 1];
      LeastIsLeast(earlier);
      assert samples == earlier + [last];
    } else {
      assert samples == [samples[0]] && samples[0] in samples;
    }
  }

  predicate AnyBlind(samples: seq<Sample>, p: Params)
  {
    exists s :: s in samples && p.Blind(s)
  }

  /** A string of samples as a run: when it began and ended, how many and of which copies, how much they used, and whether any was blind. */
  function Summary(samples: seq<Sample>, p: Params): Run
    requires samples != []
  {
    Run(samples[0].at, samples[|samples| - 1].at, |samples|, SumPermille(samples), LeastPermille(samples), samples[0].pods, AnyBlind(samples, p))
  }

  lemma SummaryOfOne(sample: Sample, p: Params)
    ensures Summary([sample], p) == Run(sample.at, sample.at, 1, sample.permille, sample.permille, sample.pods, p.Blind(sample))
  {
    var one := [sample];
    assert one[..|one| - 1] == [];
    assert SumPermille(one) == sample.permille;
    assert sample in one && forall s :: s in one ==> s == sample;
  }

  lemma SummaryOfMore(samples: seq<Sample>, sample: Sample, p: Params)
    requires samples != []
    ensures
      var run, next := Summary(samples, p), Summary(samples + [sample], p);
      next == Run(run.since, sample.at, run.samples + 1, run.sumPermille + sample.permille, Min(run.minPermille, sample.permille),
                  run.pods, run.blind || p.Blind(sample))
  {
    var more := samples + [sample];
    assert more[..|samples|] == samples;
    assert sample in more;
    assert forall s :: s in more <==> s in samples || s == sample;
  }

  lemma ObserveThatCounts(run: Option<Run>, sample: Sample, p: Params)
    requires Counts(sample, p)
    ensures
      Observe(run, sample, p).0 ==
      if run.Some? && Continues(run.value, sample)
      then Some(Run(run.value.since, sample.at, run.value.samples + 1, run.value.sumPermille + sample.permille,
                    Min(run.value.minPermille, sample.permille), run.value.pods, run.value.blind || p.Blind(sample)))
      else Some(Run(sample.at, sample.at, 1, sample.permille, sample.permille, sample.pods, p.Blind(sample)))
  {
  }

  /** The longest unbroken string of samples that ends a history begins at the mth. */
  ghost predicate Longest(history: seq<Sample>, m: nat, p: Params)
  {
    m < |history| && Unbroken(history, m, p) && (m > 0 ==> !Unbroken(history, m - 1, p))
  }

  /**
   * Folding Observe over a history finds the longest unbroken string of samples that ends it, and sums it up; there is no
   * run exactly when the last sample does not count. Nothing before that string makes any difference.
   */
  lemma {:induction false} RunIsTheLongestUnbroken(history: seq<Sample>, p: Params) returns (m: nat)
    requires history != []
    ensures After(history, p).Some? <==> Counts(history[|history| - 1], p)
    ensures After(history, p).Some? ==> Longest(history, m, p) && After(history, p) == Some(Summary(history[m..], p))
    decreases |history|
  {
    var n := |history| - 1;
    var earlier, sample := history[..n], history[n];
    m := n;
    if !Counts(sample, p) {
      return;
    }
    var before := After(earlier, p);
    if before.None? {
      if n > 0 {
        var _ := RunIsTheLongestUnbroken(earlier, p);
      }
      StartsAfresh(history, p);
      RunOfOne(history, p);
    } else {
      var start := RunIsTheLongestUnbroken(earlier, p);
      LongestCarriesOn(history, start, p);
      if Continues(before.value, sample) {
        m := start;
        assert history[m..] == earlier[m..] + [sample];
        RunOfMore(history, earlier[m..], p);
      } else {
        RunOfOne(history, p);
      }
    }
  }

  /** The evidence of a run: as many samples as that string has, what they used in all, and the least that one of them used. */
  lemma EvidenceOfRun(history: seq<Sample>, p: Params) returns (m: nat)
    requires After(history, p).Some?
    ensures Longest(history, m, p)
    ensures
      var run := After(history, p).value;
      && run.samples == |history| - m && run.since == history[m].at && run.last == history[|history| - 1].at
      && run.sumPermille == SumPermille(history[m..]) && IsLeast(run.minPermille, history[m..])
  {
    m := RunIsTheLongestUnbroken(history, p);
    LeastIsLeast(history[m..]);
  }

  lemma RunOfOne(history: seq<Sample>, p: Params)
    requires history != [] && Counts(history[|history| - 1], p)
    requires
      var before := After(history[..|history| - 1], p);
      before.None? || !Continues(before.value, history[|history| - 1])
    ensures After(history, p) == Some(Summary(history[|history| - 1..], p))
  {
    var n := |history| - 1;
    ObserveThatCounts(After(history[..n], p), history[n], p);
    SummaryOfOne(history[n], p);
    assert history[n..] == [history[n]];
  }

  lemma RunOfMore(history: seq<Sample>, part: seq<Sample>, p: Params)
    requires history != [] && part != [] && Counts(history[|history| - 1], p)
    requires After(history[..|history| - 1], p) == Some(Summary(part, p)) && Continues(Summary(part, p), history[|history| - 1])
    ensures After(history, p) == Some(Summary(part + [history[|history| - 1]], p))
  {
    ObserveMore(part, history[|history| - 1], p);
  }

  lemma ObserveMore(part: seq<Sample>, sample: Sample, p: Params)
    requires part != [] && Counts(sample, p) && Continues(Summary(part, p), sample)
    ensures Observe(Some(Summary(part, p)), sample, p).0 == Some(Summary(part + [sample], p))
  {
    ObserveThatCounts(Some(Summary(part, p)), sample, p);
    SummaryOfMore(part, sample, p);
  }

  lemma StartsAfresh(history: seq<Sample>, p: Params)
    requires history != [] && Counts(history[|history| - 1], p)
    requires |history| > 1 ==> !Counts(history[|history| - 2], p)
    ensures Longest(history, |history| - 1, p)
  {
  }

  lemma LongestCarriesOn(history: seq<Sample>, m: nat, p: Params)
    requires |history| > 1 && Longest(history[..|history| - 1], m, p) && Counts(history[|history| - 1], p)
    ensures
      var sample := history[|history| - 1];
      if Continues(Summary(history[..|history| - 1][m..], p), sample) then Longest(history, m, p)
      else Longest(history, |history| - 1, p)
  {
    var n := |history| - 1;
    var earlier, sample := history[..n], history[n];
    PodsOfRun(earlier, m, p);
    assert Continues(Summary(earlier[m..], p), sample) <==> Joined(history[n - 1], sample);
    UnbrokenGrows(history, m, p);
    if m > 0 {
      UnbrokenGrows(history, m - 1, p);
    }
    UnbrokenGrows(history, n - 1, p);
  }

  lemma UnbrokenGrows(history: seq<Sample>, m: nat, p: Params)
    requires m < |history| - 1 && Counts(history[|history| - 1], p)
    ensures Unbroken(history, m, p) <==> Unbroken(history[..|history| - 1], m, p) && Joined(history[|history| - 2], history[|history| - 1])
    ensures Unbroken(history, |history| - 1, p)
  {
    var n := |history| - 1;
    var earlier := history[..n];
    assert forall i :: m <= i < n ==> earlier[i] == history[i];
    if Unbroken(earlier, m, p) && Joined(history[n - 1], history[n]) {
      forall i | m < i < |history| ensures Joined(history[i - 1], history[i]) {
        if i < n {
          assert Joined(earlier[i - 1], earlier[i]);
        }
      }
    }
    if Unbroken(history, m, p) {
      assert Joined(history[n - 1], history[n]);
      forall i | m < i < n ensures Joined(earlier[i - 1], earlier[i]) {
        assert Joined(history[i - 1], history[i]);
      }
    }
  }

  lemma {:induction false} PodsOfRun(history: seq<Sample>, m: nat, p: Params)
    requires m < |history| && Unbroken(history, m, p)
    ensures history[|history| - 1].pods == history[m].pods
    decreases |history|
  {
    if m < |history| - 1 {
      var earlier := history[..|history| - 1];
      forall i | m < i < |earlier| ensures Joined(earlier[i - 1], earlier[i]) {
        assert Joined(history[i - 1], history[i]);
      }
      PodsOfRun(earlier, m, p);
      assert Joined(history[|history| - 2], history[|history| - 1]);
    }
  }

  /** So a suspicion is raised exactly when that longest string has lasted its window, the stricter one if any of it was blind. */
  lemma SuspectedWhenTheWindowHasLasted(history: seq<Sample>, p: Params)
    requires history != []
    ensures
      var last := history[|history| - 1];
      Observe(After(history[..|history| - 1], p), last, p).1 <==>
      exists m :: 0 <= m < |history| && Longest(history, m, p) && last.at - history[m].at >= p.WindowFor(AnyBlind(history[m..], p))
  {
    var m := RunIsTheLongestUnbroken(history, p);
    forall k | 0 <= k < |history| && Longest(history, k, p) ensures k == m && Counts(history[|history| - 1], p) {
      assert Counts(history[|history| - 1], p);
      OnlyOneIsLongest(history, k, m, p);
    }
  }

  lemma OnlyOneIsLongest(history: seq<Sample>, a: nat, b: nat, p: Params)
    requires Longest(history, a, p) && Longest(history, b, p)
    ensures a == b
  {
    var low, high := if a < b then a else b, if a < b then b else a;
    if low < high {
      assert Unbroken(history, high - 1, p) by {
        forall i | high - 1 < i < |history| ensures Joined(history[i - 1], history[i]) {
        }
      }
    }
  }
}
