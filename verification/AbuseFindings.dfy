/** What the stored runs come to: a service's run is the fold of its own samples, so a suspicion says what they said. */
module AbuseFindings {
  import opened Wrappers
  import opened ApiServer
  import opened AbuseWindow
  import opened AbuseDetector
  import opened AbuseRuns

  const MINUTE := 60_000_000_000

  // ----- a use, by what was read

  /** A reading of a service and the instant it was taken. */
  datatype Observed = Observed(at: int, reading: Reading)

  function SamplesOf(history: seq<Observed>): (samples: seq<Sample>)
    ensures |samples| == |history|
  {
    seq(|history|, i requires 0 <= i < |history| => SampleOf(history[i].reading, history[i].at))
  }

  /** One reading follows on from another: of the same copies, later, and by no more than three minutes. */
  predicate FollowsOn(earlier: Observed, later: Observed)
  {
    earlier.reading.pods == later.reading.pods && earlier.at < later.at <= earlier.at + 3 * MINUTE
  }

  ghost predicate UnbrokenUse(history: seq<Observed>, m: nat, p: Params)
  {
    && (forall i :: m <= i < |history| ==> InUse(history[i].reading, p))
    && (forall i :: m < i < |history| ==> FollowsOn(history[i - 1], history[i]))
  }

  /** The longest unbroken use that ends a history begins at the mth reading. */
  ghost predicate LongestUse(history: seq<Observed>, m: nat, p: Params)
  {
    m < |history| && UnbrokenUse(history, m, p) && (m > 0 ==> !UnbrokenUse(history, m - 1, p))
  }

  /** How long a use has to last: the blind window when only quiet services are looked for and some reading did not know the requests. */
  ghost function WindowOf(part: seq<Observed>, p: Params): int
  {
    if p.quiet.Some? && exists o :: o in part && o.reading.requestsPerMinute.None? then p.quiet.value.blindWindow else p.window
  }

  ghost predicate LastsFrom(history: seq<Observed>, m: nat, p: Params)
  {
    LongestUse(history, m, p) && history[|history| - 1].at - history[m].at >= WindowOf(history[m..], p)
  }

  ghost predicate UseLasted(history: seq<Observed>, p: Params)
  {
    exists m: nat :: LastsFrom(history, m, p)
  }

  lemma UnbrokenAgrees(history: seq<Observed>, m: nat, p: Params)
    ensures UnbrokenUse(history, m, p) <==> Unbroken(SamplesOf(history), m, p)
  {
    var samples := SamplesOf(history);
    forall i | 0 <= i < |history| ensures InUse(history[i].reading, p) <==> Counts(samples[i], p) {
      ReadingCounts(history[i].reading, history[i].at, p);
    }
    forall i | 0 < i < |history| ensures FollowsOn(history[i - 1], history[i]) <==> Joined(samples[i - 1], samples[i]) {
    }
    if Unbroken(samples, m, p) {
      forall i | m <= i < |history| ensures InUse(history[i].reading, p) {
        assert Counts(samples[i], p);
      }
      forall i | m < i < |history| ensures FollowsOn(history[i - 1], history[i]) {
        assert Joined(samples[i - 1], samples[i]);
      }
    }
    if UnbrokenUse(history, m, p) {
      forall i | m < i < |history| ensures Joined(samples[i - 1], samples[i]) {
        assert FollowsOn(history[i - 1], history[i]);
      }
    }
  }

  lemma LongestAgrees(history: seq<Observed>, m: nat, p: Params)
    ensures LongestUse(history, m, p) <==> Longest(SamplesOf(history), m, p)
  {
    UnbrokenAgrees(history, m, p);
    if m > 0 {
      UnbrokenAgrees(history, m - 1, p);
    }
  }

  lemma WindowAgrees(history: seq<Observed>, m: nat, p: Params)
    requires m <= |history|
    ensures WindowOf(history[m..], p) == p.WindowFor(AnyBlind(SamplesOf(history)[m..], p))
  {
    var part, samples := history[m..], SamplesOf(history)[m..];
    forall i | 0 <= i < |part| ensures samples[i] == SampleOf(part[i].reading, part[i].at) {
    }
    if o :| o in part && o.reading.requestsPerMinute.None? && p.quiet.Some? {
      var i :| 0 <= i < |part| && part[i] == o;
      assert samples[i] in samples && p.Blind(samples[i]);
    }
    if s :| s in samples && p.Blind(s) {
      var i :| 0 <= i < |samples| && samples[i] == s;
      assert part[i] in part && part[i].reading.requestsPerMinute.None?;
    }
  }

  /** The longest unbroken string of samples that ends a history begins at the mth and has lasted its window. */
  ghost predicate SamplesLast(samples: seq<Sample>, m: nat, p: Params)
  {
    Longest(samples, m, p) && samples[|samples| - 1].at - samples[m].at >= p.WindowFor(AnyBlind(samples[m..], p))
  }

  lemma LastsAgrees(history: seq<Observed>, m: nat, p: Params)
    ensures LastsFrom(history, m, p) <==> SamplesLast(SamplesOf(history), m, p)
  {
    LongestAgrees(history, m, p);
    if m < |history| {
      WindowAgrees(history, m, p);
    }
  }

  lemma SuspectedWhenSamplesLast(samples: seq<Sample>, p: Params)
    requires samples != []
    ensures Observe(After(samples[..|samples| - 1], p), samples[|samples| - 1], p).1 <==> exists m: nat :: SamplesLast(samples, m, p)
  {
    SuspectedWhenTheWindowHasLasted(samples, p);
    if m: nat :| SamplesLast(samples, m, p) {
      assert 0 <= m < |samples| && Longest(samples, m, p);
    }
    if m :| 0 <= m < |samples| && Longest(samples, m, p) && samples[|samples| - 1].at - samples[m].at >= p.WindowFor(AnyBlind(samples[m..], p)) {
      assert SamplesLast(samples, m, p);
    }
  }

  /** What the stored run of a history comes to with one more reading. */
  lemma ObservedOnce(history: seq<Observed>, o: Observed, p: Params)
    ensures
      var longer, sample := history + [o], SampleOf(o.reading, o.at);
      && After(SamplesOf(longer), p) == Observe(After(SamplesOf(history), p), sample, p).0
      && (Observe(After(SamplesOf(history), p), sample, p).1 <==> UseLasted(longer, p))
  {
    var longer := history + [o];
    var samples := SamplesOf(longer);
    assert samples[..|history|] == SamplesOf(history);
    SuspectedWhenSamplesLast(samples, p);
    forall m: nat ensures LastsFrom(longer, m, p) <==> SamplesLast(samples, m, p) {
      LastsAgrees(longer, m, p);
    }
  }

  /** The evidence of a use that has lasted: when it began, and how many readings it has. */
  lemma EvidenceOfUse(history: seq<Observed>, p: Params) returns (m: nat)
    requires UseLasted(history, p)
    ensures LastsFrom(history, m, p) && After(SamplesOf(history), p).Some?
    ensures
      var run := After(SamplesOf(history), p).value;
      run.since == history[m].at && run.samples == |history| - m
  {
    var k: nat :| LastsFrom(history, k, p);
    var samples := SamplesOf(history);
    LongestAgrees(history, k, p);
    assert Counts(samples[|samples| - 1], p);
    var _ := RunIsTheLongestUnbroken(samples, p);
    m := EvidenceOfRun(samples, p);
    OnlyOneIsLongest(samples, m, k, p);
  }

  // ----- the readings a stored run stands for

  /** Whether a service is among the targets. */
  ghost predicate IsTarget(targets: seq<Target>, name: string)
  {
    exists k :: 0 <= k < |targets| && targets[k].name == name
  }

  ghost predicate IsRead(input: Input, name: string)
  {
    name in input.measured && input.measured[name].Some?
  }

  ghost function ReadingOf(input: Input, name: string): Observed
    requires IsRead(input, name)
  {
    Observed(input.now, input.measured[name].value)
  }

  /**
   * The readings of a service that its stored run stands for, after one more sample that read the present runs: none once
   * its suspicion was recorded or it stopped being a target, one more when it was measured, and the same when the sample
   * did not get to write.
   */
  ghost function NextLog(w: World, input: Input, name: string, log: seq<Observed>, p: Params): seq<Observed>
  {
    if input.settings != Some(Some(p)) || !input.stateReadable || input.targets.None? || input.store.Refused? then log
    else if input.targets.value == [] then []
    else if !input.cpuAnswers || exists k :: 0 <= k < |input.targets.value| && !IsRead(input, input.targets.value[k].name) then log
    else if !IsTarget(input.targets.value, name) || !IsRead(input, name) then []
    else if UseLasted(log + [ReadingOf(input, name)], p) && RecordingOf(input, name).Recorded? then []
    else log + [ReadingOf(input, name)]
  }

  /** A sample at which the service's run is not cut for want of room. */
  ghost predicate HasRoom(w: World, input: Input, name: string)
  {
    input.settings.Some? && input.settings.value.Some? && input.targets.Some? ==>
      var runs := WalkOf(w, input).runs;
      name in runs ==> |Earlier(runs, name)| < MAX_RUNS
  }

  /** A sample with settings that do not change, if they can be read, on targets that are told apart. */
  ghost predicate Steady(input: Input, p: Params)
  {
    (input.settings.Some? ==> input.settings == Some(Some(p))) && (input.targets.Some? ==> Distinct(input.targets.value))
  }

  lemma WalkedRun(w: World, input: Input, name: string, log: seq<Observed>, p: Params)
    requires input.settings == Some(Some(p)) && input.targets.Some? && input.targets.value != [] && Distinct(input.targets.value)
    requires !WalkOf(w, input).aborted && RunOf(StoredRuns(w.state), name) == After(SamplesOf(log), p)
    requires input.stateReadable && !input.store.Refused? && input.cpuAnswers
    ensures RunOf(WalkOf(w, input).runs, name) == After(SamplesOf(NextLog(w, input, name, log, p)), p)
  {
    var targets, stored := input.targets.value, StoredRuns(w.state);
    AbortedExactlyWhen(w.services, stored, targets, p, input);
    assert After(SamplesOf([]), p) == None;
    if IsTarget(targets, name) {
      var k :| 0 <= k < |targets| && targets[k].name == name;
      WalkOfTarget(w.services, stored, targets, k, p, input);
      ObservedOnce(log, ReadingOf(input, name), p);
    } else {
      WalkLeavesOthers(w.services, stored, targets, name, p, input);
    }
  }

  /** One sample: if the stored run stood for the service's readings before, it does after. */
  lemma SampleFolds(w: World, input: Input, name: string, log: seq<Observed>, p: Params)
    requires Plausible(StoredRuns(w.state)) && Steady(input, p) && HasRoom(w, input, name)
    requires RunOf(StoredRuns(w.state), name) == After(SamplesOf(log), p)
    ensures RunOf(StoredRuns(AfterSample(w, input).state), name) == After(SamplesOf(NextLog(w, input, name, log, p)), p)
  {
    var stored := StoredRuns(w.state);
    assert After(SamplesOf([]), p) == None;
    if input.settings.Some? && input.stateReadable && input.targets.Some? {
      AbortedExactlyWhen(w.services, stored, input.targets.value, p, input);
      if input.targets.value == [] {
        StoresOrKeeps(w.state, map[], input.store);
      } else if !input.cpuAnswers {
        FewRunsAreAllKept(stored);
        StoresOrKeeps(w.state, stored, input.store);
      } else if !WalkOf(w, input).aborted {
        StoresOrKeeps(w.state, WalkOf(w, input).runs, input.store);
        if !input.store.Refused? {
          WalkedRun(w, input, name, log, p);
        }
      }
    }
  }

  /** A walk over the targets is cut short exactly when one of them could not be measured. */
  lemma {:induction false} AbortedExactlyWhen(services: map<string, Option<Suspect>>, stored: Runs, targets: seq<Target>, p: Params, input: Input)
    ensures WalkTargets(services, stored, targets, p, input).aborted <==> exists k :: 0 <= k < |targets| && !IsRead(input, targets[k].name)
    decreases |targets|
  {
    if targets != [] {
      var n := |targets| - 1;
      var front := targets[..n];
      AbortedExactlyWhen(services, stored, front, p, input);
      if k :| 0 <= k < |targets| && !IsRead(input, targets[k].name) {
        assert k < n ==> front[k] == targets[k];
      }
      if k :| 0 <= k < |front| && !IsRead(input, front[k].name) {
        assert targets[k] == front[k];
      }
    }
  }

  /** The readings a service's stored run stands for after the first n samples of a run. */
  ghost function Log(worlds: seq<World>, inputs: seq<Input>, n: nat, name: string, p: Params): seq<Observed>
    requires IsRun(worlds, inputs) && n <= |inputs|
  {
    if n == 0 then []
    else
      var log := Log(worlds, inputs, n - 1, name, p);
      assert Follows(worlds, inputs, n - 1);
      if ReadThePresent(worlds, inputs, n - 1) then NextLog(worlds[n - 1], inputs[n - 1], name, log, p) else log
  }

  ghost predicate SteadyAt(worlds: seq<World>, inputs: seq<Input>, i: nat, name: string, p: Params)
    requires |worlds| == |inputs| + 1 && i < |inputs|
  {
    Steady(inputs[i], p) && HasRoom(worlds[i], inputs[i], name)
  }

  /**
   * Over any run of samples of any operators, with settings that stay, from a state without the service's run: while it is
   * not cut for want of room, its stored run is the fold of exactly its readings since it was last dropped.
   */
  lemma {:induction false} StoredRunIsTheFold(worlds: seq<World>, inputs: seq<Input>, n: nat, name: string, p: Params)
    requires IsRun(worlds, inputs) && n <= |inputs| && Plausible(StoredRuns(worlds[0].state)) && name !in StoredRuns(worlds[0].state)
    requires forall i :: 0 <= i < n ==> SteadyAt(worlds, inputs, i, name, p)
    ensures RunOf(StoredRuns(worlds[n].state), name) == After(SamplesOf(Log(worlds, inputs, n, name, p)), p)
    decreases n
  {
    if n > 0 {
      StoredRunIsTheFold(worlds, inputs, n - 1, name, p);
      StoredRunsStayPlausible(worlds, inputs, n - 1);
      assert SteadyAt(worlds, inputs, n - 1, name, p);
      SamplesDoNotInterleave(worlds, inputs, n - 1);
      if ReadThePresent(worlds, inputs, n - 1) {
        SampleFolds(worlds[n - 1], inputs[n - 1], name, Log(worlds, inputs, n - 1, name, p), p);
      }
    } else {
      assert SamplesOf([]) == [];
    }
  }

  // ----- when a finding is made

  /** A sample that reads the settings, the runs and the use, and measures all its targets. */
  ghost predicate WalksAll(input: Input, p: Params)
  {
    && input.settings == Some(Some(p)) && input.stateReadable && input.targets.Some? && input.cpuAnswers && Distinct(input.targets.value)
    && forall k :: 0 <= k < |input.targets.value| ==> IsRead(input, input.targets.value[k].name)
  }

  /** The suspicion that a history of a target's readings calls for: if its use has lasted and the write is carried out, one that says since when. */
  ghost predicate CalledFor(history: seq<Observed>, target: Target, input: Input, p: Params, suspect: Option<Suspect>)
  {
    if UseLasted(history, p) && RecordingOf(input, target.name) != NotRecorded then
      exists m: nat :: LastsFrom(history, m, p) && suspect == Some(Suspect("cpu", history[m].at, input.now, |history| - m, target.suspends))
    else suspect == None
  }

  /** What a sample that measures all its targets leaves on a target without a suspicion. */
  lemma SuspectAfter(w: World, read: Store<Runs>, input: Input, k: nat, p: Params)
    requires WalksAll(input, p) && k < |input.targets.value|
    requires input.targets.value[k].name in w.services && w.services[input.targets.value[k].name].None?
    ensures
      var target, after := input.targets.value[k], SampleFrom(w, read, input).services;
      var (next, suspected) := Observe(RunOf(StoredRuns(read), target.name), SampleOf(input.measured[target.name].value, input.now), p);
      && target.name in after
      && after[target.name] == if suspected && next.Some? && RecordingOf(input, target.name) != NotRecorded then Some(SuspectFor(target, next.value, input.now)) else None
  {
    AbortedExactlyWhen(w.services, StoredRuns(read), input.targets.value, p, input);
    WalkOfTarget(w.services, StoredRuns(read), input.targets.value, k, p, input);
  }

  lemma CalledByObserve(log: seq<Observed>, o: Observed, target: Target, input: Input, p: Params, suspect: Option<Suspect>)
    requires o.at == input.now
    requires
      var (next, suspected) := Observe(After(SamplesOf(log), p), SampleOf(o.reading, o.at), p);
      suspect == if suspected && next.Some? && RecordingOf(input, target.name) != NotRecorded then Some(SuspectFor(target, next.value, input.now)) else None
    ensures CalledFor(log + [o], target, input, p, suspect)
  {
    ObservedOnce(log, o, p);
    CalledByRun(log + [o], target, input, p, After(SamplesOf(log + [o]), p), suspect);
  }

  lemma CalledByRun(history: seq<Observed>, target: Target, input: Input, p: Params, run: Option<Run>, suspect: Option<Suspect>)
    requires run == After(SamplesOf(history), p)
    requires suspect ==
             if UseLasted(history, p) && run.Some? && RecordingOf(input, target.name) != NotRecorded
             then Some(SuspectFor(target, run.value, input.now)) else None
    ensures CalledFor(history, target, input, p, suspect)
  {
    if UseLasted(history, p) {
      var m := EvidenceOfUse(history, p);
    }
  }

  lemma SuspectedByItsReadings(w: World, read: Store<Runs>, input: Input, k: nat, log: seq<Observed>, p: Params)
    requires WalksAll(input, p) && k < |input.targets.value|
    requires
      var name := input.targets.value[k].name;
      RunOf(StoredRuns(read), name) == After(SamplesOf(log), p) && name in w.services && w.services[name].None?
    ensures
      var target, after := input.targets.value[k], SampleFrom(w, read, input).services;
      target.name in after && CalledFor(log + [ReadingOf(input, target.name)], target, input, p, after[target.name])
  {
    var target := input.targets.value[k];
    SuspectAfter(w, read, input, k, p);
    CalledByObserve(log, ReadingOf(input, target.name), target, input, p, SampleFrom(w, read, input).services[target.name]);
  }

  /**
   * When a finding is made: a sample that measures all its targets leaves a suspicion on a target that had none if and only if
   * the longest unbroken use that ends with this reading of it has lasted its window and the write is carried out; and the
   * suspicion says when that use began and how many readings it has.
   */
  lemma SuspectedExactlyWhen(worlds: seq<World>, inputs: seq<Input>, n: nat, k: nat, p: Params)
    requires IsRun(worlds, inputs) && n < |inputs| && Plausible(StoredRuns(worlds[0].state)) && inputs[n].readAt <= n
    requires WalksAll(inputs[n], p) && k < |inputs[n].targets.value|
    requires
      var name := inputs[n].targets.value[k].name;
      && name !in StoredRuns(worlds[0].state) && name in worlds[n].services && worlds[n].services[name].None?
      && forall i :: 0 <= i < inputs[n].readAt ==> SteadyAt(worlds, inputs, i, name, p)
    ensures
      var target, input := inputs[n].targets.value[k], inputs[n];
      && target.name in worlds[n + 1].services
      && var history := Log(worlds, inputs, input.readAt, target.name, p) + [ReadingOf(input, target.name)];
         CalledFor(history, target, input, p, worlds[n + 1].services[target.name])
  {
    var name, input := inputs[n].targets.value[k].name, inputs[n];
    StoredRunIsTheFold(worlds, inputs, input.readAt, name, p);
    SuspectedByItsReadings(worlds[n], worlds[input.readAt].state, input, k, Log(worlds, inputs, input.readAt, name, p), p);
    assert Follows(worlds, inputs, n);
  }

  // ----- what a sample answers

  /**
   * A sample on the present runs answers without an error if and only if everything it asked for was answered: the settings,
   * the runs, the targets, what each uses once the metrics answer at all, and the write. Metrics that do not answer and
   * suspicions that cannot be recorded are no error.
   */
  lemma AnswersExactlyWhen(w: World, input: Input)
    requires input.settings.Some? ==> input.settings.value.Some?
    ensures Answers(w, w.state, input) <==>
            && input.settings.Some? && input.stateReadable && input.targets.Some? && input.store.Delivered?
            && (input.cpuAnswers ==> forall k :: 0 <= k < |input.targets.value| ==> IsRead(input, input.targets.value[k].name))
  {
    if input.settings.Some? && input.targets.Some? {
      AbortedExactlyWhen(w.services, StoredRuns(w.state), input.targets.value, input.settings.value.value, input);
    }
  }

  /** With the setting taken away, a sample deletes the stored runs, touches no service, and has an error only if the delete does. */
  lemma TurnedOffForgets(w: World, read: Store<Runs>, input: Input)
    requires input.settings == Some(None) && input.store != Refused(NotFound)
    ensures
      var after := SampleFrom(w, read, input);
      && after.services == w.services
      && (Answers(w, read, input) <==> w.state.current.None? || input.store.Delivered?)
      && (Answers(w, read, input) ==> after.state.current.None?)
  {
  }
}
