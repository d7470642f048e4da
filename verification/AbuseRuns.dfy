/**
 * Runs of abuse samples, by any number of operators: suspicions are never rewritten, samples never interleave, what is
 * stored and goes on is never lost, and what may be left out.
 */
module AbuseRuns {
  import opened Wrappers
  import opened ApiServer
  import opened AbuseWindow
  import opened AbuseDetector

  // ----- suspicions are never rewritten

  lemma {:induction false} WalkKeepsSuspicions(services: map<string, Option<Suspect>>, stored: Runs, targets: seq<Target>, p: Params, input: Input)
    ensures
      var walk := WalkTargets(services, stored, targets, p, input);
      && walk.services.Keys == services.Keys
      && (forall n :: n in services && services[n].Some? ==> walk.services[n] == services[n])
    decreases |targets|
  {
    if targets != [] {
      WalkKeepsSuspicions(services, stored, targets[..|targets| - 1], p, input);
    }
  }

  ghost predicate IsRun(worlds: seq<World>, inputs: seq<Input>)
  {
    && |worlds| == |inputs| + 1
    && worlds[0].state.Valid()
    && forall i :: 0 <= i < |inputs| ==> Follows(worlds, inputs, i)
  }

  /** Samples of any number of operators in turn, each recorded where it writes. */
  ghost predicate Follows(worlds: seq<World>, inputs: seq<Input>, i: nat)
    requires |worlds| == |inputs| + 1 && i < |inputs|
  {
    inputs[i].readAt <= i && worlds[i + 1] == SampleFrom(worlds[i], worlds[inputs[i].readAt].state, inputs[i])
  }

  lemma StepKeepsSuspicions(w: World, read: Store<Runs>, input: Input, name: string)
    requires name in w.services && w.services[name].Some?
    ensures
      var after := SampleFrom(w, read, input);
      after.services.Keys == w.services.Keys && after.services[name] == w.services[name]
  {
    if input.targets.Some? && input.settings.Some? && input.settings.value.Some? {
      WalkKeepsSuspicions(w.services, StoredRuns(read), input.targets.value, input.settings.value.value, input);
    }
  }

  /** However many samples are taken, by whom, and whatever fails, a service that carries a suspicion keeps it as it is. */
  lemma {:induction false} SuspicionsAreNeverRewritten(worlds: seq<World>, inputs: seq<Input>, i: nat, n: nat, name: string)
    requires IsRun(worlds, inputs) && i <= n <= |inputs|
    requires name in worlds[i].services && worlds[i].services[name].Some?
    ensures worlds[n].services.Keys == worlds[i].services.Keys && worlds[n].services[name] == worlds[i].services[name]
    decreases n
  {
    if i < n {
      SuspicionsAreNeverRewritten(worlds, inputs, i, n - 1, name);
      assert Follows(worlds, inputs, n - 1);
      StepKeepsSuspicions(worlds[n - 1], worlds[inputs[n - 1].readAt].state, inputs[n - 1], name);
    }
  }

  // ----- operators that race

  /** A sample that read the stored runs as they are when it writes. */
  function AfterSample(w: World, input: Input): World
  {
    SampleFrom(w, w.state, input)
  }

  lemma SampleEvolves(w: World, read: Store<Runs>, input: Input)
    requires w.state.Valid()
    ensures Evolves(w.state, SampleFrom(w, read, input).state)
  {
  }

  ghost function States(worlds: seq<World>): (stores: seq<Store<Runs>>)
    ensures |stores| == |worlds|
  {
    seq(|worlds|, i requires 0 <= i < |worlds| => worlds[i].state)
  }

  lemma StepEvolves(worlds: seq<World>, inputs: seq<Input>, i: nat)
    requires IsRun(worlds, inputs) && i < |inputs| && worlds[i].state.Valid()
    ensures Evolves(worlds[i].state, worlds[i + 1].state)
  {
    assert Follows(worlds, inputs, i);
    SampleEvolves(worlds[i], worlds[inputs[i].readAt].state, inputs[i]);
  }

  lemma {:induction false} RunIsHistory(worlds: seq<World>, inputs: seq<Input>, n: nat)
    requires IsRun(worlds, inputs) && n <= |inputs|
    ensures History(States(worlds[..n + 1]))
    decreases n
  {
    if n > 0 {
      RunIsHistory(worlds, inputs, n - 1);
      var states := States(worlds[..n]);
      assert states[n - 1].Valid();
      StepEvolves(worlds, inputs, n - 1);
      HistoryGrows(states, worlds[n].state);
      assert States(worlds[..n + 1]) == states + [worlds[n].state];
    }
  }

  /** The stored runs that a sample read are still the stored ones. */
  ghost predicate ReadThePresent(worlds: seq<World>, inputs: seq<Input>, i: nat)
    requires |worlds| == |inputs| + 1 && i < |inputs| && inputs[i].readAt <= i
  {
    worlds[inputs[i].readAt].state.current == worlds[i].state.current
  }

  lemma LostRaceWritesNothing(w: World, read: Store<Runs>, input: Input)
    requires input.settings.Some? ==> input.settings.value.Some?
    requires read.current != w.state.current
    requires read.current.Some? && w.state.current.Some? ==> read.current.value.version != w.state.current.value.version
    ensures SampleFrom(w, read, input).state == w.state && !Answers(w, read, input)
  {
  }

  /**
   * Operators never interleave their samples: in every run, a sample whose runs another operator has written since leaves
   * those whole and answers an error, and any other comes to what it would with nobody else there.
   */
  lemma SamplesDoNotInterleave(worlds: seq<World>, inputs: seq<Input>, i: nat)
    requires IsRun(worlds, inputs) && i < |inputs|
    requires inputs[i].settings.Some? ==> inputs[i].settings.value.Some?
    ensures inputs[i].readAt <= i
    ensures if ReadThePresent(worlds, inputs, i) then worlds[i + 1] == AfterSample(worlds[i], inputs[i])
            else worlds[i + 1].state == worlds[i].state && !Answers(worlds[i], worlds[inputs[i].readAt].state, inputs[i])
  {
    assert Follows(worlds, inputs, i);
    RunIsHistory(worlds, inputs, i);
    var states, k := States(worlds[..i + 1]), inputs[i].readAt;
    assert states[k] == worlds[k].state && states[i] == worlds[i].state;
    if !ReadThePresent(worlds, inputs, i) {
      if states[k].current.Some? && states[i].current.Some? && states[k].current.value.version == states[i].current.value.version {
        VersionNamesContent(states, k, i);
      }
      LostRaceWritesNothing(worlds[i], worlds[k].state, inputs[i]);
    }
  }

  // ----- findings are not lost

  ghost predicate Distinct(targets: seq<Target>)
  {
    forall i, j :: 0 <= i < j < |targets| ==> targets[i].name != targets[j].name
  }

  /** What one target comes to: its run, unless its suspicion was recorded, and the suspicion, if there was none and it was. */
  ghost predicate DealtWith(walk: Walk, services: map<string, Option<Suspect>>, stored: Runs, target: Target, p: Params, input: Input)
  {
    var name, measured := target.name, MeasuredOf(input, target.name);
    && measured.Some?
    && var (next, suspected) := Observe(RunOf(stored, name), measured.value, p);
       var recording := RecordingOf(input, name);
       && RunOf(walk.runs, name) == (if suspected && !Fails(recording) then None else next)
       && (name in services ==>
             && name in walk.services
             && walk.services[name] == if services[name].None? && suspected && !recording.NotRecorded? then Some(SuspectFor(target, next.value, input.now)) else services[name])
  }

  /** What is not a target is left alone. */
  ghost predicate LeftAlone(walk: Walk, services: map<string, Option<Suspect>>, name: string)
  {
    name !in walk.runs && (name in services ==> name in walk.services && walk.services[name] == services[name])
  }

  lemma WalkOneDeals(walk: Walk, services: map<string, Option<Suspect>>, stored: Runs, target: Target, p: Params, input: Input)
    requires LeftAlone(walk, services, target.name)
    ensures
      var after := WalkOne(walk, stored, target, p, input);
      !after.aborted && !walk.aborted ==> DealtWith(after, services, stored, target, p, input)
  {
  }

  lemma WalkOneLeavesOthers(walk: Walk, stored: Runs, target: Target, name: string, p: Params, input: Input)
    requires name != target.name
    ensures
      var after := WalkOne(walk, stored, target, p, input);
      && RunOf(after.runs, name) == RunOf(walk.runs, name)
      && (name in walk.services <==> name in after.services)
      && (name in walk.services ==> after.services[name] == walk.services[name])
  {
  }

  lemma {:induction false} WalkLeavesOthers(services: map<string, Option<Suspect>>, stored: Runs, targets: seq<Target>, name: string, p: Params, input: Input)
    requires forall k :: 0 <= k < |targets| ==> targets[k].name != name
    ensures LeftAlone(WalkTargets(services, stored, targets, p, input), services, name)
    decreases |targets|
  {
    if targets != [] {
      var n := |targets| - 1;
      WalkLeavesOthers(services, stored, targets[..n], name, p, input);
      var walk := WalkTargets(services, stored, targets[..n], p, input);
      WalkOneLeavesOthers(walk, stored, targets[n], name, p, input);
      assert name !in walk.runs;
    }
  }

  /** Each target of a sample that is not cut short is dealt with, whichever targets come before and after it. */
  lemma {:induction false} WalkOfTarget(services: map<string, Option<Suspect>>, stored: Runs, targets: seq<Target>, k: nat, p: Params, input: Input)
    requires Distinct(targets) && k < |targets|
    ensures
      var walk := WalkTargets(services, stored, targets, p, input);
      !walk.aborted ==> DealtWith(walk, services, stored, targets[k], p, input)
    decreases |targets|
  {
    var n := |targets| - 1;
    var walk := WalkTargets(services, stored, targets[..n], p, input);
    if !walk.aborted {
      if k < n {
        WalkOfTarget(services, stored, targets[..n], k, p, input);
        WalkOneLeavesOthers(walk, stored, targets[n], targets[k].name, p, input);
        StaysDealtWith(walk, WalkOne(walk, stored, targets[n], p, input), services, stored, targets[k], p, input);
      } else {
        WalkLeavesOthers(services, stored, targets[..n], targets[n].name, p, input);
        WalkOneDeals(walk, services, stored, targets[n], p, input);
      }
    }
  }

  lemma StaysDealtWith(
    walk: Walk, after: Walk, services: map<string, Option<Suspect>>, stored: Runs, target: Target, p: Params, input: Input)
    requires DealtWith(walk, services, stored, target, p, input)
    requires RunOf(after.runs, target.name) == RunOf(walk.runs, target.name)
    requires target.name in walk.services ==> target.name in after.services && after.services[target.name] == walk.services[target.name]
    ensures DealtWith(after, services, stored, target, p, input)
  {
  }

  /** A finding about a service, once a run that began at an instant has reached its window. */
  ghost predicate NotLost(w: World, name: string, since: int)
  {
    || name !in w.services
    || w.services[name].Some?
    || (name in StoredRuns(w.state) && StoredRuns(w.state)[name].since == since)
  }

  lemma ReachedRunsContinue(run: Option<Run>, sample: Sample, p: Params)
    requires p.window > 0 && (p.quiet.Some? ==> p.quiet.value.blindWindow > 0)
    requires Observe(run, sample, p).1
    ensures run.Some? && Observe(run, sample, p).0.Some? && Observe(run, sample, p).0.value.since == run.value.since
  {
  }

  // ----- what a sample stores

  /** Stored runs as samples write them: no more than are kept, and each begun before it was last seen. */
  ghost predicate Plausible(runs: Runs)
  {
    |runs| <= MAX_RUNS && Sequential(runs)
  }

  ghost predicate Sequential(runs: Runs)
  {
    forall n :: n in runs ==> runs[n].since <= runs[n].last
  }

  ghost predicate EndsAt(runs: Runs, now: int)
  {
    forall n :: n in runs ==> runs[n].since <= runs[n].last == now
  }

  /** Every run begins now or is a stored one carried on. */
  ghost predicate ComesFrom(runs: Runs, stored: Runs, now: int)
  {
    forall n :: n in runs ==> runs[n].since == now || (n in stored && runs[n].since == stored[n].since)
  }

  lemma ObservedRun(run: Option<Run>, sample: Sample, p: Params)
    ensures
      var next := Observe(run, sample, p).0;
      next.Some? ==>
        && next.value.last == sample.at
        && (next.value.since == sample.at || (run.Some? && run.value.last < sample.at && next.value.since == run.value.since))
  {
  }

  lemma WalkOneAdds(walk: Walk, stored: Runs, target: Target, p: Params, input: Input)
    ensures
      var after, measured := WalkOne(walk, stored, target, p, input).runs, MeasuredOf(input, target.name);
      || after == walk.runs
      || (measured.Some? && Observe(RunOf(stored, target.name), measured.value, p).0.Some?
          && after == walk.runs[target.name := Observe(RunOf(stored, target.name), measured.value, p).0.value])
  {
  }

  lemma {:induction false} WalkRunsComeFrom(services: map<string, Option<Suspect>>, stored: Runs, targets: seq<Target>, p: Params, input: Input)
    requires Sequential(stored)
    ensures
      var runs := WalkTargets(services, stored, targets, p, input).runs;
      ComesFrom(runs, stored, input.now) && EndsAt(runs, input.now)
    decreases |targets|
  {
    if targets != [] {
      var earlier, last := targets[..|targets| - 1], targets[|targets| - 1];
      WalkRunsComeFrom(services, stored, earlier, p, input);
      WalkOneAdds(WalkTargets(services, stored, earlier, p, input), stored, last, p, input);
      if MeasuredOf(input, last.name).Some? {
        ObservedRun(RunOf(stored, last.name), MeasuredOf(input, last.name).value, p);
      }
    }
  }

  /** A run that goes on is never cut: only runs that were stored with it can have begun before it. */
  lemma CarriedOnIsKept(runs: Runs, stored: Runs, now: int, name: string)
    requires ComesFrom(runs, stored, now) && |stored| <= MAX_RUNS
    requires name in runs && name in stored && runs[name].since == stored[name].since < now
    ensures name in Bounded(runs)
  {
    BeforeIsAnOrder(runs, name, name, name);
    forall other | other in Earlier(runs, name) ensures other in stored {
      assert runs[other].since <= runs[name].since;
    }
    SizeOfSubset(Earlier(runs, name), stored.Keys - {name});
  }

  lemma StoresOrKeeps(state: Store<Runs>, runs: Runs, fate: Fate)
    ensures
      var after := StoreState(state, state.current, runs, fate).0;
      if fate.Refused? then after == state else StoredRuns(after) == Bounded(runs)
  {
  }

  /** Whatever a sample meets, the stored runs stay as samples write them. */
  lemma SampleKeepsPlausible(w: World, input: Input)
    requires Plausible(StoredRuns(w.state))
    ensures Plausible(StoredRuns(AfterSample(w, input).state))
  {
    var stored := StoredRuns(w.state);
    AtMostMaxRuns(map[]);
    AtMostMaxRuns(stored);
    StoresOrKeeps(w.state, map[], input.store);
    StoresOrKeeps(w.state, stored, input.store);
    if input.settings.Some? && input.settings.value.Some? && input.targets.Some? {
      var p, targets := input.settings.value.value, input.targets.value;
      var runs := WalkTargets(w.services, stored, targets, p, input).runs;
      WalkRunsComeFrom(w.services, stored, targets, p, input);
      AtMostMaxRuns(runs);
      StoresOrKeeps(w.state, runs, input.store);
    }
  }

  /** So they do over any run of samples of any operators, and never more than MAX_RUNS are kept. */
  lemma {:induction false} StoredRunsStayPlausible(worlds: seq<World>, inputs: seq<Input>, n: nat)
    requires IsRun(worlds, inputs) && n <= |inputs| && Plausible(StoredRuns(worlds[0].state))
    ensures Plausible(StoredRuns(worlds[n].state))
    decreases n
  {
    if n > 0 {
      StoredRunsStayPlausible(worlds, inputs, n - 1);
      var input := inputs[n - 1];
      if input.settings.Some? && input.settings.value.None? {
        assert Follows(worlds, inputs, n - 1);
      } else {
        SamplesDoNotInterleave(worlds, inputs, n - 1);
        SampleKeepsPlausible(worlds[n - 1], input);
      }
    }
  }

  /** The cut takes exactly the runs that begin at this sample behind MAX_RUNS others: one that was stored and goes on stays. */
  lemma CutRunsBeginNow(w: World, input: Input, name: string)
    requires Plausible(StoredRuns(w.state)) && input.settings.Some? && input.settings.value.Some? && input.targets.Some?
    requires name in WalkTargets(w.services, StoredRuns(w.state), input.targets.value, input.settings.value.value, input).runs
    ensures
      var runs := WalkTargets(w.services, StoredRuns(w.state), input.targets.value, input.settings.value.value, input).runs;
      name !in Bounded(runs) <==> runs[name].since == input.now && |Earlier(runs, name)| >= MAX_RUNS
  {
    var stored, targets, p := StoredRuns(w.state), input.targets.value, input.settings.value.value;
    var runs := WalkTargets(w.services, stored, targets, p, input).runs;
    WalkRunsComeFrom(w.services, stored, targets, p, input);
    if runs[name].since < input.now {
      CarriedOnIsKept(runs, stored, input.now, name);
    }
  }

  // ----- no finding is lost

  /** Storing the runs of a sample keeps a run that was stored and goes on. */
  lemma StoringKeeps(state: Store<Runs>, runs: Runs, now: int, name: string, fate: Fate)
    requires ComesFrom(runs, StoredRuns(state), now) && |StoredRuns(state)| <= MAX_RUNS
    requires name in StoredRuns(state) && name in runs && runs[name].since == StoredRuns(state)[name].since < now
    ensures
      var after := StoredRuns(StoreState(state, state.current, runs, fate).0);
      name in after && after[name].since == StoredRuns(state)[name].since
  {
    StoresOrKeeps(state, runs, fate);
    CarriedOnIsKept(runs, StoredRuns(state), now, name);
  }

  /**
   * A sample that finds a run to have lasted its window either leaves the suspicion on the service, or leaves the run in
   * the stored state, whatever of metrics, measurements and writes failed and however many other runs there are.
   */
  lemma FindingIsRecordedOrKept(w: World, input: Input, k: nat)
    requires input.settings.Some? && input.settings.value.Some? && input.targets.Some?
    requires Distinct(input.targets.value) && k < |input.targets.value|
    requires input.settings.value.value.window > 0
    requires input.settings.value.value.quiet.Some? ==> input.settings.value.value.quiet.value.blindWindow > 0
    requires Plausible(StoredRuns(w.state))
    requires
      var name := input.targets.value[k].name;
      MeasuredOf(input, name).Some? && Observe(RunOf(StoredRuns(w.state), name), MeasuredOf(input, name).value, input.settings.value.value).1
    ensures
      var name := input.targets.value[k].name;
      name in StoredRuns(w.state) && NotLost(AfterSample(w, input), name, StoredRuns(w.state)[name].since)
  {
    var name, p, stored := input.targets.value[k].name, input.settings.value.value, StoredRuns(w.state);
    ReachedRunsContinue(RunOf(stored, name), MeasuredOf(input, name).value, p);
    KeptWhileItGoesOn(w, input, k);
  }

  /** A target whose stored run its sample carries on is not lost, whether the sample finds it to have lasted or not. */
  lemma KeptWhileItGoesOn(w: World, input: Input, k: nat)
    requires input.settings.Some? && input.settings.value.Some? && input.targets.Some?
    requires Distinct(input.targets.value) && k < |input.targets.value|
    requires Plausible(StoredRuns(w.state)) && input.targets.value[k].name in StoredRuns(w.state)
    requires
      var name := input.targets.value[k].name;
      MeasuredOf(input, name).Some? ==>
        && Counts(MeasuredOf(input, name).value, input.settings.value.value)
        && Continues(StoredRuns(w.state)[name], MeasuredOf(input, name).value)
    ensures NotLost(AfterSample(w, input), input.targets.value[k].name, StoredRuns(w.state)[input.targets.value[k].name].since)
  {
    var p, targets, stored := input.settings.value.value, input.targets.value, StoredRuns(w.state);
    var name := targets[k].name;
    var walk := WalkTargets(w.services, stored, targets, p, input);
    FewRunsAreAllKept(stored);
    StoresOrKeeps(w.state, stored, input.store);
    WalkOfTarget(w.services, stored, targets, k, p, input);
    WalkKeepsSuspicions(w.services, stored, targets, p, input);
    WalkRunsComeFrom(w.services, stored, targets, p, input);
    if MeasuredOf(input, name).Some? {
      ObserveThatCounts(RunOf(stored, name), MeasuredOf(input, name).value, p);
      var suspected := Observe(RunOf(stored, name), MeasuredOf(input, name).value, p).1;
      if !walk.aborted && (!suspected || Fails(RecordingOf(input, name))) {
        StoringKeeps(w.state, walk.runs, input.now, name, input.store);
      }
    }
  }

  /** A sample that does not break a service's run: it stays a target, and where it is measured it carries its run on. */
  ghost predicate GoesOn(w: World, input: Input, name: string)
  {
    && input.settings.Some? ==>
      && input.settings.value.Some?
      && (input.targets.Some? ==>
            && Distinct(input.targets.value)
            && ((name in w.services && w.services[name].Some?) || exists k :: 0 <= k < |input.targets.value| && input.targets.value[k].name == name)
            && (name in StoredRuns(w.state) && MeasuredOf(input, name).Some? ==>
                  && Counts(MeasuredOf(input, name).value, input.settings.value.value)
                  && Continues(StoredRuns(w.state)[name], MeasuredOf(input, name).value)))
  }

  lemma SampleKeepsWhatGoesOn(w: World, input: Input, name: string, since: int)
    requires NotLost(w, name, since) && GoesOn(w, input, name) && Plausible(StoredRuns(w.state))
    ensures NotLost(AfterSample(w, input), name, since)
  {
    if input.settings.Some? && input.targets.Some? && input.stateReadable {
      var targets := input.targets.value;
      WalkKeepsSuspicions(w.services, StoredRuns(w.state), targets, input.settings.value.value, input);
      if name in w.services && w.services[name].None? {
        var k :| 0 <= k < |targets| && targets[k].name == name;
        KeptWhileItGoesOn(w, input, k);
      }
    }
  }

  /** A sample that does not turn the signal off and, if it can write, does not break a service's run. */
  ghost predicate GoesOnAt(worlds: seq<World>, inputs: seq<Input>, i: nat, name: string)
    requires |worlds| == |inputs| + 1 && i < |inputs|
  {
    && (inputs[i].settings.Some? ==> inputs[i].settings.value.Some?)
    && inputs[i].readAt <= i
    && (ReadThePresent(worlds, inputs, i) ==> GoesOn(worlds[i], inputs[i], name))
  }

  /**
   * Over any run of samples, of any number of operators, in which a service stays a target and its use goes on, a run that
   * is stored is never lost, however many services there are: the service is suspected (or gone), or the run is in the
   * stored state with the instant it began.
   */
  lemma {:induction false} NothingIsLostOverARun(worlds: seq<World>, inputs: seq<Input>, m: nat, n: nat, name: string, since: int)
    requires IsRun(worlds, inputs) && m <= n <= |inputs|
    requires NotLost(worlds[m], name, since) && Plausible(StoredRuns(worlds[0].state))
    requires forall i :: m <= i < n ==> GoesOnAt(worlds, inputs, i, name)
    ensures NotLost(worlds[n], name, since)
    decreases n
  {
    if m < n {
      NothingIsLostOverARun(worlds, inputs, m, n - 1, name, since);
      StoredRunsStayPlausible(worlds, inputs, n - 1);
      assert GoesOnAt(worlds, inputs, n - 1, name);
      SamplesDoNotInterleave(worlds, inputs, n - 1);
      if ReadThePresent(worlds, inputs, n - 1) {
        SampleKeepsWhatGoesOn(worlds[n - 1], inputs[n - 1], name, since);
      } else {
        LostRaceLosesNothing(worlds, inputs, n - 1, name, since);
      }
    }
  }

  lemma LostRaceLosesNothing(worlds: seq<World>, inputs: seq<Input>, i: nat, name: string, since: int)
    requires IsRun(worlds, inputs) && i < |inputs| && NotLost(worlds[i], name, since) && worlds[i + 1].state == worlds[i].state
    ensures NotLost(worlds[i + 1], name, since)
  {
    assert Follows(worlds, inputs, i);
    var w, read, input := worlds[i], worlds[inputs[i].readAt].state, inputs[i];
    if input.targets.Some? && input.settings.Some? && input.settings.value.Some? {
      WalkKeepsSuspicions(w.services, StoredRuns(read), input.targets.value, input.settings.value.value, input);
    }
  }

  // ----- which uses are kept

  /** A sample that walks all its targets and whose write of the runs is carried out. */
  ghost predicate Completes(w: World, input: Input)
  {
    && input.settings.Some? && input.settings.value.Some? && input.stateReadable && input.targets.Some? && input.targets.value != []
    && input.cpuAnswers && !input.store.Refused? && Distinct(input.targets.value) && !WalkOf(w, input).aborted
  }

  ghost function WalkOf(w: World, input: Input): Walk
    requires input.settings.Some? && input.settings.value.Some? && input.targets.Some?
  {
    WalkTargets(w.services, StoredRuns(w.state), input.targets.value, input.settings.value.value, input)
  }

  /**
   * Which uses are kept: after a sample that completes, a target's run is stored if and only if the sample found it in use,
   * did not record its suspicion, and fewer than MAX_RUNS of the runs of the sample come before it.
   */
  lemma KeptExactlyWhen(w: World, input: Input, k: nat)
    requires Completes(w, input) && k < |input.targets.value|
    ensures
      var name, runs := input.targets.value[k].name, WalkOf(w, input).runs;
      && MeasuredOf(input, name).Some?
      && var (next, suspected) := Observe(RunOf(StoredRuns(w.state), name), MeasuredOf(input, name).value, input.settings.value.value);
         RunOf(StoredRuns(AfterSample(w, input).state), name) ==
         if next.Some? && !(suspected && !Fails(RecordingOf(input, name))) && name in runs && |Earlier(runs, name)| < MAX_RUNS then next else None
  {
    WalkOfTarget(w.services, StoredRuns(w.state), input.targets.value, k, input.settings.value.value, input);
    StoresOrKeeps(w.state, WalkOf(w, input).runs, input.store);
  }

  /**
   * A use that begins at a sample with fewer than MAX_RUNS runs before it, and goes on, is never lost after it: the whole
   * life of a use, from the sample that first stores it.
   */
  lemma UseIsKeptFromItsStart(worlds: seq<World>, inputs: seq<Input>, m: nat, n: nat, k: nat)
    requires IsRun(worlds, inputs) && m < n <= |inputs| && Plausible(StoredRuns(worlds[0].state))
    requires inputs[m].readAt <= m && ReadThePresent(worlds, inputs, m) && Completes(worlds[m], inputs[m]) && k < |inputs[m].targets.value|
    requires
      var name, runs := inputs[m].targets.value[k].name, WalkOf(worlds[m], inputs[m]).runs;
      && name in runs && |Earlier(runs, name)| < MAX_RUNS
      && forall i :: m < i < n ==> GoesOnAt(worlds, inputs, i, name)
    ensures
      var name, runs := inputs[m].targets.value[k].name, WalkOf(worlds[m], inputs[m]).runs;
      NotLost(worlds[n], name, runs[name].since)
  {
    var name, runs := inputs[m].targets.value[k].name, WalkOf(worlds[m], inputs[m]).runs;
    SamplesDoNotInterleave(worlds, inputs, m);
    StoresOrKeeps(worlds[m].state, runs, inputs[m].store);
    NothingIsLostOverARun(worlds, inputs, m + 1, n, name, runs[name].since);
  }

  // ----- uses that are crowded out

  /** As many stored runs as are kept go on, every one in use again and none of their suspicions recorded. */
  ghost predicate Crowded(w: World, input: Input)
  {
    && Plausible(StoredRuns(w.state)) && |StoredRuns(w.state)| == MAX_RUNS
    && input.settings.Some? && input.settings.value.Some? && input.targets.Some? && Distinct(input.targets.value)
    && input.settings.value.value.window > 0
    && (input.settings.value.value.quiet.Some? ==> input.settings.value.value.quiet.value.blindWindow > 0)
    && !WalkOf(w, input).aborted
    && forall name :: name in StoredRuns(w.state) ==> InCrowd(w, input, name)
  }

  ghost predicate InCrowd(w: World, input: Input, name: string)
    requires name in StoredRuns(w.state) && input.settings.Some? && input.settings.value.Some? && input.targets.Some?
  {
    && (exists k :: 0 <= k < |input.targets.value| && input.targets.value[k].name == name)
    && MeasuredOf(input, name).Some? && Fails(RecordingOf(input, name))
    && Counts(MeasuredOf(input, name).value, input.settings.value.value)
    && Continues(StoredRuns(w.state)[name], MeasuredOf(input, name).value)
  }

  lemma CrowdStays(w: World, input: Input, name: string)
    requires Crowded(w, input) && name in StoredRuns(w.state)
    ensures
      var runs := WalkOf(w, input).runs;
      name in runs && runs[name].since == StoredRuns(w.state)[name].since < input.now
  {
    assert InCrowd(w, input, name);
    var k :| 0 <= k < |input.targets.value| && input.targets.value[k].name == name;
    WalkOfTarget(w.services, StoredRuns(w.state), input.targets.value, k, input.settings.value.value, input);
    ObserveThatCounts(RunOf(StoredRuns(w.state), name), MeasuredOf(input, name).value, input.settings.value.value);
  }

  /** Behind a crowd, a run that was not stored is cut, and the stored names stay the same. */
  lemma CrowdIsKept(w: World, input: Input)
    requires Crowded(w, input)
    ensures Bounded(WalkOf(w, input).runs).Keys == StoredRuns(w.state).Keys
  {
    var stored, runs := StoredRuns(w.state), WalkOf(w, input).runs;
    WalkRunsComeFrom(w.services, stored, input.targets.value, input.settings.value.value, input);
    forall name | name in stored ensures name in Bounded(runs) {
      CrowdStays(w, input, name);
      CarriedOnIsKept(runs, stored, input.now, name);
    }
    forall name | name in runs && name !in stored ensures name !in Bounded(runs) {
      forall other | other in stored ensures other in Earlier(runs, name) {
        CrowdStays(w, input, other);
      }
      SizeOfSubset(stored.Keys, Earlier(runs, name));
    }
  }

  /** A service whose run is not stored cannot be suspected: its run begins now. */
  lemma NewcomersAreNotSuspected(w: World, input: Input, name: string)
    requires Crowded(w, input) && name in w.services && name !in StoredRuns(w.state)
    ensures name in WalkOf(w, input).services && WalkOf(w, input).services[name] == w.services[name]
  {
    var targets, p, stored := input.targets.value, input.settings.value.value, StoredRuns(w.state);
    if k :| 0 <= k < |targets| && targets[k].name == name {
      WalkOfTarget(w.services, stored, targets, k, p, input);
      assert RunOf(stored, name) == None;
      if Counts(MeasuredOf(input, name).value, p) {
        ObserveThatCounts(None, MeasuredOf(input, name).value, p);
      }
    } else {
      WalkLeavesOthers(w.services, stored, targets, name, p, input);
    }
  }

  lemma CrowdedSample(w: World, input: Input)
    requires Crowded(w, input)
    ensures StoredRuns(AfterSample(w, input).state).Keys == StoredRuns(w.state).Keys
    ensures forall name :: name in w.services && name !in StoredRuns(w.state) ==>
              name in AfterSample(w, input).services && AfterSample(w, input).services[name] == w.services[name]
  {
    var stored := StoredRuns(w.state);
    CrowdIsKept(w, input);
    FewRunsAreAllKept(stored);
    StoresOrKeeps(w.state, stored, input.store);
    StoresOrKeeps(w.state, WalkOf(w, input).runs, input.store);
    forall name | name in w.services && name !in stored
      ensures name in AfterSample(w, input).services && AfterSample(w, input).services[name] == w.services[name]
    {
      NewcomersAreNotSuspected(w, input, name);
    }
    assert input.targets.value != [] by {
      assert stored.Keys != {};
      var name :| name in stored;
      assert InCrowd(w, input, name);
    }
  }

  ghost predicate CrowdedAt(worlds: seq<World>, inputs: seq<Input>, i: nat)
    requires |worlds| == |inputs| + 1 && i < |inputs|
  {
    inputs[i].readAt == i && Crowded(worlds[i], inputs[i])
  }

  /**
   * A use can be missed for good. While MAX_RUNS stored runs go on and none of their suspicions can be recorded, a service
   * beyond them is never stored and never suspected, though its use goes on and its own suspicion could be written.
   */
  lemma {:induction false} CrowdedOutForGood(worlds: seq<World>, inputs: seq<Input>, n: nat, name: string)
    requires IsRun(worlds, inputs) && n <= |inputs| && name in worlds[0].services && name !in StoredRuns(worlds[0].state)
    requires forall i :: 0 <= i < n ==> CrowdedAt(worlds, inputs, i)
    ensures name in worlds[n].services && worlds[n].services[name] == worlds[0].services[name]
    ensures StoredRuns(worlds[n].state).Keys == StoredRuns(worlds[0].state).Keys
    decreases n
  {
    if n > 0 {
      CrowdedOutForGood(worlds, inputs, n - 1, name);
      CrowdedStep(worlds, inputs, n - 1, name);
    }
  }

  lemma CrowdedStep(worlds: seq<World>, inputs: seq<Input>, i: nat, name: string)
    requires IsRun(worlds, inputs) && i < |inputs| && CrowdedAt(worlds, inputs, i)
    requires name in worlds[i].services && name !in StoredRuns(worlds[i].state)
    ensures name in worlds[i + 1].services && worlds[i + 1].services[name] == worlds[i].services[name]
    ensures StoredRuns(worlds[i + 1].state).Keys == StoredRuns(worlds[i].state).Keys
  {
    assert Follows(worlds, inputs, i);
    CrowdedSample(worlds[i], inputs[i]);
  }
}
