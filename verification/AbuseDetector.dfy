/**
 * Sampling services for abuse (internal/controller/abuse_detector.go, pkg/abuse/state.go): each sample adds to the runs
 * kept in one ConfigMap, and a run that has lasted its window becomes a suspicion on its service. Anything may fail.
 */
module AbuseDetector {
  import opened Wrappers
  import opened ApiServer
  import opened AbuseWindow
  import Text

  const MAX_RUNS := 2000

  /** A suspicion: what raised it, the evidence, and whether the service is suspended for it. */
  datatype Suspect = Suspect(source: string, since: int, detectedAt: int, samples: nat, suspended: bool)

  type Runs = map<string, Run>

  /** The services there are, each with the suspicion it carries, and the stored runs. */
  datatype World = World(services: map<string, Option<Suspect>>, state: Store<Runs>)

  datatype Target = Target(name: string, suspends: bool)

  /** How recording a suspicion goes: it is written, it is refused, or it is written and the answer is lost. */
  datatype Recording = Recorded | NotRecorded | RecordedUnanswered

  /** What one sample meets. None is an error. readAt is the moment of a run at which it read the stored runs. */
  datatype Input = Input(
    settings: Option<Option<Params>>, now: int, stateReadable: bool, targets: Option<seq<Target>>, cpuAnswers: bool,
    measured: map<string, Option<Reading>>, recording: map<string, Recording>, store: Fate, readAt: nat)

  // ----- the parts of a sample

  function SuspectFor(target: Target, run: Run, now: int): Suspect
  {
    Suspect("cpu", run.since, now, run.samples, target.suspends)
  }

  /** recordSuspect: the service gets the suspicion of the run if it has none, and nothing else changes; one that is gone has none to get. */
  function RecordSuspect(services: map<string, Option<Suspect>>, target: Target, run: Run, now: int, recording: Recording)
    : (after: map<string, Option<Suspect>>)
    ensures after.Keys == services.Keys
    ensures forall n :: n in services && (n != target.name || services[n].Some? || recording.NotRecorded?) ==> after[n] == services[n]
    ensures target.name in services && services[target.name].None? && !recording.NotRecorded? ==> after[target.name] == Some(SuspectFor(target, run, now))
  {
    if recording.NotRecorded? || target.name !in services || services[target.name].Some? then services
    else services[target.name := Some(SuspectFor(target, run, now))]
  }

  predicate Fails(recording: Recording)
  {
    !recording.Recorded?
  }

  function RecordingOf(input: Input, name: string): Recording
  {
    if name in input.recording then input.recording[name] else Recorded
  }

  /** The sample of a target: every one is taken at the instant of the sample. */
  function MeasuredOf(input: Input, name: string): (sample: Option<Sample>)
    ensures sample.Some? ==> sample.value.at == input.now
  {
    if name in input.measured && input.measured[name].Some? then Some(SampleOf(input.measured[name].value, input.now)) else None
  }

  function RunOf(runs: Runs, name: string): Option<Run>
  {
    if name in runs then Some(runs[name]) else None
  }

  /** Where the loop over the targets has got to. */
  datatype Walk = Walk(services: map<string, Option<Suspect>>, runs: Runs, aborted: bool)

  /** The loop over the targets: a measurement that fails ends the sample, a suspicion that cannot be recorded keeps its run. */
  function WalkTargets(services: map<string, Option<Suspect>>, stored: Runs, targets: seq<Target>, p: Params, input: Input): Walk
  {
    if targets == [] then Walk(services, map[], false)
    else
      var walk := WalkTargets(services, stored, targets[..|targets| - 1], p, input);
      if walk.aborted then walk else WalkOne(walk, stored, targets[|targets| - 1], p, input)
  }

  function WalkOne(walk: Walk, stored: Runs, target: Target, p: Params, input: Input): Walk
  {
    var measured := MeasuredOf(input, target.name);
    if measured.None? then walk.(aborted := true)
    else
      var (next, suspected) := Observe(RunOf(stored, target.name), measured.value, p);
      if suspected then
        var recording := RecordingOf(input, target.name);
        Walk(RecordSuspect(walk.services, target, next.value, input.now, recording),
             if Fails(recording) then walk.runs[target.name := next.value] else walk.runs, false)
      else if next.Some? then walk.(runs := walk.runs[target.name := next.value])
      else walk
  }

  /** The order runs are kept in: by when they began, then by name. */
  predicate Before(runs: Runs, a: string, b: string)
    requires a in runs && b in runs
  {
    runs[a].since < runs[b].since || (runs[a].since == runs[b].since && Text.Less(a, b))
  }

  function Earlier(runs: Runs, name: string): set<string>
    requires name in runs
  {
    set other | other in runs && Before(runs, other, name)
  }

  /** The runs that are stored: those with fewer than MAX_RUNS before them. */
  function Bounded(runs: Runs): Runs
  {
    map name | name in runs && |Earlier(runs, name)| < MAX_RUNS :: runs[name]
  }

  /** StoreState: the update carries the version of the runs that were read. */
  function StoreState(state: Store<Runs>, read: Option<Versioned<Runs>>, runs: Runs, fate: Fate): (Store<Runs>, Option<ApiError>)
  {
    if read.None? then state.Create(Bounded(runs), fate) else state.Update(read.value.version, Bounded(runs), fate)
  }

  function StoredRuns(state: Store<Runs>): Runs
  {
    if state.current.None? then map[] else state.current.value.value
  }

  /** One sample that read the stored runs, perhaps before another operator wrote them. */
  function SampleFrom(w: World, read: Store<Runs>, input: Input): World
  {
    if input.settings.None? then w
    else if input.settings.value.None? then w.(state := w.state.Delete(input.store).0)
    else if !input.stateReadable || input.targets.None? then w
    else if input.targets.value == [] then w.(state := StoreState(w.state, read.current, map[], input.store).0)
    else if !input.cpuAnswers then w.(state := StoreState(w.state, read.current, StoredRuns(read), input.store).0)
    else
      var walk := WalkTargets(w.services, StoredRuns(read), input.targets.value, input.settings.value.value, input);
      World(walk.services, if walk.aborted then w.state else StoreState(w.state, read.current, walk.runs, input.store).0)
  }

  /** Whether a sample gets to its end without an error. A suspicion that cannot be recorded is none. */
  function Answers(w: World, read: Store<Runs>, input: Input): bool
  {
    if input.settings.None? then false
    else if input.settings.value.None? then
      w.state.current.None? || w.state.Delete(input.store).1.None? || w.state.Delete(input.store).1 == Some(NotFound)
    else if !input.stateReadable || input.targets.None? then false
    else if input.targets.value == [] then StoreState(w.state, read.current, map[], input.store).1.None?
    else if !input.cpuAnswers then StoreState(w.state, read.current, StoredRuns(read), input.store).1.None?
    else
      var walk := WalkTargets(w.services, StoredRuns(read), input.targets.value, input.settings.value.value, input);
      !walk.aborted && StoreState(w.state, read.current, walk.runs, input.store).1.None?
  }

  /** The services of the cluster and the signal's state, which a sample changes. */
  class Detector {
    var services: map<string, Option<Suspect>>
    const state: Api<Runs>

    ghost function State(): World
      reads this, state
    {
      World(services, state.store)
    }

    constructor (services: map<string, Option<Suspect>>, state: Api<Runs>)
      ensures this.state == state && State() == World(services, state.store)
    {
      this.services := services;
      this.state := state;
    }

    method Store(read: Option<Versioned<Runs>>, runs: Runs, fate: Fate) returns (error: Option<ApiError>)
      modifies state
      ensures (state.store, error) == StoreState(old(state.store), read, runs, fate)
      ensures services == old(services)
    {
      var kept := KeepFirst(runs);
      if read.None? {
        error := state.Create(kept, fate);
      } else {
        error := state.Update(read.value.version, kept, fate);
      }
    }

    /** Sample. It answers whether it got to the end without an error. */
    method Sample(read: Store<Runs>, input: Input) returns (ok: bool)
      modifies this, state
      ensures State() == SampleFrom(old(State()), read, input)
      ensures ok == Answers(old(State()), read, input)
    {
      if input.settings.None? {
        return false;
      }
      if input.settings.value.None? {
        if state.store.current.None? {
          return true;
        }
        var error := state.Delete(input.store);
        return error.None? || error.value == NotFound;
      }
      if !input.stateReadable || input.targets.None? {
        return false;
      }
      var p, targets := input.settings.value.value, input.targets.value;
      var stored := StoredRuns(read);
      if targets == [] {
        var error := Store(read.current, map[], input.store);
        return error.None?;
      }
      if !input.cpuAnswers {
        var error := Store(read.current, stored, input.store);
        return error.None?;
      }
      var runs: Runs := map[];
      for i := 0 to |targets|
        invariant Walk(services, runs, false) == WalkTargets(old(services), stored, targets[..i], p, input)
        invariant state.store == old(state.store)
      {
        assert targets[..i + 1][..i] == targets[..i];
        var name := targets[i].name;
        var measured := MeasuredOf(input, name);
        if measured.None? {
          StaysAborted(old(services), stored, targets, i + 1, p, input);
          return false;
        }
        var (next, suspected) := Observe(RunOf(stored, name), measured.value, p);
        if suspected {
          services := RecordSuspect(services, targets[i], next.value, input.now, RecordingOf(input, name));
          if Fails(RecordingOf(input, name)) {
            runs := runs[name := next.value];
          }
        } else if next.Some? {
          runs := runs[name := next.value];
        }
      }
      assert targets[..|targets|] == targets;
      var error := Store(read.current, runs, input.store);
      return error.None?;
    }
  }

  lemma {:induction false} StaysAborted(services: map<string, Option<Suspect>>, stored: Runs, targets: seq<Target>, i: nat, p: Params, input: Input)
    requires i <= |targets| && WalkTargets(services, stored, targets[..i], p, input).aborted
    ensures WalkTargets(services, stored, targets, p, input) == WalkTargets(services, stored, targets[..i], p, input)
    decreases |targets|
  {
    if i < |targets| {
      var n := |targets| - 1;
      assert targets[..n][..i] == targets[..i];
      StaysAborted(services, stored, targets[..n], i, p, input);
    } else {
      assert targets[..i] == targets;
    }
  }

  // ----- the bound on what is stored

  lemma {:induction false} SizeOfSubset<T>(a: set<T>, b: set<T>)
    requires a <= b
    ensures |a| <= |b|
    decreases a
  {
    if a != {} {
      var x :| x in a;
      SizeOfSubset(a - {x}, b - {x});
    }
  }

  lemma BeforeIsAnOrder(runs: Runs, a: string, b: string, c: string)
    requires a in runs && b in runs && c in runs
    ensures !Before(runs, a, a) && (a == b || Before(runs, a, b) || Before(runs, b, a))
    ensures Before(runs, a, b) ==> !Before(runs, b, a)
    ensures Before(runs, a, b) && Before(runs, b, c) ==> Before(runs, a, c)
  {
    Text.LessIsTotal(a, a);
    Text.LessIsTotal(a, b);
    if Text.Less(a, b) && Text.Less(b, c) {
      Text.LessIsTransitive(a, b, c);
    }
  }

  lemma {:induction false} LastOf(runs: Runs, names: set<string>) returns (last: string)
    requires names <= runs.Keys && names != {}
    ensures last in names && forall n :: n in names && n != last ==> Before(runs, n, last)
    decreases names
  {
    last :| last in names;
    if names != {last} {
      var first := last;
      last := LastOf(runs, names - {first});
      BeforeIsAnOrder(runs, first, last, last);
      if Before(runs, last, first) {
        forall n | n in names && n != first ensures Before(runs, n, first) {
          BeforeIsAnOrder(runs, n, last, first);
        }
        last := first;
      }
    }
  }

  /** No more than MAX_RUNS runs are ever stored. */
  lemma AtMostMaxRuns(runs: Runs)
    ensures |Bounded(runs)| <= MAX_RUNS
  {
    var kept := Bounded(runs).Keys;
    if kept != {} {
      var last := LastOf(runs, kept);
      assert kept - {last} <= Earlier(runs, last);
      SizeOfSubset(kept - {last}, Earlier(runs, last));
    }
  }

  /** As many runs as are kept at all are all kept. */
  lemma FewRunsAreAllKept(runs: Runs)
    requires |runs| <= MAX_RUNS
    ensures Bounded(runs) == runs
  {
    forall name | name in runs ensures |Earlier(runs, name)| < MAX_RUNS {
      BeforeIsAnOrder(runs, name, name, name);
      SizeOfSubset(Earlier(runs, name), runs.Keys - {name});
    }
  }

  ghost predicate InOrder(runs: Runs, names: seq<string>)
  {
    && (forall n :: n in names ==> n in runs)
    && forall i, j :: 0 <= i < j < |names| ==> Before(runs, names[i], names[j])
  }

  method InsertInOrder(runs: Runs, names: seq<string>, name: string) returns (longer: seq<string>)
    requires InOrder(runs, names) && name in runs && name !in names
    ensures InOrder(runs, longer) && |longer| == |names| + 1
    ensures forall n :: n in longer <==> n == name || n in names
  {
    var i := 0;
    while i < |names| && Before(runs, names[i], name)
      invariant i <= |names|
      invariant forall j :: 0 <= j < i ==> Before(runs, names[j], name)
    {
      i := i + 1;
    }
    longer := names[..i] + [name] + names[i..];
    assert names == names[..i] + names[i..];
    InsertedInOrder(runs, names, name, i);
  }

  lemma InsertedInOrder(runs: Runs, names: seq<string>, name: string, i: nat)
    requires InOrder(runs, names) && name in runs && i <= |names|
    requires (forall j :: 0 <= j < i ==> Before(runs, names[j], name)) && (i < |names| ==> name != names[i] && !Before(runs, names[i], name))
    ensures InOrder(runs, names[..i] + [name] + names[i..])
  {
    var longer := names[..i] + [name] + names[i..];
    forall j | i <= j < |names| ensures Before(runs, name, names[j]) {
      BeforeIsAnOrder(runs, name, names[i], names[j]);
    }
    forall a | 0 <= a < |longer| ensures longer[a] in runs {
      assert longer[a] == name || longer[a] in names;
    }
    forall a, b | 0 <= a < b < |longer| ensures Before(runs, longer[a], longer[b]) {
      assert longer[a] == if a < i then names[a] else if a == i then name else names[a - 1];
      assert longer[b] == if b < i then names[b] else if b == i then name else names[b - 1];
    }
  }

  lemma EarlierIsTheFront(runs: Runs, names: seq<string>, i: nat)
    requires InOrder(runs, names) && (forall n :: n in runs ==> n in names) && i < |names|
    ensures Earlier(runs, names[i]) == Elements(names[..i])
  {
    forall n | n in runs ensures n in Earlier(runs, names[i]) <==> n in names[..i] {
      var k :| 0 <= k < |names| && names[k] == n;
      BeforeIsAnOrder(runs, n, names[i], n);
      assert k < i ==> names[..i][k] == n;
    }
  }

  ghost function Elements(names: seq<string>): set<string>
  {
    set n | n in names
  }

  lemma {:induction false} SizeOfElements(names: seq<string>)
    requires forall i, j :: 0 <= i < j < |names| ==> names[i] != names[j]
    ensures |Elements(names)| == |names|
  {
    if names != [] {
      var front, last := names[..|names| - 1], names[|names| - 1];
      SizeOfElements(front);
      assert last !in front;
      assert names == front + [last];
      assert Elements(names) == Elements(front) + {last};
    }
  }

  lemma FrontHasItsSize(runs: Runs, names: seq<string>, i: nat)
    requires InOrder(runs, names) && i <= |names|
    ensures |Elements(names[..i])| == i
  {
    forall j, k | 0 <= j < k < i ensures names[j] != names[k] {
      BeforeIsAnOrder(runs, names[j], names[j], names[j]);
      assert Before(runs, names[j], names[k]);
    }
    SizeOfElements(names[..i]);
  }

  /** In order, as many runs come before a name as its place says. */
  lemma PlaceCountsEarlier(runs: Runs, names: seq<string>, i: nat)
    requires InOrder(runs, names) && (forall n :: n in runs ==> n in names) && i < |names|
    ensures |Earlier(runs, names[i])| == i
  {
    EarlierIsTheFront(runs, names, i);
    FrontHasItsSize(runs, names, i);
  }

  /** bounded: the runs sorted by when they began, then by name, and cut. */
  method KeepFirst(runs: Runs) returns (kept: Runs)
    ensures kept == Bounded(runs) && |kept| == if |runs| <= MAX_RUNS then |runs| else MAX_RUNS
  {
    if |runs| <= MAX_RUNS {
      FewRunsAreAllKept(runs);
      return runs;
    }
    var names: seq<string> := [];
    var left := runs.Keys;
    while left != {}
      invariant left <= runs.Keys && InOrder(runs, names) && |names| + |left| == |runs|
      invariant forall n :: n in names <==> n in runs && n !in left
      decreases left
    {
      var name :| name in left;
      left := left - {name};
      names := InsertInOrder(runs, names, name);
    }
    kept := TakeRuns(runs, names, MAX_RUNS);
    CutIsBounded(runs, names, kept);
    FrontHasItsSize(runs, names, MAX_RUNS);
    assert kept.Keys == Elements(names[..MAX_RUNS]);
  }

  lemma CutIsBounded(runs: Runs, names: seq<string>, kept: Runs)
    requires InOrder(runs, names) && (forall n :: n in runs ==> n in names) && |names| >= MAX_RUNS
    requires (forall n :: n in kept <==> n in names[..MAX_RUNS]) && forall n :: n in kept ==> kept[n] == runs[n]
    ensures kept == Bounded(runs)
  {
    forall n | n in runs ensures n in kept <==> |Earlier(runs, n)| < MAX_RUNS {
      var k :| 0 <= k < |names| && names[k] == n;
      PlaceCountsEarlier(runs, names, k);
      assert k < MAX_RUNS ==> names[..MAX_RUNS][k] == n;
      if n in kept {
        var m :| 0 <= m < MAX_RUNS && names[..MAX_RUNS][m] == n;
        PlaceCountsEarlier(runs, names, m);
      }
    }
  }

  method TakeRuns(runs: Runs, names: seq<string>, count: nat) returns (kept: Runs)
    requires InOrder(runs, names) && |names| >= count
    ensures forall n :: n in kept <==> n in names[..count]
    ensures forall n :: n in kept ==> kept[n] == runs[n]
  {
    kept := map[];
    for k := 0 to count
      invariant forall n :: n in kept <==> n in names[..k]
      invariant forall n :: n in kept ==> kept[n] == runs[n]
    {
      assert names[..k + 1] == names[..k] + [names[k]];
      kept := kept[names[k] := runs[names[k]]];
    }
  }
}
