/**
 * Saying what the abuse detection decided (internal/controller/abuse.go): the annotations of a service become its
 * AbuseSuspected condition and an event for each change, and the project's condition. Instants are in nanoseconds.
 */
module AbuseReconciler {
  import opened Wrappers

  const SECOND := 1_000_000_000

  datatype Cause = SustainedCPU | Reported | Suspended

  datatype Reason = Suspected(cause: Cause) | Reviewed

  /** The condition: True with the suspicion's reason, or False with Reviewed. */
  datatype Condition = Condition(status: bool, reason: Reason, message: string)

  /** The suspicion a service carries, as it is read: one that cannot be read is a suspended one. */
  datatype Suspicion = Suspicion(cause: Cause, message: string)

  /** The review annotation: until when, or text that cannot be read. */
  datatype Review = Review(until: int, message: string) | Unreadable

  datatype Service = Service(
    project: string, deleting: bool, suspect: Option<Suspicion>, review: Option<Review>, condition: Option<Condition>)

  datatype Event = WarnSuspected(suspended: bool) | NoteReleased | NoteReviewed

  /** What becomes of a write: it lands, it is refused, or it lands and the answer is lost. */
  datatype Fate = Lands | Refused | Unanswered

  // ----- one service

  function ReadReview(service: Service): Option<Review>
  {
    match service.review
    case Some(Review(until, message)) => service.review
    case _ => None
  }

  predicate RunningReview(service: Service, now: int)
  {
    ReadReview(service).Some? && now < service.review.value.until
  }

  /** Whether a pass removes annotations: the setting is off, or the review has ended or cannot be read. */
  predicate ToClear(copy: Service, on: bool, now: int)
  {
    || (!on && (copy.suspect.Some? || copy.review.Some?))
    || (ReadReview(copy).Some? && copy.review.value.until <= now)
    || (copy.review.Some? && ReadReview(copy).None?)
  }

  function Cleared(service: Service, on: bool): Service
  {
    service.(suspect := if on then service.suspect else None, review := None)
  }

  /** The condition a service's annotations call for, None for no condition. */
  function Wanted(service: Service): Option<Condition>
  {
    if service.suspect.Some? then Some(Condition(true, Suspected(service.suspect.value.cause), service.suspect.value.message))
    else if ReadReview(service).Some? then Some(Condition(false, Reviewed, service.review.value.message))
    else None
  }

  /** announce: the event of a change from one condition to another. */
  function Announce(before: Option<Condition>, after: Option<Condition>): seq<Event>
  {
    var wasSuspected := before.Some? && before.value.status;
    if after.Some? && after.value.status && !wasSuspected then [WarnSuspected(after.value.reason == Suspected(Suspended))]
    else if after.Some? && after.value.status && before.value.reason == Suspected(Suspended) && after.value.reason != Suspected(Suspended) then [NoteReleased]
    else if wasSuspected && after.Some? && after.value.reason == Reviewed then [NoteReviewed]
    else []
  }

  /**
   * What a pass leaves of a service in the API server, the copy it then has in hand, the events it records, when the review it
   * reports ends, and whether it failed.
   */
  datatype Done = Done(service: Service, app: Service, events: seq<Event>, until: Option<int>, failed: bool)

  /**
   * reconcileService. stored is the service in the API server and copy the one the pass was given, which may be older.
   * Clearing reads the service afresh. The status is written only when the copy does not show the wanted condition already;
   * then the condition is set on the service as it is, because a refused version is read again.
   */
  function ReconcileService(stored: Service, copy: Service, on: bool, now: int, clear: Fate, patch: Fate): Done
  {
    var clearing := ToClear(copy, on, now);
    var latest := if clearing && !clear.Refused? then Cleared(stored, on) else stored;
    if clearing && !clear.Lands? then Done(latest, copy, [], None, true)
    else
      var app := if clearing then latest else copy;
      var wanted := Wanted(app);
      if app.condition.None? && wanted.None? then Done(latest, app, [], None, false)
      else
        var shown := app.condition == wanted;
        var written := if shown || patch.Refused? then latest else latest.(condition := wanted);
        if !shown && !patch.Lands? then Done(written, app, [], None, true)
        else Done(written, if shown then app else written, Announce(app.condition, wanted), if ReadReview(app).Some? then Some(app.review.value.until) else None, false)
  }

  /** A pass whose writes land. */
  function Landed(stored: Service, copy: Service, on: bool, now: int): Done
  {
    ReconcileService(stored, copy, on, now, Lands, Lands)
  }

  /** One whose copy is the service as it is, too. */
  function FreshPass(service: Service, on: bool, now: int): Done
  {
    Landed(service, service, on, now)
  }

  /** Doing it again at once changes nothing and says nothing. */
  lemma RepeatedPassIsSilent(service: Service, on: bool, now: int)
    ensures
      var first := FreshPass(service, on, now);
      var second := FreshPass(first.service, on, now);
      second.service == first.service && second.events == [] && second.until == first.until
  {
    if on {
      TurnedOnSaysWhatIsThere(service, now);
    } else {
      TurnedOffLeavesNothing(service, now);
    }
  }

  /** Turning the setting off removes both annotations and the condition, without an event. */
  lemma TurnedOffLeavesNothing(service: Service, now: int)
    ensures
      var done := FreshPass(service, false, now);
      && done.service == service.(suspect := None, review := None, condition := None)
      && done.events == [] && done.until.None? && !done.failed
  {
  }

  /** While it is on, a pass leaves the suspicion and a running review alone, and the condition says what they do. */
  lemma TurnedOnSaysWhatIsThere(service: Service, now: int)
    ensures
      var done := FreshPass(service, true, now);
      && done.service.suspect == service.suspect
      && done.service.review == (if RunningReview(service, now) then service.review else None)
      && done.service.condition ==
         (if service.suspect.Some? then Some(Condition(true, Suspected(service.suspect.value.cause), service.suspect.value.message))
          else if RunningReview(service, now) then Some(Condition(false, Reviewed, service.review.value.message)) else None)
      && done.until == (if RunningReview(service, now) then Some(service.review.value.until) else None)
  {
  }

  /**
   * Which event a pass records, by what the service carried: a warning when a suspicion is new, that says whether the service is
   * suspended for it; a note that it was released, when it stays suspected but is suspended no longer; a note that it was
   * reviewed, when a running review takes a suspicion's place; and none otherwise.
   */
  lemma EventsByWhatWasThere(service: Service, on: bool, now: int)
    ensures
      var events, wasTrue := FreshPass(service, on, now).events, service.condition.Some? && service.condition.value.status;
      var suspended := service.suspect.Some? && service.suspect.value.cause == Suspended;
      var wasSuspended := wasTrue && service.condition.value.reason == Suspected(Suspended);
      && (events == [WarnSuspected(true)] <==> on && suspended && !wasTrue)
      && (events == [WarnSuspected(false)] <==> on && service.suspect.Some? && !suspended && !wasTrue)
      && (events == [NoteReleased] <==> on && service.suspect.Some? && !suspended && wasSuspended)
      && (events == [NoteReviewed] <==> on && service.suspect.None? && RunningReview(service, now) && wasTrue)
      && (events == [] || |events| == 1)
  {
  }

  // ----- warnings over a run

  predicate True(condition: Option<Condition>)
  {
    condition.Some? && condition.value.status
  }

  function Warnings(events: seq<Event>): nat
  {
    if events == [] then 0
    else Warnings(events[..|events| - 1]) + if events[|events| - 1].WarnSuspected? then 1 else 0
  }

  /** One step of a service's life: a pass, or somebody else changing anything but the condition. */
  datatype Step = Pass(on: bool, now: int, clear: Fate, patch: Fate) | Edit(service: Service)

  function After(service: Service, step: Step): Done
  {
    match step
    case Pass(on, now, clear, patch) => ReconcileService(service, service, on, now, clear, patch)
    case Edit(edited) =>
      var after := edited.(condition := service.condition);
      Done(after, after, [], None, false)
  }

  function Life(service: Service, steps: seq<Step>): Service
  {
    if steps == [] then service else After(Life(service, steps[..|steps| - 1]), steps[|steps| - 1]).service
  }

  function EventsOf(service: Service, steps: seq<Step>): seq<Event>
  {
    if steps == [] then []
    else
      var earlier := steps[..|steps| - 1];
      EventsOf(service, earlier) + After(Life(service, earlier), steps[|steps| - 1]).events
  }

  /** How often the condition became True. */
  function ChangesIntoTrue(service: Service, steps: seq<Step>): nat
  {
    if steps == [] then 0
    else
      var before, after := Life(service, steps[..|steps| - 1]), Life(service, steps);
      ChangesIntoTrue(service, steps[..|steps| - 1]) + if True(after.condition) && !True(before.condition) then 1 else 0
  }

  /** How often it did in a pass whose status write landed and was not answered. */
  function Unannounced(service: Service, steps: seq<Step>): nat
  {
    if steps == [] then 0
    else
      var before, after, step := Life(service, steps[..|steps| - 1]), Life(service, steps), steps[|steps| - 1];
      Unannounced(service, steps[..|steps| - 1]) +
      if True(after.condition) && !True(before.condition) && step.Pass? && step.patch.Unanswered? then 1 else 0
  }

  lemma WarningsOfConcat(a: seq<Event>, b: seq<Event>)
    requires |b| <= 1
    ensures Warnings(a + b) == Warnings(a) + Warnings(b)
  {
    if |b| == 1 {
      assert (a + b)[..|a|] == a && b[..0] == [];
    } else {
      assert a + b == a;
    }
  }

  /** A pass on a fresh read warns exactly when the condition becomes True, if its write is answered. */
  lemma StepWarnsOfItsChange(service: Service, step: Step)
    ensures
      var done := After(service, step);
      var becameTrue := True(done.service.condition) && !True(service.condition);
      && |done.events| <= 1
      && Warnings(done.events) == if becameTrue && !(step.Pass? && step.patch.Unanswered?) then 1 else 0
  {
    var events := After(service, step).events;
    assert |events| == 1 ==> events[..0] == [];
  }

  /**
   * On fresh reads the warnings of a service's life number exactly the changes of its condition into True, less those whose
   * write was not answered, which are never announced.
   */
  lemma {:induction false} WarningsNumberTheChanges(service: Service, steps: seq<Step>)
    ensures Warnings(EventsOf(service, steps)) + Unannounced(service, steps) == ChangesIntoTrue(service, steps)
    decreases |steps|
  {
    if steps != [] {
      var earlier, step := steps[..|steps| - 1], steps[|steps| - 1];
      WarningsNumberTheChanges(service, earlier);
      StepWarnsOfItsChange(Life(service, earlier), step);
      WarningsOfConcat(EventsOf(service, earlier), After(Life(service, earlier), step).events);
    }
  }

  // ----- stale copies

  /**
   * A pass on a stale copy may warn of a suspicion that was announced already. It does exactly when its copy, whose
   * annotations it leaves, carries a suspicion and no True condition.
   */
  lemma StaleCopyMayWarnAgain(stored: Service, copy: Service, on: bool, now: int)
    requires !ToClear(copy, on, now) && True(stored.condition)
    ensures
      var done := ReconcileService(stored, copy, on, now, Lands, Lands);
      Warnings(done.events) == 1 <==> copy.suspect.Some? && !True(copy.condition)
  {
    var done := ReconcileService(stored, copy, on, now, Lands, Lands);
    assert |done.events| == 1 ==> done.events[..0] == [];
  }

  /**
   * Clearing does not look at the review it removes. A review renewed after the copy was read is removed with the ended
   * one: a pass that is on removes a running review exactly when its copy shows one that has ended or cannot be read.
   */
  lemma RunningReviewIsRemovedOnAStaleCopy(stored: Service, copy: Service, now: int, patch: Fate)
    requires RunningReview(stored, now)
    ensures
      var done := ReconcileService(stored, copy, true, now, Lands, patch);
      done.service.review.None? <==> copy.review.Some? && !RunningReview(copy, now)
  {
  }

  // ----- a project

  predicate Counted(service: Service, project: string)
  {
    service.project == project && !service.deleting
  }

  function Max(a: int, b: int): int
  {
    if a < b then b else a
  }

  /** What passes whose writes land come to, for the services of the project in turn, by the copies that were listed. */
  function Dones(services: seq<Service>, copies: seq<Service>, project: string, on: bool, now: int): seq<Done>
    requires |services| == |copies|
  {
    if services == [] then []
    else
      var n := |services| - 1;
      var dones := Dones(services[..n], copies[..n], project, on, now);
      if Counted(copies[n], project) then dones + [Landed(services[n], copies[n], on, now)] else dones
  }

  ghost predicate AnySuspect(dones: seq<Done>)
  {
    exists d :: d in dones && d.app.suspect.Some?
  }

  ghost predicate AnyReview(dones: seq<Done>)
  {
    exists d :: d in dones && d.until.Some?
  }

  /** The least time left on a review that is reported, at least a second; zero when none is. */
  ghost predicate LeastLeft(requeue: int, dones: seq<Done>, now: int)
  {
    if !AnyReview(dones) then requeue == 0
    else
      && (forall d :: d in dones && d.until.Some? ==> SECOND <= requeue <= Max(d.until.value - now, SECOND))
      && (exists d :: d in dones && d.until.Some? && requeue == Max(d.until.value - now, SECOND))
  }

  function Said(dones: seq<Done>): seq<Event>
  {
    if dones == [] then [] else Said(dones[..|dones| - 1]) + dones[|dones| - 1].events
  }

  /** What becomes of the writes of a pass, and whether the project's condition, where it is True and stays so, has the same text. */
  datatype Fates = Fates(clear: nat -> Fate, patch: nat -> Fate, project: Fate, sameText: bool)

  function PassOn(services: seq<Service>, copies: seq<Service>, i: nat, on: bool, now: int, fates: Fates): Done
    requires i < |services| == |copies|
  {
    ReconcileService(services[i], copies[i], on, now, fates.clear(i), fates.patch(i))
  }

  /** The pass gets through the first services without an error. */
  ghost predicate GetsThrough(services: seq<Service>, copies: seq<Service>, n: nat, project: string, on: bool, now: int, fates: Fates)
    requires n <= |services| == |copies|
  {
    forall i :: 0 <= i < n && Counted(copies[i], project) ==> !PassOn(services, copies, i, on, now, fates).failed
  }

  /** Every counted service is as a pass whose writes land leaves it, and every other as it was. */
  ghost predicate Reconciled(before: seq<Service>, copies: seq<Service>, after: seq<Service>, n: nat, project: string, on: bool, now: int)
    requires n <= |before| == |copies|
  {
    && |after| == |before|
    && forall i :: 0 <= i < n ==> after[i] == if Counted(copies[i], project) then Landed(before[i], copies[i], on, now).service else before[i]
  }

  /** The pass stops at the i-th service: those before are as it leaves them, this one has what landed, and the rest are as they were. */
  ghost predicate StopsAt(
    before: seq<Service>, copies: seq<Service>, after: seq<Service>, told: seq<Event>, events: seq<Event>, i: nat, project: string, on: bool, now: int,
    fates: Fates)
    requires i < |before| == |copies|
  {
    && GetsThrough(before, copies, i, project, on, now, fates)
    && Counted(copies[i], project) && PassOn(before, copies, i, on, now, fates).failed
    && Reconciled(before, copies, after, i, project, on, now)
    && after[i] == PassOn(before, copies, i, on, now, fates).service
    && (forall k :: i < k < |before| ==> after[k] == before[k])
    && events == told + Said(Dones(before[..i], copies[..i], project, on, now))
  }

  class Reconciler {
    var services: seq<Service>
    var projectSuspected: bool
    var events: seq<Event>

    constructor (services: seq<Service>, projectSuspected: bool)
      ensures this.services == services && this.projectSuspected == projectSuspected && events == []
    {
      this.services := services;
      this.projectSuspected := projectSuspected;
      events := [];
    }

    /**
     * Reconcile for one project, on the copies of its services that were listed, however old. A pass that gets through its
     * services leaves each as its copy calls for, wants the project's condition True exactly when the setting is on and a copy
     * it then has in hand carries a suspicion, and asks for the next pass when the first review that is reported ends. One
     * that does not stops there, leaves the project, and asks for none.
     */
    method Reconcile(copies: seq<Service>, project: string, on: bool, now: int, fates: Fates) returns (requeue: int, ok: bool)
      requires |copies| == |services|
      modifies this
      ensures
        var all := Dones(old(services), copies, project, on, now);
        var wanted := on && AnySuspect(all);
        var sent := wanted != old(projectSuspected) || (wanted && !fates.sameText);
        if GetsThrough(old(services), copies, |copies|, project, on, now, fates) then
          && Reconciled(old(services), copies, services, |copies|, project, on, now) && events == old(events) + Said(all)
          && ok == (!sent || fates.project.Lands?)
          && projectSuspected == (if sent && !fates.project.Refused? then wanted else old(projectSuspected))
          && (if ok then LeastLeft(requeue, all, now) else requeue == 0)
        else
          && !ok && requeue == 0 && projectSuspected == old(projectSuspected)
          && exists i :: 0 <= i < |copies| && StopsAt(old(services), copies, services, old(events), events, i, project, on, now, fates)
    {
      var suspected;
      requeue, suspected, ok := ReconcileServices(copies, project, on, now, fates);
      if !ok {
        return 0, false;
      }
      var wanted := suspected > 0;
      if wanted != projectSuspected || (wanted && !fates.sameText) {
        if !fates.project.Refused? {
          projectSuspected := wanted;
        }
        if !fates.project.Lands? {
          return 0, false;
        }
      }
    }

    method ReconcileServices(copies: seq<Service>, project: string, on: bool, now: int, fates: Fates) returns (requeue: int, suspected: int, ok: bool)
      requires |copies| == |services|
      modifies this`services, this`events
      ensures ok == GetsThrough(old(services), copies, |copies|, project, on, now, fates)
      ensures ok ==> Gathered(old(services), copies, services, |copies|, Dones(old(services), copies, project, on, now),
                              old(events), events, requeue, suspected, project, on, now)
      ensures !ok ==> exists i :: 0 <= i < |copies| && StopsAt(old(services), copies, services, old(events), events, i, project, on, now, fates)
    {
      ghost var before := services;
      requeue, suspected, ok := 0, 0, true;
      for i := 0 to |copies|
        invariant |services| == |before| && forall k :: i <= k < |before| ==> services[k] == before[k]
        invariant ok && GetsThrough(before, copies, i, project, on, now, fates)
        invariant Gathered(before, copies, services, i, Dones(before[..i], copies[..i], project, on, now), old(events), events, requeue, suspected, project, on, now)
      {
        requeue, suspected, ok := ReconcileNext(before, old(events), copies, i, requeue, suspected, project, on, now, fates);
        if !ok {
          return;
        }
      }
      assert before[..|copies|] == before && copies[..|copies|] == copies;
    }

    /** One round of the loop. */
    method ReconcileNext(
      ghost before: seq<Service>, ghost told: seq<Event>, copies: seq<Service>, i: nat, requeue: int, suspected: int, project: string, on: bool,
      now: int, fates: Fates) returns (requeue': int, suspected': int, ok: bool)
      requires i < |services| == |before| == |copies| && forall k :: i <= k < |before| ==> services[k] == before[k]
      requires GetsThrough(before, copies, i, project, on, now, fates)
      requires Gathered(before, copies, services, i, Dones(before[..i], copies[..i], project, on, now), told, events, requeue, suspected, project, on, now)
      modifies this`services, this`events
      ensures ok ==> |services| == |before| && (forall k :: i < k < |before| ==> services[k] == before[k])
      ensures ok ==> GetsThrough(before, copies, i + 1, project, on, now, fates)
      ensures ok ==> Gathered(before, copies, services, i + 1, Dones(before[..i + 1], copies[..i + 1], project, on, now),
                              told, events, requeue', suspected', project, on, now)
      ensures !ok ==> StopsAt(before, copies, services, told, events, i, project, on, now, fates)
      ensures !ok ==> !GetsThrough(before, copies, |copies|, project, on, now, fates)
    {
      requeue', suspected', ok := requeue, suspected, true;
      ghost var earlier, said, dones := services, events, Dones(before[..i], copies[..i], project, on, now);
      if copies[i].project != project || copies[i].deleting {
        DonesMore(before, copies, i, project, on, now);
        return;
      }
      var done := ReconcileOne(copies, i, on, now, fates);
      if done.failed {
        StopsHere(before, copies, earlier, services, told, events, i, project, on, now, fates);
        ok := false;
        return;
      }
      GatheredMore(before, copies, earlier, i, done, told, said, requeue, suspected, project, on, now);
      if done.until.Some? && (requeue == 0 || done.until.value - now < requeue) {
        requeue' := Max(done.until.value - now, SECOND);
      }
      if done.app.suspect.Some? && on {
        suspected' := suspected + 1;
      }
    }

    method ReconcileOne(copies: seq<Service>, i: nat, on: bool, now: int, fates: Fates) returns (done: Done)
      requires i < |services| == |copies|
      modifies this`services, this`events
      ensures done == PassOn(old(services), copies, i, on, now, fates)
      ensures !done.failed ==> done == Landed(old(services)[i], copies[i], on, now)
      ensures services == old(services)[i := done.service]
      ensures events == if done.failed then old(events) else old(events) + done.events
    {
      done := ReconcileService(services[i], copies[i], on, now, fates.clear(i), fates.patch(i));
      UnfailedIsLanded(services[i], copies[i], on, now, fates.clear(i), fates.patch(i));
      services := services[i := done.service];
      events := events + done.events;
    }
  }

  lemma StopsHere(
    before: seq<Service>, copies: seq<Service>, earlier: seq<Service>, after: seq<Service>, told: seq<Event>, events: seq<Event>, i: nat,
    project: string, on: bool, now: int, fates: Fates)
    requires i < |before| == |copies| && GetsThrough(before, copies, i, project, on, now, fates)
    requires Reconciled(before, copies, earlier, i, project, on, now) && forall k :: i <= k < |before| ==> earlier[k] == before[k]
    requires Counted(copies[i], project) && PassOn(before, copies, i, on, now, fates).failed
    requires after == earlier[i := PassOn(before, copies, i, on, now, fates).service]
    requires events == told + Said(Dones(before[..i], copies[..i], project, on, now))
    ensures StopsAt(before, copies, after, told, events, i, project, on, now, fates)
    ensures !GetsThrough(before, copies, |copies|, project, on, now, fates)
  {
  }

  lemma GatheredMore(
    before: seq<Service>, copies: seq<Service>, earlier: seq<Service>, i: nat, done: Done, told: seq<Event>, said: seq<Event>, requeue: int,
    suspected: int, project: string, on: bool, now: int)
    requires i < |before| == |copies| && Counted(copies[i], project) && done == Landed(before[i], copies[i], on, now)
    requires Gathered(before, copies, earlier, i, Dones(before[..i], copies[..i], project, on, now), told, said, requeue, suspected, project, on, now)
    ensures
      var sooner := done.until.Some? && (requeue == 0 || done.until.value - now < requeue);
      Gathered(before, copies, earlier[i := done.service], i + 1, Dones(before[..i + 1], copies[..i + 1], project, on, now), told, said + done.events,
               if sooner then Max(done.until.value - now, SECOND) else requeue,
               if done.app.suspect.Some? && on then suspected + 1 else suspected, project, on, now)
  {
    var dones := Dones(before[..i], copies[..i], project, on, now);
    DonesMore(before, copies, i, project, on, now);
    SaidMore(dones, done, told);
    LeastLeftMore(requeue, dones, done, now);
    SuspectMore(dones, done);
  }

  /** What the loop has made of the services so far. */
  ghost predicate Gathered(
    before: seq<Service>, copies: seq<Service>, after: seq<Service>, n: nat, dones: seq<Done>, told: seq<Event>, events: seq<Event>, requeue: int,
    suspected: int, project: string, on: bool, now: int)
    requires n <= |before| == |copies|
  {
    && Reconciled(before, copies, after, n, project, on, now)
    && events == told + Said(dones)
    && suspected >= 0 && (suspected > 0 <==> on && AnySuspect(dones))
    && LeastLeft(requeue, dones, now)
  }

  lemma DonesMore(services: seq<Service>, copies: seq<Service>, i: nat, project: string, on: bool, now: int)
    requires i < |services| == |copies|
    ensures
      var dones := Dones(services[..i], copies[..i], project, on, now);
      Dones(services[..i + 1], copies[..i + 1], project, on, now) ==
      if Counted(copies[i], project) then dones + [Landed(services[i], copies[i], on, now)] else dones
  {
    assert services[..i + 1][..i] == services[..i] && copies[..i + 1][..i] == copies[..i];
  }

  lemma SaidMore(dones: seq<Done>, done: Done, told: seq<Event>)
    ensures told + Said(dones) + done.events == told + Said(dones + [done])
  {
    assert (dones + [done])[..|dones|] == dones;
  }

  lemma SuspectMore(dones: seq<Done>, done: Done)
    ensures AnySuspect(dones + [done]) <==> AnySuspect(dones) || done.app.suspect.Some?
  {
    assert done in dones + [done] && forall d :: d in dones + [done] <==> d in dones || d == done;
  }

  lemma LeastLeftMore(requeue: int, dones: seq<Done>, done: Done, now: int)
    requires LeastLeft(requeue, dones, now)
    ensures
      var sooner := done.until.Some? && (requeue == 0 || done.until.value - now < requeue);
      LeastLeft(if sooner then Max(done.until.value - now, SECOND) else requeue, dones + [done], now)
  {
    var more := dones + [done];
    assert done in more && forall d :: d in more <==> d in dones || d == done;
    assert AnyReview(more) <==> AnyReview(dones) || done.until.Some?;
    if AnyReview(dones) {
      var d :| d in dones && d.until.Some? && requeue == Max(d.until.value - now, SECOND);
      assert d in more;
    }
  }

  /** A pass that did not fail did what one whose writes land does, and one that failed says nothing. */
  lemma UnfailedIsLanded(stored: Service, copy: Service, on: bool, now: int, clear: Fate, patch: Fate)
    ensures
      var done := ReconcileService(stored, copy, on, now, clear, patch);
      && (!done.failed ==> done == Landed(stored, copy, on, now))
      && (done.failed ==> done.events == [])
  {
  }

  // ----- a project on fresh reads

  ghost predicate SomeSuspect(services: seq<Service>, project: string)
  {
    exists s :: s in services && s.project == project && !s.deleting && s.suspect.Some?
  }

  /** Among the services, some counted one has a review that is running. */
  ghost predicate SomeReview(services: seq<Service>, project: string, now: int)
  {
    exists s :: s in services && s.project == project && !s.deleting && RunningReview(s, now)
  }

  /** Least time left on a running review of the services, at least a second; zero when none is running. */
  ghost predicate IsRequeue(requeue: int, services: seq<Service>, project: string, on: bool, now: int)
  {
    if !on || !SomeReview(services, project, now) then requeue == 0
    else
      && (forall s :: s in services && s.project == project && !s.deleting && RunningReview(s, now) ==> requeue <= Max(s.review.value.until - now, SECOND))
      && (exists s :: s in services && s.project == project && !s.deleting && RunningReview(s, now) && requeue == Max(s.review.value.until - now, SECOND))
  }

  lemma {:induction false} InFreshDones(services: seq<Service>, project: string, on: bool, now: int, d: Done)
    ensures d in Dones(services, services, project, on, now) <==> exists s :: s in services && Counted(s, project) && d == FreshPass(s, on, now)
  {
    if services != [] {
      var n := |services| - 1;
      InFreshDones(services[..n], project, on, now, d);
      assert services == services[..n] + [services[n]];
    }
  }

  lemma SaysWhatIsThere(service: Service, on: bool, now: int)
    ensures
      var done := FreshPass(service, on, now);
      && done.app == done.service && done.service.project == service.project && done.service.deleting == service.deleting
      && (on ==> done.app.suspect == service.suspect)
      && done.until == (if on && RunningReview(service, now) then Some(service.review.value.until) else None)
  {
    TurnedOffLeavesNothing(service, now);
    TurnedOnSaysWhatIsThere(service, now);
  }

  /**
   * On fresh reads, a pass finds a suspicion if and only if a service of the project that is not being deleted carries one,
   * and the reviews it reports are exactly those that are running.
   */
  lemma FreshPassSeesTheServices(services: seq<Service>, project: string, on: bool, now: int, requeue: int)
    ensures
      var all := Dones(services, services, project, on, now);
      && (on ==> (AnySuspect(all) <==> SomeSuspect(services, project)))
      && (LeastLeft(requeue, all, now) ==> IsRequeue(requeue, services, project, on, now))
  {
    var all := Dones(services, services, project, on, now);
    forall d ensures d in all <==> exists s :: s in services && Counted(s, project) && d == FreshPass(s, on, now) {
      InFreshDones(services, project, on, now, d);
    }
    forall s | s in services && Counted(s, project)
      ensures FreshPass(s, on, now) in all && (on ==> FreshPass(s, on, now).app.suspect == s.suspect)
      ensures FreshPass(s, on, now).until == if on && RunningReview(s, now) then Some(s.review.value.until) else None
    {
      SaysWhatIsThere(s, on, now);
    }
    assert AnyReview(all) <==> on && SomeReview(services, project, now);
  }

  /** And what it found is still so afterwards: each service that it counted carries its suspicion on. */
  lemma SuspicionsOutliveThePass(before: seq<Service>, after: seq<Service>, project: string, now: int)
    requires Reconciled(before, before, after, |before|, project, true, now)
    ensures SomeSuspect(before, project) <==> SomeSuspect(after, project)
  {
    forall i | 0 <= i < |before| ensures after[i].suspect == before[i].suspect && (Counted(after[i], project) <==> Counted(before[i], project)) {
      SaysWhatIsThere(before[i], true, now);
    }
    if s :| s in before && s.project == project && !s.deleting && s.suspect.Some? {
      var i :| 0 <= i < |before| && before[i] == s;
      assert after[i] in after;
    }
    if s :| s in after && s.project == project && !s.deleting && s.suspect.Some? {
      var i :| 0 <= i < |after| && after[i] == s;
      assert before[i] in before;
    }
  }
}
