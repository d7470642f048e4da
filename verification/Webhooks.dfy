/**
 * Telling a project's webhooks how a deploy ended (internal/controller/geassapp_webhooks.go). A pass claims the outcome
 * by writing it to the service under the version its copy was read at, and sends only once the claim is in.
 */
module Webhooks {
  import opened Wrappers
  import opened ApiServer
  import opened Text

  const STARTED := "deployment.started"

  /** A service: its deploy revision and webhook state annotations ("" when absent), and whether it is deployed. */
  datatype App = App(revision: string, state: string, deployEnabled: bool, otherwise: nat)

  datatype Outcome = Outcome(revision: string, event: string)

  function Mark(revision: string, event: string): string
  {
    revision + ":" + event
  }

  /** Whether a copy of the service is of an announced deploy whose recorded outcome is another one. */
  predicate ToClaim(app: App, event: string)
  {
    && app.deployEnabled
    && app.revision != "" && HasPrefix(app.state, app.revision + ":")
    && app.state != Mark(app.revision, event)
  }

  class Emitter {
    var sent: seq<Outcome>

    constructor ()
      ensures sent == []
    {
      sent := [];
    }

    method Emit(outcome: Outcome)
      modifies this
      ensures sent == old(sent) + [outcome]
    {
      sent := sent + [outcome];
    }
  }

  /** notifyDeployOutcome, with the copy of the service the pass was given. The emitter is null without webhooks. */
  method NotifyDeployOutcome(api: Api<App>, emitter: Emitter?, copy: Versioned<App>, event: string, fate: Fate)
    modifies api, emitter
    ensures
      if emitter == null || !ToClaim(copy.value, event) then
        api.store == old(api.store) && (emitter != null ==> emitter.sent == old(emitter.sent))
      else
        var (after, error) := old(api.store).Update(copy.version, copy.value.(state := Mark(copy.value.revision, event)), fate);
        && api.store == after
        && emitter.sent == old(emitter.sent) + if error.None? then [Outcome(copy.value.revision, event)] else []
  {
    var app := copy.value;
    if emitter == null || !app.deployEnabled {
      return;
    }
    if app.revision == "" || !HasPrefix(app.state, app.revision + ":") {
      return;
    }
    var next := Mark(app.revision, event);
    if app.state == next {
      return;
    }
    app := app.(state := next);
    var error := api.Update(copy.version, app, fate);
    if error.Some? {
      return;
    }
    emitter.Emit(Outcome(app.revision, event));
  }

  // ----- runs over one service's life

  /** What was written to the webhook state: the dashboard announcing a deploy, or a pass claiming an outcome. */
  datatype Entry = Announced(revision: string) | Claimed(outcome: Outcome) {

    function Text(): string
    {
      match this
      case Announced(r) => Mark(r, STARTED)
      case Claimed(o) => Mark(o.revision, o.event)
    }

    function Revision(): string
    {
      match this
      case Announced(r) => r
      case Claimed(o) => o.revision
    }
  }

  /** pending holds the claims that are in and whose passes have not sent yet. */
  datatype World = World(app: Store<App>, journal: seq<Entry>, pending: multiset<Outcome>, emitted: seq<Outcome>)

  datatype Event =
    | Pass(event: string, readAt: nat, fate: Fate)
    | Send(outcome: Outcome)
    | Crash(outcome: Outcome)
    | Announce(revision: string)
    | Others

  ghost predicate Step(worlds: seq<World>, i: nat, e: Event)
    requires i + 1 < |worlds|
  {
    var w, w' := worlds[i], worlds[i + 1];
    match e
    case Pass(event, readAt, fate) =>
      && readAt <= i
      && w' == AfterPass(w, worlds[readAt].app.current, event, fate)
    case Send(outcome) =>
      && outcome in w.pending
      && w' == w.(pending := w.pending - multiset{outcome}, emitted := w.emitted + [outcome])
    case Crash(outcome) =>
      && outcome in w.pending
      && w' == w.(pending := w.pending - multiset{outcome})
    case Announce(revision) =>
      && w.app.current.Some?
      && w' == w.(app := w.app.Put(w.app.current.value.value.(state := Mark(revision, STARTED))),
                  journal := w.journal + [Announced(revision)])
    case Others =>
      && Evolves(w.app, w'.app)
      && (w'.app.current.Some? ==> w.app.current.Some? && w'.app.current.value.value.state == w.app.current.value.value.state)
      && w' == w.(app := w'.app)
  }

  /** A pass up to and including its claim. Only a claim that was answered goes on to send. */
  ghost function AfterPass(w: World, copy: Option<Versioned<App>>, event: string, fate: Fate): World
  {
    if copy.None? || !ToClaim(copy.value.value, event) then w
    else
      var app := copy.value.value;
      var outcome := Outcome(app.revision, event);
      var (after, error) := w.app.Update(copy.value.version, app.(state := Mark(app.revision, event)), fate);
      w.(app := after,
         journal := if after == w.app then w.journal else w.journal + [Claimed(outcome)],
         pending := if error.None? then w.pending + multiset{outcome} else w.pending)
  }

  ghost predicate Run(worlds: seq<World>, events: seq<Event>)
  {
    && |worlds| == |events| + 1
    && worlds[0].app.Valid()
    && (worlds[0].app.current.Some? ==> worlds[0].app.current.value.value.state == "")
    && worlds[0].journal == [] && worlds[0].pending == multiset{} && worlds[0].emitted == []
    && forall i :: 0 <= i < |events| ==> Step(worlds, i, events[i])
  }

  ghost function Claims(journal: seq<Entry>): multiset<Outcome>
  {
    if journal == [] then multiset{}
    else
      var last := journal[|journal| - 1];
      Claims(journal[..|journal| - 1]) + if last.Claimed? then multiset{last.outcome} else multiset{}
  }

  /** Every claim was made over an announced mark of its revision that named something else. */
  ghost predicate ClaimsFollow(journal: seq<Entry>)
  {
    forall k :: 0 <= k < |journal| ==> Follows(journal, k)
  }

  ghost predicate Follows(journal: seq<Entry>, k: nat)
    requires k < |journal|
  {
    journal[k].Claimed? ==>
      && k > 0
      && HasPrefix(journal[k - 1].Text(), journal[k].Revision() + ":")
      && journal[k].Text() != journal[k - 1].Text()
  }

  ghost predicate Consistent(w: World)
  {
    && w.app.Valid()
    && multiset(w.emitted) + w.pending <= Claims(w.journal)
    && ClaimsFollow(w.journal)
    && (w.app.current.Some? ==>
          w.app.current.value.value.state == if w.journal == [] then "" else w.journal[|w.journal| - 1].Text())
  }

  ghost function Apps(worlds: seq<World>): (stores: seq<Store<App>>)
    ensures |stores| == |worlds|
  {
    seq(|worlds|, i requires 0 <= i < |worlds| => worlds[i].app)
  }

  lemma JournalGrows(journal: seq<Entry>, entry: Entry)
    requires ClaimsFollow(journal)
    requires entry.Claimed? ==>
               && journal != []
               && HasPrefix(journal[|journal| - 1].Text(), entry.Revision() + ":")
               && entry.Text() != journal[|journal| - 1].Text()
    ensures ClaimsFollow(journal + [entry])
    ensures Claims(journal + [entry]) == Claims(journal) + if entry.Claimed? then multiset{entry.outcome} else multiset{}
  {
    var longer := journal + [entry];
    assert longer[..|journal|] == journal;
    forall k | 0 <= k < |longer| ensures Follows(longer, k) {
      if k < |journal| {
        assert Follows(journal, k);
      }
    }
  }

  /** A claim that is refused leaves everything as it was. One that gets in was made over the service as it is. */
  lemma ClaimGetsIn(w: World, copy: Option<Versioned<App>>, event: string, fate: Fate)
    requires w.app.Valid()
    ensures
      var w' := AfterPass(w, copy, event, fate);
      || w' == w
      || (&& copy.Some? && w.app.current.Some? && copy.value.version == w.app.current.value.version && ToClaim(copy.value.value, event)
          && var outcome := Outcome(copy.value.value.revision, event);
             && w'.app == w.app.Put(copy.value.value.(state := Mark(outcome.revision, event)))
             && w'.journal == w.journal + [Claimed(outcome)] && w'.emitted == w.emitted
             && (w'.pending == w.pending || w'.pending == w.pending + multiset{outcome}))
  {
  }

  /** A claim over the service as it is is one over the last mark. */
  lemma PassKeepsConsistent(w: World, copy: Option<Versioned<App>>, event: string, fate: Fate)
    requires Consistent(w)
    requires copy.Some? && w.app.current.Some? && copy.value.version == w.app.current.value.version ==> copy == w.app.current
    ensures Consistent(AfterPass(w, copy, event, fate))
  {
    var w' := AfterPass(w, copy, event, fate);
    ClaimGetsIn(w, copy, event, fate);
    if w' != w {
      ClaimKeepsConsistent(w, w', copy.value.value, event);
    }
  }

  lemma ClaimKeepsConsistent(w: World, w': World, app: App, event: string)
    requires Consistent(w) && w.app.current.Some? && app == w.app.current.value.value && ToClaim(app, event)
    requires w'.app == w.app.Put(app.(state := Mark(app.revision, event))) && w'.emitted == w.emitted
    requires w'.journal == w.journal + [Claimed(Outcome(app.revision, event))]
    requires w'.pending == w.pending || w'.pending == w.pending + multiset{Outcome(app.revision, event)}
    ensures Consistent(w')
  {
    var outcome := Outcome(app.revision, event);
    assert w.journal != [];
    assert app.state == w.journal[|w.journal| - 1].Text();
    assert Claimed(outcome).Text() == Mark(app.revision, event) && Claimed(outcome).Revision() == app.revision;
    JournalGrows(w.journal, Claimed(outcome));
    OneMore(multiset(w.emitted), w.pending, w'.pending, Claims(w.journal), outcome);
    assert w'.journal[|w'.journal| - 1] == Claimed(outcome);
  }

  lemma OneMore(sent: multiset<Outcome>, before: multiset<Outcome>, after: multiset<Outcome>, claims: multiset<Outcome>, outcome: Outcome)
    requires sent + before <= claims && (after == before || after == before + multiset{outcome})
    ensures sent + after <= claims + multiset{outcome}
  {
  }

  lemma OtherStepKeepsConsistent(worlds: seq<World>, i: nat, e: Event)
    requires i + 1 < |worlds| && !e.Pass? && Step(worlds, i, e) && Consistent(worlds[i])
    ensures Consistent(worlds[i + 1])
  {
    if e.Announce? {
      JournalGrows(worlds[i].journal, Announced(e.revision));
    }
  }

  lemma StepEvolves(worlds: seq<World>, i: nat, e: Event)
    requires i + 1 < |worlds| && Step(worlds, i, e) && worlds[i].app.Valid()
    ensures Evolves(worlds[i].app, worlds[i + 1].app)
  {
  }

  lemma {:induction false} RunIsHistory(worlds: seq<World>, events: seq<Event>, n: nat)
    requires Run(worlds, events) && n <= |events|
    ensures History(Apps(worlds[..n + 1]))
    decreases n
  {
    if n > 0 {
      RunIsHistory(worlds, events, n - 1);
      var apps := Apps(worlds[..n]);
      assert apps[n - 1].Valid();
      StepEvolves(worlds, n - 1, events[n - 1]);
      HistoryGrows(apps, worlds[n].app);
      assert Apps(worlds[..n + 1]) == apps + [worlds[n].app];
    }
  }

  /** The copy a pass was given is the service as it is, if it carries its version. */
  lemma CopyOfItsVersion(worlds: seq<World>, events: seq<Event>, i: nat) returns (copy: Option<Versioned<App>>)
    requires Run(worlds, events) && i < |events| && events[i].Pass?
    ensures worlds[i + 1] == AfterPass(worlds[i], copy, events[i].event, events[i].fate)
    ensures
      var current := worlds[i].app.current;
      copy.Some? && current.Some? && copy.value.version == current.value.version ==> copy == current
  {
    assert Step(worlds, i, events[i]);
    RunIsHistory(worlds, events, i);
    var apps := Apps(worlds[..i + 1]);
    var readAt := events[i].readAt;
    copy := worlds[readAt].app.current;
    assert apps[readAt].current == copy && apps[i].current == worlds[i].app.current;
    if copy.Some? && apps[i].current.Some? && copy.value.version == apps[i].current.value.version {
      VersionNamesContent(apps, readAt, i);
    }
  }

  lemma StepKeepsConsistent(worlds: seq<World>, events: seq<Event>, i: nat)
    requires Run(worlds, events) && i < |events| && Consistent(worlds[i])
    ensures Consistent(worlds[i + 1])
  {
    if events[i].Pass? {
      var copy := CopyOfItsVersion(worlds, events, i);
      PassKeepsConsistent(worlds[i], copy, events[i].event, events[i].fate);
    } else {
      OtherStepOfRun(worlds, events, i);
    }
  }

  lemma OtherStepOfRun(worlds: seq<World>, events: seq<Event>, i: nat)
    requires Run(worlds, events) && i < |events| && !events[i].Pass? && Consistent(worlds[i])
    ensures Consistent(worlds[i + 1])
  {
    assert Step(worlds, i, events[i]);
    OtherStepKeepsConsistent(worlds, i, events[i]);
  }

  lemma {:induction false} RunIsConsistent(worlds: seq<World>, events: seq<Event>, n: nat)
    requires Run(worlds, events) && n <= |events|
    ensures Consistent(worlds[n])
    decreases n
  {
    if n > 0 {
      RunIsConsistent(worlds, events, n - 1);
      StepKeepsConsistent(worlds, events, n - 1);
    }
  }

  /** At most once: every outcome that was sent has a committed claim of its own, whatever raced or crashed. */
  lemma EveryOutcomeSentWasClaimed(worlds: seq<World>, events: seq<Event>, n: nat)
    requires Run(worlds, events) && n <= |events|
    ensures multiset(worlds[n].emitted) <= Claims(worlds[n].journal)
  {
    RunIsConsistent(worlds, events, n);
  }

  // ----- telling revisions apart

  /** A deploy revision as the platform writes it: a UTC time in RFC 3339, which ends in its only Z. */
  predicate Stamped(revision: string)
  {
    && revision != "" && revision[|revision| - 1] == 'Z'
    && 'Z' !in revision[..|revision| - 1]
  }

  ghost predicate AllStamped(journal: seq<Entry>)
  {
    forall k :: 0 <= k < |journal| ==> Stamped(journal[k].Revision())
  }

  lemma MarkNamesItsRevision(r: string, event: string, r': string)
    requires Stamped(r) && Stamped(r') && HasPrefix(Mark(r, event), r' + ":")
    ensures r == r'
  {
    var s := Mark(r, event);
    assert s == r + (":" + event);
    assert s[|r| - 1] == 'Z' && s[..|r|] == r;
    assert r' <= s && s[|r'| - 1] == r'[|r'| - 1] == 'Z';
    assert forall k :: 0 <= k < |r| - 1 ==> s[k] == r[..|r| - 1][k];
    assert forall k :: 0 <= k < |r'| - 1 ==> s[k] == r'[..|r'| - 1][k];
    assert |r| == |r'|;
  }

  lemma PreviousEntrySharesRevision(journal: seq<Entry>, k: nat)
    requires ClaimsFollow(journal) && AllStamped(journal)
    requires k < |journal| && journal[k].Claimed?
    ensures k > 0 && journal[k - 1].Revision() == journal[k].Revision()
  {
    assert Follows(journal, k);
    var before := journal[k - 1];
    var event := if before.Claimed? then before.outcome.event else STARTED;
    assert before.Text() == Mark(before.Revision(), event);
    MarkNamesItsRevision(before.Revision(), event, journal[k].Revision());
  }

  /** Two claims in a row for one revision name the same outcome only when its deploy was announced again between them. */
  lemma SameOutcomeNeedsANewAnnouncement(worlds: seq<World>, events: seq<Event>, n: nat, i: nat, j: nat)
    requires Run(worlds, events) && n <= |events| && AllStamped(worlds[n].journal)
    requires i < j < |worlds[n].journal|
    requires worlds[n].journal[i].Claimed? && worlds[n].journal[i] == worlds[n].journal[j]
    requires forall k :: i < k < j ==> !(worlds[n].journal[k].Claimed? && worlds[n].journal[k].Revision() == worlds[n].journal[i].Revision())
    ensures exists k :: i < k < j && worlds[n].journal[k] == Announced(worlds[n].journal[i].Revision())
  {
    RunIsConsistent(worlds, events, n);
    var journal := worlds[n].journal;
    PreviousEntrySharesRevision(journal, j);
    assert Follows(journal, j);
    assert i < j - 1;
    assert journal[j - 1] == Announced(journal[i].Revision());
  }

  /** A deploy that was not announced is never claimed: back from any claim there are only claims of its revision, up to its announcement. */
  lemma {:induction false} ClaimsFollowTheirAnnouncement(worlds: seq<World>, events: seq<Event>, n: nat, k: nat) returns (a: nat)
    requires Run(worlds, events) && n <= |events| && AllStamped(worlds[n].journal)
    requires k < |worlds[n].journal| && worlds[n].journal[k].Claimed?
    ensures a < k && worlds[n].journal[a] == Announced(worlds[n].journal[k].Revision())
    ensures forall m :: a < m <= k ==> worlds[n].journal[m].Claimed? && worlds[n].journal[m].Revision() == worlds[n].journal[k].Revision()
    decreases k
  {
    RunIsConsistent(worlds, events, n);
    var journal := worlds[n].journal;
    PreviousEntrySharesRevision(journal, k);
    if journal[k - 1].Announced? {
      a := k - 1;
    } else {
      a := ClaimsFollowTheirAnnouncement(worlds, events, n, k - 1);
    }
  }

  lemma {:induction false} SomeEntryClaims(journal: seq<Entry>, outcome: Outcome)
    requires outcome in Claims(journal)
    ensures Claimed(outcome) in journal
  {
    var last := journal[|journal| - 1];
    if last != Claimed(outcome) {
      SomeEntryClaims(journal[..|journal| - 1], outcome);
    }
  }

  /** So an outcome that was sent is of a deploy that was announced. */
  lemma OnlyAnnouncedDeploysAreReported(worlds: seq<World>, events: seq<Event>, n: nat, outcome: Outcome)
    requires Run(worlds, events) && n <= |events| && AllStamped(worlds[n].journal)
    requires outcome in worlds[n].emitted
    ensures Announced(outcome.revision) in worlds[n].journal
  {
    EveryOutcomeSentWasClaimed(worlds, events, n);
    assert outcome in multiset(worlds[n].emitted);
    SomeEntryClaims(worlds[n].journal, outcome);
    var k :| 0 <= k < |worlds[n].journal| && worlds[n].journal[k] == Claimed(outcome);
    var a := ClaimsFollowTheirAnnouncement(worlds, events, n, k);
  }

  // ----- how often one outcome is sent

  /**
   * The source's comment says "once per outcome". The mark remembers only the last outcome, so one that comes back
   * after another is claimed, and sent, again: from any service whose recorded outcome is a, a pass that finds b and
   * then one that finds a both claim, with no announcement between.
   */
  lemma AlternatingOutcomesAreSentAgain(w: World, a: string, b: string)
    requires w.app.Valid() && w.app.current.Some? && a != b
    requires
      var app := w.app.current.value.value;
      app.deployEnabled && app.revision != "" && app.state == Mark(app.revision, a)
    ensures
      var r := w.app.current.value.value.revision;
      var w1 := AfterPass(w, w.app.current, b, Delivered);
      var w2 := AfterPass(w1, w1.app.current, a, Delivered);
      && w2.journal == w.journal + [Claimed(Outcome(r, b)), Claimed(Outcome(r, a))]
      && w2.pending == w.pending + multiset{Outcome(r, b), Outcome(r, a)}
  {
    var r := w.app.current.value.value.revision;
    MarksDiffer(r, a, b);
    assert HasPrefix(Mark(r, a), r + ":") && HasPrefix(Mark(r, b), r + ":");
    var w1 := AfterPass(w, w.app.current, b, Delivered);
    assert w1.app.current.value.value.state == Mark(r, b);
    assert w.app.Put(w.app.current.value.value.(state := Mark(r, b))) != w.app;
  }

  lemma MarksDiffer(r: string, a: string, b: string)
    requires a != b
    ensures Mark(r, a) != Mark(r, b)
  {
    assert Mark(r, a)[|r| + 1..] == a && Mark(r, b)[|r| + 1..] == b;
  }

  /** And that is the only way: an outcome is claimed twice for one announcement only with another outcome between. */
  lemma RepeatNeedsAnotherOutcome(worlds: seq<World>, events: seq<Event>, n: nat, i: nat, j: nat)
    requires Run(worlds, events) && n <= |events| && AllStamped(worlds[n].journal)
    requires i < j < |worlds[n].journal|
    requires worlds[n].journal[i].Claimed? && worlds[n].journal[i] == worlds[n].journal[j]
    requires forall k :: i < k < j ==> worlds[n].journal[k].Claimed?
    ensures
      var r := worlds[n].journal[i].Revision();
      exists k :: i < k < j && worlds[n].journal[k].Revision() == r && worlds[n].journal[k] != worlds[n].journal[i]
  {
    RunIsConsistent(worlds, events, n);
    PreviousEntrySharesRevision(worlds[n].journal, j);
    assert Follows(worlds[n].journal, j);
    assert worlds[n].journal[j - 1] != worlds[n].journal[j];
    assert i < j - 1;
  }

  /** An outcome was claimed since the last announcement. */
  ghost predicate ClaimedSince(journal: seq<Entry>, outcome: Outcome, k: nat)
  {
    k < |journal| && journal[k] == Claimed(outcome) && forall m :: k < m < |journal| ==> journal[m].Claimed?
  }

  lemma {:induction false} LastMarkIsOfItsRevision(journal: seq<Entry>, outcome: Outcome, k: nat, m: nat)
    requires ClaimsFollow(journal) && AllStamped(journal) && ClaimedSince(journal, outcome, k) && k <= m < |journal|
    ensures journal[m].Claimed? && journal[m].Revision() == outcome.revision
    decreases m
  {
    if k < m {
      LastMarkIsOfItsRevision(journal, outcome, k, m - 1);
      PreviousEntrySharesRevision(journal, m);
    }
  }

  /**
   * Exactly when an outcome is sent again for one announcement: a pass on the service as it is, whose claim is answered,
   * claims an outcome that was claimed since the announcement if and only if the service is deployed and the outcome is not
   * the one its mark names.
   */
  lemma RepeatsExactlyWhen(worlds: seq<World>, events: seq<Event>, n: nat, event: string, k: nat)
    requires Run(worlds, events) && n <= |events| && AllStamped(worlds[n].journal) && worlds[n].app.current.Some?
    requires
      var app := worlds[n].app.current.value.value;
      Stamped(app.revision) && ClaimedSince(worlds[n].journal, Outcome(app.revision, event), k)
    ensures
      var w, app := worlds[n], worlds[n].app.current.value.value;
      var w', outcome := AfterPass(w, w.app.current, event, Delivered), Outcome(app.revision, event);
      && (w'.journal == w.journal + [Claimed(outcome)] && w'.pending == w.pending + multiset{outcome} <==>
          app.deployEnabled && w.journal[|w.journal| - 1] != Claimed(outcome))
      && (w' == w <==> !app.deployEnabled || w.journal[|w.journal| - 1] == Claimed(outcome))
  {
    var w, app := worlds[n], worlds[n].app.current.value.value;
    MarkDecides(worlds, events, n, event, k);
    FreshClaim(w, event);
    assert w.journal + [Claimed(Outcome(app.revision, event))] != w.journal;
  }

  /** A pass on the service as it is, whose claim is answered, claims exactly when there is something to claim. */
  lemma FreshClaim(w: World, event: string)
    requires w.app.current.Some?
    ensures
      var app, w' := w.app.current.value.value, AfterPass(w, w.app.current, event, Delivered);
      var outcome := Outcome(app.revision, event);
      if ToClaim(app, event) then w'.journal == w.journal + [Claimed(outcome)] && w'.pending == w.pending + multiset{outcome} else w' == w
  {
    assert w.app.Put(w.app.current.value.value.(state := Mark(w.app.current.value.value.revision, event))).revision != w.app.revision;
  }

  lemma MarkDecides(worlds: seq<World>, events: seq<Event>, n: nat, event: string, k: nat)
    requires Run(worlds, events) && n <= |events| && AllStamped(worlds[n].journal) && worlds[n].app.current.Some?
    requires
      var app := worlds[n].app.current.value.value;
      Stamped(app.revision) && ClaimedSince(worlds[n].journal, Outcome(app.revision, event), k)
    ensures
      var app, journal := worlds[n].app.current.value.value, worlds[n].journal;
      ToClaim(app, event) <==> app.deployEnabled && journal[|journal| - 1] != Claimed(Outcome(app.revision, event))
  {
    RunIsConsistent(worlds, events, n);
    var app, journal := worlds[n].app.current.value.value, worlds[n].journal;
    var last := journal[|journal| - 1];
    LastMarkIsOfItsRevision(journal, Outcome(app.revision, event), k, |journal| - 1);
    assert app.state == Mark(app.revision, last.outcome.event);
    assert HasPrefix(app.state, app.revision + ":");
    if last.outcome.event != event {
      MarksDiffer(app.revision, last.outcome.event, event);
    }
  }
}
