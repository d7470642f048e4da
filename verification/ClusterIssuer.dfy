/**
 * Who decides what the cluster-wide letsencrypt-prod ClusterIssuer says (internal/controller/cluster_issuer.go).
 * Any number of GeassClusters share the one issuer. Each pass of one of them reads it, perhaps long ago, asks whether
 * the cluster that owns it still exists, and then writes under the version check.
 */
module ClusterIssuer {
  import opened Wrappers
  import opened ApiServer
  import Text

  const LABEL_MANAGED_BY := "geass.dev/managed-by"
  const MANAGED_BY_VALUE := "geass"
  const LABEL_CLUSTER := "geass.dev/cluster"

  const ACME_SERVER := "https://acme-v02.api.letsencrypt.org/directory"
  const ACCOUNT_KEY_SECRET := "letsencrypt-prod-account-key"
  const INGRESS_CLASS := "traefik"

  /** The fields of spec.acme that Geass sets, compares and writes. */
  const MANAGED_FIELDS := ["email", "server", "privateKeySecretRef", "solvers"]

  /** How soon to look again, in seconds, while the issuer is not usable. */
  const RETRY := 30

  /** spec.acme: fields by name, or something that is not a map and cannot be written into. */
  datatype Acme = Malformed | Fields(values: map<string, string>)

  datatype ReadyReport = ReadyReport(status: string, message: string)

  datatype Issuer = Issuer(labels: map<string, string>, acme: Acme, ready: Option<ReadyReport>) {

    predicate Managed()
    {
      Lookup(labels, LABEL_MANAGED_BY) == MANAGED_BY_VALUE
    }

    function Owner(): string
    {
      Lookup(labels, LABEL_CLUSTER)
    }
  }

  datatype Cluster = Cluster(name: string, acmeEmail: string) {

    function Email(): string
    {
      Text.TrimSpace(acmeEmail)
    }
  }

  /** The issuer asks Let's Encrypt, for a contact address, with Geass's account key and through Traefik: each in its own field. */
  predicate SaysFor(issuer: Issuer, email: string)
  {
    && issuer.acme.Fields?
    && Field(issuer.acme, "email") == Some(email)
    && Field(issuer.acme, "server") == Some("https://acme-v02.api.letsencrypt.org/directory")
    && Field(issuer.acme, "privateKeySecretRef") == Some("letsencrypt-prod-account-key")
    && Field(issuer.acme, "solvers") == Some("traefik")
  }

  /** The mark and the owner's name, and no other label. */
  predicate Labelled(issuer: Issuer, owner: string)
  {
    issuer.labels == map["geass.dev/managed-by" := "geass", "geass.dev/cluster" := owner]
  }

  /** Every field but those four is the same, and so is what cert-manager reported. */
  ghost predicate OtherwiseSame(before: Issuer, after: Issuer)
  {
    && (forall f :: f !in {"email", "server", "privateKeySecretRef", "solvers"} ==> Field(after.acme, f) == Field(before.acme, f))
    && after.ready == before.ready
  }

  /** The issuer Geass wants for a contact address and an owner. */
  function Desired(email: string, owner: string): (issuer: Issuer)
    ensures issuer.Managed() && issuer.Owner() == owner
    ensures issuer.acme.Fields? && forall f :: f in MANAGED_FIELDS <==> f in issuer.acme.values
    ensures SaysFor(issuer, email) && Labelled(issuer, owner) && issuer.ready.None?
  {
    Issuer(
      map[LABEL_MANAGED_BY := MANAGED_BY_VALUE, LABEL_CLUSTER := owner],
      Fields(map[
               "email" := email, "server" := ACME_SERVER,
               "privateKeySecretRef" := ACCOUNT_KEY_SECRET, "solvers" := INGRESS_CLASS]),
      None)
  }

  function Field(acme: Acme, name: string): Option<string>
  {
    if acme.Fields? && name in acme.values then Some(acme.values[name]) else None
  }

  predicate SpecCurrent(existing: Issuer, desired: Issuer)
  {
    forall f :: f in MANAGED_FIELDS ==> Field(existing.acme, f) == Field(desired.acme, f)
  }

  /** What a merge leaves: the wanted fields, and every other field as it was. */
  function Merged(existing: Issuer, desired: Issuer): (merged: Issuer)
    requires existing.acme.Fields? && desired.acme.Fields?
    ensures desired.acme.values.Keys == (set f | f in MANAGED_FIELDS) ==> SpecCurrent(merged, desired)
  {
    existing.(acme := Fields(existing.acme.values + desired.acme.values))
  }

  method MergeClusterIssuerSpec(existing: Issuer, desired: Issuer) returns (merged: Result<Issuer, ApiError>)
    requires desired.acme.Fields? && forall f :: f in MANAGED_FIELDS <==> f in desired.acme.values
    ensures merged == if existing.acme.Malformed? then Err(Unavailable) else Ok(Merged(existing, desired))
  {
    if existing.acme.Malformed? {
      return Err(Unavailable);
    }
    var values := existing.acme.values;
    for k := 0 to |MANAGED_FIELDS|
      invariant forall f :: f in MANAGED_FIELDS[..k] ==> f in values && values[f] == desired.acme.values[f]
      invariant forall f :: f !in MANAGED_FIELDS[..k] ==> Field(Fields(values), f) == Field(existing.acme, f)
    {
      values := values[MANAGED_FIELDS[k] := desired.acme.values[MANAGED_FIELDS[k]]];
    }
    assert MANAGED_FIELDS[..|MANAGED_FIELDS|] == MANAGED_FIELDS;
    assert values == existing.acme.values + desired.acme.values by {
      forall f ensures Field(Fields(values), f) == Field(Fields(existing.acme.values + desired.acme.values), f) {
        if f in MANAGED_FIELDS {
        } else {
          assert Field(Fields(values), f) == Field(existing.acme, f);
        }
      }
      SameFields(values, existing.acme.values + desired.acme.values);
    }
    return Ok(existing.(acme := Fields(values)));
  }

  lemma SameFields(a: map<string, string>, b: map<string, string>)
    requires forall f :: Field(Fields(a), f) == Field(Fields(b), f)
    ensures a == b
  {
    forall f ensures f in a <==> f in b {
      assert Field(Fields(a), f) == Field(Fields(b), f);
    }
    forall f | f in a ensures a[f] == b[f] {
      assert Field(Fields(a), f) == Field(Fields(b), f);
    }
  }

  // ----- what a pass reports

  datatype Reason =
    | IssuerReady
    | ExternallyManaged
    | ManagedByAnotherCluster(owner: string)
    | IssuerRegistering
    | IssuerNotReady(reported: string)
    | ACMEEmailMissing
    | WaitingForCertManager
    | IssuerApplyFailed(verb: string)
    | IssuerAccessDenied

  /** Unknown leaves the condition as it was. */
  datatype Outcome =
    | Unknown(requeue: nat)
    | Report(status: bool, reason: Reason, requeue: nat)

  function ClusterIssuerState(issuer: Issuer, readyReason: Reason): Outcome
  {
    match issuer.ready
    case None => Report(false, IssuerRegistering, RETRY)
    case Some(report) =>
      if report.status != "True" then Report(false, IssuerNotReady(report.message), RETRY)
      else Report(true, readyReason, 0)
  }

  function AccessDenied(): Outcome
  {
    Report(false, IssuerAccessDenied, RETRY)
  }

  function ApplyFailed(verb: string, error: ApiError): Outcome
  {
    match error
    case Conflict => Unknown(RETRY)
    case AlreadyExists => Unknown(RETRY)
    case Forbidden => AccessDenied()
    case _ => Report(false, IssuerApplyFailed(verb), RETRY)
  }

  // ----- one pass

  /** What reading the issuer gave. */
  datatype Read = Absent | Present(copy: Versioned<Issuer>) | NoSuchKind | ReadForbidden | ReadFailed

  /** What looking up the owner the copy names gave. */
  datatype OwnerLookup = OwnerFound | OwnerNotFound | LookupFailed

  function OtherOwnerOf(cluster: Cluster, issuer: Issuer, lookup: OwnerLookup): (owner: string)
    ensures owner == "" <==> !issuer.Managed() || issuer.Owner() in {"", cluster.name} || lookup == OwnerNotFound
    ensures owner != "" ==> owner == issuer.Owner()
  {
    if !issuer.Managed() || issuer.Owner() == "" || issuer.Owner() == cluster.name || lookup.OwnerNotFound? then ""
    else issuer.Owner()
  }

  datatype Plan = Say(outcome: Outcome) | MakeIssuer(issuer: Issuer) | WriteIssuer(version: nat, issuer: Issuer)

  /** What a pass decides from its copy and its lookup, before it writes. */
  function PlanOf(cluster: Cluster, certManagerReady: bool, read: Read, lookup: OwnerLookup): Plan
  {
    if !certManagerReady then Say(Report(false, WaitingForCertManager, RETRY)) else
    match read
    case NoSuchKind => Say(Report(false, WaitingForCertManager, RETRY))
    case ReadForbidden => Say(AccessDenied())
    case ReadFailed => Say(Unknown(RETRY))
    case Absent =>
      if cluster.Email() == "" then Say(Report(false, ACMEEmailMissing, 0))
      else MakeIssuer(Desired(cluster.Email(), cluster.name))
    case Present(Versioned(version, existing)) =>
      var other := OtherOwnerOf(cluster, existing, lookup);
      var desired := Desired(cluster.Email(), cluster.name);
      if !existing.Managed() then Say(ClusterIssuerState(existing, ExternallyManaged))
      else if other != "" then Say(ClusterIssuerState(existing, ManagedByAnotherCluster(other)))
      else if cluster.Email() == "" then Say(ClusterIssuerState(existing, IssuerReady))
      else if SpecCurrent(existing, desired) && existing.Owner() == cluster.name then Say(ClusterIssuerState(existing, IssuerReady))
      else if existing.acme.Malformed? then Say(ApplyFailed("update", Unavailable))
      else WriteIssuer(version, Merged(existing, desired).(labels := desired.labels))
  }

  /** Carrying a plan out against the server as it is by then. */
  function CarryOut(store: Store<Issuer>, plan: Plan, fate: Fate): (Store<Issuer>, Outcome)
  {
    match plan
    case Say(outcome) => (store, outcome)
    case MakeIssuer(issuer) =>
      var (after, error) := store.Create(issuer, fate);
      (after, if error.Some? then ApplyFailed("create", error.value) else ClusterIssuerState(issuer, IssuerReady))
    case WriteIssuer(version, issuer) =>
      var (after, error) := store.Update(version, issuer, fate);
      var outcome := ClusterIssuerState(issuer, IssuerReady);
      (after,
       if error.Some? then ApplyFailed("update", error.value)
       else if outcome.Report? then outcome.(requeue := RETRY) else outcome)
  }

  /** ensureClusterIssuer, from the copy it read and the answer about the owner to the write. */
  method EnsureClusterIssuer(api: Api<Issuer>, cluster: Cluster, certManagerReady: bool, read: Read, lookup: OwnerLookup, fate: Fate)
    returns (outcome: Outcome)
    modifies api
    ensures (api.store, outcome) == CarryOut(old(api.store), PlanOf(cluster, certManagerReady, read, lookup), fate)
  {
    var waiting := Report(false, WaitingForCertManager, RETRY);
    if !certManagerReady || read.NoSuchKind? {
      return waiting;
    }
    if read.ReadForbidden? {
      return AccessDenied();
    }
    if read.ReadFailed? {
      return Unknown(RETRY);
    }
    var email := cluster.Email();
    var desired := Desired(email, cluster.name);
    if read.Absent? {
      if email == "" {
        return Report(false, ACMEEmailMissing, 0);
      }
      var error := api.Create(desired, fate);
      if error.Some? {
        return ApplyFailed("create", error.value);
      }
      return ClusterIssuerState(desired, IssuerReady);
    }
    var existing := read.copy.value;
    var otherOwner := OtherOwnerOf(cluster, existing, lookup);
    if !existing.Managed() {
      return ClusterIssuerState(existing, ExternallyManaged);
    }
    if otherOwner != "" {
      return ClusterIssuerState(existing, ManagedByAnotherCluster(otherOwner));
    }
    if email == "" {
      return ClusterIssuerState(existing, IssuerReady);
    }
    if !SpecCurrent(existing, desired) || existing.Owner() != cluster.name {
      var merged := MergeClusterIssuerSpec(existing, desired);
      if merged.Err? {
        return ApplyFailed("update", merged.error);
      }
      existing := merged.value.(labels := desired.labels);
      var error := api.Update(read.copy.version, existing, fate);
      if error.Some? {
        return ApplyFailed("update", error.value);
      }
      outcome := ClusterIssuerState(existing, IssuerReady);
      outcome := outcome.(requeue := RETRY);
      return;
    }
    return ClusterIssuerState(existing, IssuerReady);
  }

  // ----- runs

  /** The issuer, and the ACME address of each GeassCluster of the namespace. */
  datatype World = World(issuer: Store<Issuer>, clusters: map<string, string>)

  /**
   * A pass is recorded where its write falls. Its copy is the issuer of an earlier state, and its lookup was asked
   * after that, was answered from a state no later than the asking (a cache may lag), or was not answered. Everything
   * anyone else does is Others.
   */
  datatype Event =
    | Pass(cluster: Cluster, certManagerReady: bool, readAt: nat, askedAt: nat, seenAt: nat, answered: bool, fate: Fate)
    | Others

  ghost function CopyOf(store: Store<Issuer>): Read
  {
    if store.current.None? then Absent else Present(store.current.value)
  }

  ghost function AnswerAt(worlds: seq<World>, e: Event): OwnerLookup
    requires e.Pass? && e.readAt < |worlds| && e.seenAt < |worlds|
  {
    var copy := worlds[e.readAt].issuer.current;
    if !e.answered || copy.None? then LookupFailed
    else if copy.value.value.Owner() in worlds[e.seenAt].clusters then OwnerFound
    else OwnerNotFound
  }

  ghost function PassPlan(worlds: seq<World>, e: Event): Plan
    requires e.Pass? && e.readAt < |worlds| && e.seenAt < |worlds|
  {
    PlanOf(e.cluster, e.certManagerReady, CopyOf(worlds[e.readAt].issuer), AnswerAt(worlds, e))
  }

  ghost predicate Step(worlds: seq<World>, i: nat, e: Event)
    requires i + 1 < |worlds|
  {
    match e
    case Others => Evolves(worlds[i].issuer, worlds[i + 1].issuer)
    case Pass(cluster, _, readAt, askedAt, seenAt, _, fate) =>
      && readAt <= askedAt <= i && seenAt <= askedAt
      && worlds[i + 1].clusters == worlds[i].clusters
      && worlds[i + 1].issuer == CarryOut(worlds[i].issuer, PassPlan(worlds, e), fate).0
  }

  ghost predicate Run(worlds: seq<World>, events: seq<Event>)
  {
    && |worlds| == |events| + 1
    && worlds[0].issuer.Valid()
    && forall i :: 0 <= i < |events| ==> Step(worlds, i, events[i])
  }

  ghost predicate Wrote(worlds: seq<World>, events: seq<Event>, i: nat)
    requires Run(worlds, events) && i < |events|
  {
    events[i].Pass? && worlds[i + 1].issuer != worlds[i].issuer
  }

  ghost function Issuers(worlds: seq<World>): (stores: seq<Store<Issuer>>)
    ensures |stores| == |worlds|
  {
    seq(|worlds|, i requires 0 <= i < |worlds| => worlds[i].issuer)
  }

  lemma {:induction false} RunIsHistory(worlds: seq<World>, events: seq<Event>)
    requires Run(worlds, events)
    ensures History(Issuers(worlds))
    decreases |events|
  {
    var n := |events|;
    if n > 0 {
      var worlds', events' := worlds[..n], events[..n - 1];
      forall i | 0 <= i < n - 1 ensures Step(worlds', i, events'[i]) {
        assert Step(worlds, i, events[i]);
      }
      RunIsHistory(worlds', events');
      assert Step(worlds, n - 1, events[n - 1]);
      assert Issuers(worlds')[n - 1].Valid();
      HistoryGrows(Issuers(worlds'), worlds[n].issuer);
      assert Issuers(worlds) == Issuers(worlds') + [worlds[n].issuer];
    }
  }

  /** A write that lands found the issuer exactly as the pass had read it. */
  lemma WriteSawThePresent(worlds: seq<World>, events: seq<Event>, i: nat)
    requires Run(worlds, events) && i < |events| && Wrote(worlds, events, i)
    ensures worlds[events[i].readAt].issuer.current == worlds[i].issuer.current
    ensures !PassPlan(worlds, events[i]).Say?
    ensures worlds[i + 1].issuer == worlds[i].issuer.Put(PassPlan(worlds, events[i]).issuer)
  {
    RunIsHistory(worlds, events);
    var e := events[i];
    assert Step(worlds, i, e);
    var stores := Issuers(worlds);
    if worlds[e.readAt].issuer.current.Some? {
      VersionNamesContent(stores, e.readAt, i);
    }
  }

  /** An issuer that does not carry Geass's mark is never changed by a pass, whatever happened since the pass read. */
  lemma ForeignIssuerIsLeftAlone(worlds: seq<World>, events: seq<Event>, i: nat)
    requires Run(worlds, events) && i < |events| && events[i].Pass?
    requires worlds[i].issuer.current.Some? && !worlds[i].issuer.current.value.value.Managed()
    ensures worlds[i + 1].issuer == worlds[i].issuer
  {
    if Wrote(worlds, events, i) {
      WriteSawThePresent(worlds, events, i);
      assert false;
    }
  }

  /** A lost race changes nothing, says nothing and is tried again. */
  lemma LostRaceIsUnknown(worlds: seq<World>, events: seq<Event>, i: nat)
    requires Run(worlds, events) && i < |events| && events[i].Pass? && events[i].fate.Delivered?
    requires !PassPlan(worlds, events[i]).Say?
    requires worlds[i].issuer.current.Some? && worlds[i].issuer.current != worlds[events[i].readAt].issuer.current
    ensures CarryOut(worlds[i].issuer, PassPlan(worlds, events[i]), events[i].fate) == (worlds[i].issuer, Unknown(RETRY))
  {
    RunIsHistory(worlds, events);
    var e := events[i];
    assert Step(worlds, i, e);
    if worlds[e.readAt].issuer.current.Some? {
      LaterIsNewer(Issuers(worlds), e.readAt, i);
    }
  }

  /**
   * The issuer passes from one cluster to another only when the old owner was missing from the state the new owner's
   * lookup was answered from, which was asked between its read and its write, and only to a cluster with an address.
   */
  lemma TakeoverNeedsAVanishedOwner(worlds: seq<World>, events: seq<Event>, i: nat)
    requires Run(worlds, events) && i < |events| && events[i].Pass?
    requires worlds[i].issuer.current.Some? && worlds[i + 1].issuer.current.Some?
    requires worlds[i].issuer.current.value.value.Owner() != ""
    requires worlds[i].issuer.current.value.value.Owner() != worlds[i + 1].issuer.current.value.value.Owner()
    ensures
      var e := events[i];
      && e.readAt <= e.askedAt <= i && e.answered
      && worlds[i].issuer.current.value.value.Owner() !in worlds[e.seenAt].clusters
      && worlds[i + 1].issuer.current.value.value.Owner() == e.cluster.name
      && e.cluster.Email() != ""
  {
    assert Step(worlds, i, events[i]);
    WriteSawThePresent(worlds, events, i);
  }

  // ----- clusters that hold still

  /** Nobody but the passes and cert-manager's own reports touches the issuer, and the clusters keep their addresses. */
  ghost predicate HeldStill(worlds: seq<World>, events: seq<Event>)
    requires Run(worlds, events)
  {
    && (forall i :: 0 <= i < |worlds| ==> SameClusters(worlds, i))
    && (forall i :: 0 <= i < |events| ==> StillAt(worlds, events, i))
  }

  ghost predicate SameClusters(worlds: seq<World>, i: nat)
    requires i < |worlds|
  {
    worlds[i].clusters == worlds[0].clusters
  }

  ghost predicate StillAt(worlds: seq<World>, events: seq<Event>, i: nat)
    requires |worlds| == |events| + 1 && i < |events|
  {
    match events[i]
    case Pass(cluster, _, _, _, _, _, _) => cluster.name in worlds[0].clusters && worlds[0].clusters[cluster.name] == cluster.acmeEmail
    case Others => SameButReady(worlds[i].issuer, worlds[i + 1].issuer)
  }

  ghost predicate SameButReady(before: Store<Issuer>, after: Store<Issuer>)
  {
    match (before.current, after.current)
    case (None, None) => true
    case (Some(b), Some(a)) => a.value.(ready := b.value.ready) == b.value
    case _ => false
  }

  /** Somebody's own issuer, or one that is as its living owner wants it (or whose owner wants nothing). */
  ghost predicate Settled(w: World)
  {
    && w.issuer.current.Some?
    && var issuer := w.issuer.current.value.value;
       (issuer.Managed() ==>
          && issuer.Owner() != "" && issuer.Owner() in w.clusters
          && var owner := Cluster(issuer.Owner(), w.clusters[issuer.Owner()]);
             (owner.Email() != "" ==> SaysFor(issuer, owner.Email())))
  }

  /** Being current is having the four fields as wanted. */
  lemma CurrentIsByField(issuer: Issuer, email: string, owner: string)
    ensures SpecCurrent(issuer, Desired(email, owner)) <==> SaysFor(issuer, email)
  {
    var desired := Desired(email, owner);
    assert MANAGED_FIELDS[0] == "email" && MANAGED_FIELDS[1] == "server" && MANAGED_FIELDS[2] == "privateKeySecretRef" && MANAGED_FIELDS[3] == "solvers";
    if SpecCurrent(issuer, desired) {
      assert "email" in MANAGED_FIELDS && "server" in MANAGED_FIELDS && "privateKeySecretRef" in MANAGED_FIELDS && "solvers" in MANAGED_FIELDS;
    }
  }

  lemma MergedByField(existing: Issuer, email: string, owner: string)
    requires existing.acme.Fields?
    ensures SaysFor(Merged(existing, Desired(email, owner)), email) && OtherwiseSame(existing, Merged(existing, Desired(email, owner)))
  {
    var desired := Desired(email, owner);
    forall f | f !in {"email", "server", "privateKeySecretRef", "solvers"} ensures f !in desired.acme.values {
      assert f !in MANAGED_FIELDS;
    }
    assert "email" in desired.acme.values && "server" in desired.acme.values;
    assert "privateKeySecretRef" in desired.acme.values && "solvers" in desired.acme.values;
  }

  /** What a pass plans to write, by field. */
  lemma PlanByField(cluster: Cluster, certManagerReady: bool, read: Read, lookup: OwnerLookup)
    ensures
      var plan := PlanOf(cluster, certManagerReady, read, lookup);
      !plan.Say? ==>
        && SaysFor(plan.issuer, Text.TrimSpace(cluster.acmeEmail)) && Text.TrimSpace(cluster.acmeEmail) != "" && Labelled(plan.issuer, cluster.name)
        && (plan.MakeIssuer? ==> read.Absent? && plan.issuer.ready.None? && forall f :: f !in {"email", "server", "privateKeySecretRef", "solvers"} ==> Field(plan.issuer.acme, f) == None)
        && (plan.WriteIssuer? ==> read.Present? && read.copy.version == plan.version && OtherwiseSame(read.copy.value, plan.issuer))
  {
    if read.Present? && read.copy.value.acme.Fields? {
      MergedByField(read.copy.value, cluster.Email(), cluster.name);
    }
    forall f | f !in {"email", "server", "privateKeySecretRef", "solvers"} ensures Field(Desired(cluster.Email(), cluster.name).acme, f) == None {
      assert f !in MANAGED_FIELDS;
    }
  }

  /**
   * After any pass of any run whose write lands, the issuer asks Let's Encrypt for the cluster's trimmed address, key and
   * solver, is marked and owned, and is otherwise as the pass read it.
   */
  lemma LandedWriteByField(worlds: seq<World>, events: seq<Event>, i: nat)
    requires Run(worlds, events) && i < |events| && Wrote(worlds, events, i)
    ensures
      var before, after := worlds[i].issuer.current, worlds[i + 1].issuer.current;
      && after.Some?
      && SaysFor(after.value.value, Text.TrimSpace(events[i].cluster.acmeEmail)) && Labelled(after.value.value, events[i].cluster.name)
      && (if before.Some? then OtherwiseSame(before.value.value, after.value.value)
          else forall f :: f !in {"email", "server", "privateKeySecretRef", "solvers"} ==> Field(after.value.value.acme, f) == None)
  {
    WriteSawThePresent(worlds, events, i);
    assert Step(worlds, i, events[i]);
    var e := events[i];
    PlanByField(e.cluster, e.certManagerReady, CopyOf(worlds[e.readAt].issuer), AnswerAt(worlds, e));
  }

  lemma WriteSettles(worlds: seq<World>, events: seq<Event>, i: nat)
    requires Run(worlds, events) && HeldStill(worlds, events) && i < |events| && Wrote(worlds, events, i)
    requires events[i].cluster.name != ""
    ensures Settled(worlds[i + 1])
  {
    LandedWriteByField(worlds, events, i);
    assert Step(worlds, i, events[i]);
    assert StillAt(worlds, events, i) && SameClusters(worlds, i) && SameClusters(worlds, i + 1);
    assert worlds[i + 1].issuer.current.value.value.Owner() == events[i].cluster.name;
  }

  lemma SettledStays(worlds: seq<World>, events: seq<Event>, i: nat)
    requires Run(worlds, events) && HeldStill(worlds, events) && i < |events|
    requires Settled(worlds[i])
    ensures Settled(worlds[i + 1]) && !Wrote(worlds, events, i)
  {
    assert Step(worlds, i, events[i]);
    assert StillAt(worlds, events, i) && SameClusters(worlds, i) && SameClusters(worlds, i + 1);
    if Wrote(worlds, events, i) {
      assert SameClusters(worlds, events[i].seenAt);
      CurrentIsByField(worlds[i].issuer.current.value.value, events[i].cluster.Email(), events[i].cluster.name);
      WriteSawThePresent(worlds, events, i);
      assert false;
    }
  }

  lemma {:induction false} SettledForGood(worlds: seq<World>, events: seq<Event>, i: nat, j: nat)
    requires Run(worlds, events) && HeldStill(worlds, events) && i <= j <= |events|
    requires Settled(worlds[i])
    ensures Settled(worlds[j])
    decreases j
  {
    if i < j {
      SettledForGood(worlds, events, i, j - 1);
      SettledStays(worlds, events, j - 1);
    }
  }

  lemma NoWriteAfterAWrite(worlds: seq<World>, events: seq<Event>, i: nat, j: nat)
    requires Run(worlds, events) && HeldStill(worlds, events)
    requires i < j < |events| && Wrote(worlds, events, i) && events[i].cluster.name != ""
    ensures !Wrote(worlds, events, j)
  {
    WriteSettles(worlds, events, i);
    SettledForGood(worlds, events, i + 1, j);
    SettledStays(worlds, events, j);
  }

  lemma PassesAreNamed(worlds: seq<World>, events: seq<Event>, i: nat)
    requires Run(worlds, events) && HeldStill(worlds, events) && "" !in worlds[0].clusters
    requires i < |events| && events[i].Pass?
    ensures events[i].cluster.name != ""
  {
    assert StillAt(worlds, events, i);
  }

  /**
   * With the clusters and their addresses held still, however many passes of however many clusters interleave, and
   * whatever the issuer was to begin with, at most one of them writes it: clusters that disagree never undo each other.
   */
  lemma AtMostOneWrite(worlds: seq<World>, events: seq<Event>, i: nat, j: nat)
    requires Run(worlds, events) && HeldStill(worlds, events)
    requires "" !in worlds[0].clusters
    requires i < |events| && j < |events| && Wrote(worlds, events, i) && Wrote(worlds, events, j)
    ensures i == j
  {
    PassesAreNamed(worlds, events, i);
    PassesAreNamed(worlds, events, j);
    if i < j {
      NoWriteAfterAWrite(worlds, events, i, j);
    } else if j < i {
      NoWriteAfterAWrite(worlds, events, j, i);
    }
  }

  /** And one undisturbed pass by a cluster that may have the issuer is enough to settle it. */
  lemma UndisturbedPassSettles(w: World, cluster: Cluster)
    requires w.issuer.Valid()
    requires cluster.name in w.clusters && w.clusters[cluster.name] == cluster.acmeEmail
    requires cluster.name != "" && cluster.Email() != ""
    requires w.issuer.current.Some? ==>
               && w.issuer.current.value.value.acme.Fields?
               && (w.issuer.current.value.value.Owner() == cluster.name || w.issuer.current.value.value.Owner() !in w.clusters)
    ensures
      var plan := PlanOf(cluster, true, CopyOf(w.issuer), OwnerNotFound);
      Settled(w.(issuer := CarryOut(w.issuer, plan, Delivered).0))
  {
    PlanByField(cluster, true, CopyOf(w.issuer), OwnerNotFound);
    if w.issuer.current.Some? {
      CurrentIsByField(w.issuer.current.value.value, cluster.Email(), cluster.name);
    }
  }

  // ----- what is reported

  /** cert-manager says that the issuer works. */
  predicate Works(issuer: Issuer)
  {
    issuer.ready.Some? && issuer.ready.value.status == "True"
  }

  /** Whose an issuer is that a pass leaves in place, for the report. */
  ghost predicate WhoseIs(cluster: Cluster, issuer: Issuer, lookup: OwnerLookup, reason: Reason)
  {
    if Lookup(issuer.labels, "geass.dev/managed-by") != "geass" then reason == ExternallyManaged
    else
      var owner := Lookup(issuer.labels, "geass.dev/cluster");
      if owner != "" && owner != cluster.name && lookup != OwnerNotFound then reason == ManagedByAnotherCluster(owner) else reason == IssuerReady
  }

  /** The issuer is the cluster's to write, but cannot be written into. */
  ghost predicate Unwritable(cluster: Cluster, issuer: Issuer, lookup: OwnerLookup)
  {
    WhoseIs(cluster, issuer, lookup, IssuerReady) && Text.TrimSpace(cluster.acmeEmail) != "" && issuer.acme.Malformed?
  }

  /**
   * A pass reports that certificates can be issued if and only if it found cert-manager up and an issuer that cert-manager
   * says works, and either left it in place or got its write through.
   */
  lemma ReportsReadyExactlyWhen(store: Store<Issuer>, cluster: Cluster, certManagerReady: bool, read: Read, lookup: OwnerLookup, fate: Fate)
    ensures
      var plan := PlanOf(cluster, certManagerReady, read, lookup);
      var outcome := CarryOut(store, plan, fate).1;
      outcome.Report? && outcome.status <==>
      && certManagerReady && read.Present? && Works(read.copy.value)
      && (if plan.WriteIssuer? then store.Update(plan.version, plan.issuer, fate).1.None? else !Unwritable(cluster, read.copy.value, lookup))
  {
    if read.Present? {
      WhoseAgrees(cluster, read.copy.value, lookup);
      PlanByField(cluster, certManagerReady, read, lookup);
      CurrentIsByField(read.copy.value, cluster.Email(), cluster.name);
    }
  }

  lemma WhoseAgrees(cluster: Cluster, issuer: Issuer, lookup: OwnerLookup)
    ensures WhoseIs(cluster, issuer, lookup, ExternallyManaged) <==> !issuer.Managed()
    ensures WhoseIs(cluster, issuer, lookup, IssuerReady) <==> issuer.Managed() && OtherOwnerOf(cluster, issuer, lookup) == ""
    ensures issuer.Managed() && OtherOwnerOf(cluster, issuer, lookup) != "" ==>
              WhoseIs(cluster, issuer, lookup, ManagedByAnotherCluster(OtherOwnerOf(cluster, issuer, lookup)))
  {
  }

  /** Such a report says whose the issuer is, and that it is looked at again soon only after a write. */
  lemma ReadyReportSaysWhose(store: Store<Issuer>, cluster: Cluster, certManagerReady: bool, read: Read, lookup: OwnerLookup, fate: Fate)
    requires CarryOut(store, PlanOf(cluster, certManagerReady, read, lookup), fate).1.Report?
    requires CarryOut(store, PlanOf(cluster, certManagerReady, read, lookup), fate).1.status
    ensures
      var plan := PlanOf(cluster, certManagerReady, read, lookup);
      var outcome := CarryOut(store, plan, fate).1;
      read.Present? && WhoseIs(cluster, read.copy.value, lookup, outcome.reason) && outcome.requeue == if plan.WriteIssuer? then 30 else 0
  {
    ReportsReadyExactlyWhen(store, cluster, certManagerReady, read, lookup, fate);
    WhoseAgrees(cluster, read.copy.value, lookup);
  }

  /** Why certificates cannot be issued: what each cause is reported as, and that all but a missing address are tried again soon. */
  lemma ReportsWhyNot(store: Store<Issuer>, cluster: Cluster, read: Read, lookup: OwnerLookup, fate: Fate)
    ensures CarryOut(store, PlanOf(cluster, false, read, lookup), fate).1 == Report(false, WaitingForCertManager, 30)
    ensures
      var outcome := CarryOut(store, PlanOf(cluster, true, read, lookup), fate).1;
      && (read.NoSuchKind? ==> outcome == Report(false, WaitingForCertManager, 30))
      && (read.ReadForbidden? ==> outcome == Report(false, IssuerAccessDenied, 30))
      && (read.ReadFailed? ==> outcome == Unknown(30))
      && (read.Absent? && Text.TrimSpace(cluster.acmeEmail) == "" ==> outcome == Report(false, ACMEEmailMissing, 0))
      && (read.Present? && PlanOf(cluster, true, read, lookup).Say? && read.copy.value.ready.None? && read.copy.value.acme.Fields? ==> outcome == Report(false, IssuerRegistering, 30))
      && (read.Present? && PlanOf(cluster, true, read, lookup).Say? && read.copy.value.ready.Some? && !Works(read.copy.value) && read.copy.value.acme.Fields? ==>
            outcome == Report(false, IssuerNotReady(read.copy.value.ready.value.message), 30))
      && (!PlanOf(cluster, true, read, lookup).Say? && fate == Refused(Forbidden) ==> outcome == Report(false, IssuerAccessDenied, 30))
      && (!PlanOf(cluster, true, read, lookup).Say? && fate == ReplyLost ==>
            outcome == Report(false, IssuerApplyFailed(if read.Absent? then "create" else "update"), 30))
  {
  }
}
