/**
 * The seven rules by the fields of the resources alone: what a person has to look for in a cluster to know what is wrong.
 * Nothing here is shared with the evaluation; the lemmas say that it finds exactly this.
 */
module AlertingRules {
  import opened Wrappers
  import opened Text
  import opened Alerting
  import opened AlertingKeys
  import opened AlertingOrder
  import opened AlertingSpec

  // ----- the rules

  /** The first condition of a type. */
  ghost predicate First(conditions: seq<Condition>, kind: string, c: Condition)
  {
    exists i :: 0 <= i < |conditions| && conditions[i] == c && c.kind == kind && forall j :: 0 <= j < i ==> conditions[j].kind != kind
  }

  ghost predicate Says(conditions: seq<Condition>, kind: string, status: string)
  {
    exists c :: First(conditions, kind, c) && c.status == status
  }

  /** One that people are told about: not going away, and not a pull request's copy. */
  predicate Told(meta: Meta)
  {
    !meta.deleting && meta.pullRequest == ""
  }

  predicate Blank(s: string)
  {
    forall c :: c in s ==> IsSpace(c)
  }

  predicate ShownAs(meta: Meta, text: string)
  {
    text == if Blank(meta.displayName) then meta.name else TrimSpace(meta.displayName)
  }

  predicate SeverityIn(environment: string, severity: Severity)
  {
    severity.Critical? <==> environment == "production"
  }

  /** What a project is called: by its display name, or else its name; and nothing when there is no such project. */
  ghost predicate ProjectCalled(s: Snapshot, project: string, text: string)
  {
    || (exists p :: p in s.projects && p.name == project && Calls(p, text))
    || (text == "" && forall p :: p in s.projects ==> p.name != project)
  }

  predicate Calls(p: Project, text: string)
  {
    text == if !Blank(p.displayName) then p.displayName else if !Blank(p.name) then p.name else ""
  }

  ghost predicate BuildFails(s: Snapshot, p: Problem)
  {
    exists build, app ::
      && build in s.builds && app in s.apps && build.app == app.meta.name
      && build.phase == "Failed" && !build.deleting && Told(app.meta) && app.currentBuild in {"", build.name}
      && p.key == "build.failed/" + build.name && p.kind == "build.failed" && p.severity == Warning
      && p.project == build.project && ProjectCalled(s, build.project, p.projectName) && p.environment == build.environment
      && ShownAs(app.meta, p.resource) && p.resourceKind == "service" && p.path == "/projects/" + app.project + "/apps/" + app.meta.name && p.detail == ""
  }

  /** What Geass deploys: a resource of one of five kinds, each with its name in keys and its folder in addresses. */
  datatype Thing = Thing(meta: Meta, project: string, environment: string, kind: string, slug: string, folder: string, conditions: seq<Condition>)

  ghost predicate IsDeployed(s: Snapshot, t: Thing)
  {
    || (exists a :: a in s.apps && a.deployEnabled
                    && t == Thing(a.meta, a.project, a.environment, if a.isFunction then "function" else "service",
                                  if a.isFunction then "function" else "service", "apps", a.conditions))
    || (exists d :: d in s.databases && d.deployEnabled
                    && t == Thing(d.meta, d.project, d.environment, "database", "database", "databases", d.conditions))
    || (exists o :: o in s.objectStores && o.deployEnabled
                    && t == Thing(o.meta, o.project, o.environment, "object store", "object-store", "object-stores", o.conditions))
    || (exists l :: l in s.logicalDatabases
                    && t == Thing(l.meta, l.project, l.environment, "logical database", "logical-database", "logical-databases", l.conditions))
  }

  ghost predicate Unready(t: Thing)
  {
    Told(t.meta) && exists c :: First(t.conditions, "Ready", c) && c.status != "True"
  }

  ghost predicate GivenUp(t: Thing)
  {
    Told(t.meta) && exists c :: First(t.conditions, "Ready", c) && c.status != "True" && c.reason == "ProvisionFailed"
  }

  ghost predicate ThingFails(s: Snapshot, t: Thing, p: Problem)
  {
    && Unready(t) && (GivenUp(t) || p.key in s.open)
    && p.key == "deploy.failed/" + t.slug + "/" + t.meta.name && p.kind == "deploy.failed" && SeverityIn(t.environment, p.severity)
    && p.project == t.project && ProjectCalled(s, t.project, p.projectName) && p.environment == t.environment
    && ShownAs(t.meta, p.resource) && p.resourceKind == t.kind && p.path == "/projects/" + t.project + "/" + t.folder + "/" + t.meta.name && p.detail == ""
  }

  ghost predicate DeployFails(s: Snapshot, p: Problem)
  {
    exists t :: IsDeployed(s, t) && ThingFails(s, t, p)
  }

  ghost predicate Down(s: Snapshot, app: App)
  {
    && app.deployEnabled && Told(app.meta) && app.targetNamespace != "" && Says(app.conditions, "Ready", "True")
    && s.deployments.Some? && (app.targetNamespace, app.meta.name) in s.deployments.value
    && var d := s.deployments.value[(app.targetNamespace, app.meta.name)];
       !d.deleting && d.replicas != Some(0) && d.available <= 0
  }

  ghost predicate ServiceDown(s: Snapshot, p: Problem)
  {
    exists app ::
      && app in s.apps && Down(s, app)
      && p.key == "service.down/" + app.meta.name && p.kind == "service.down" && SeverityIn(app.environment, p.severity)
      && p.project == app.project && ProjectCalled(s, app.project, p.projectName) && p.environment == app.environment
      && ShownAs(app.meta, p.resource) && p.resourceKind == (if app.isFunction then "function" else "service")
      && p.path == "/projects/" + app.project + "/apps/" + app.meta.name && p.detail == ""
  }

  ghost predicate BackupFails(s: Snapshot, p: Problem)
  {
    exists db ::
      && db in s.databases && Told(db.meta) && db.backupState == Some("AtRisk")
      && p.key == "backup.failed/" + db.meta.name && p.kind == "backup.failed" && p.severity == Critical
      && p.project == db.project && ProjectCalled(s, db.project, p.projectName) && p.environment == db.environment
      && ShownAs(db.meta, p.resource) && p.resourceKind == "database" && p.path == "/projects/" + db.project + "/databases/" + db.meta.name && p.detail == ""
  }

  ghost predicate NodeNamed(s: Snapshot, name: string)
  {
    || (exists n :: n in s.geassNodes && n.name == name && !n.deleting && n.phase in {"Failed", "Error"})
    || (exists n :: n in s.kubeNodes && n.name == name && !n.deleting
                    && (exists c :: c in n.conditions && c.kind == "Ready" && c.status != "True")
                    && forall cluster :: cluster in s.clusters && cluster.upgrade.Some? && cluster.upgrade.value.currentNode != "" ==> cluster.upgrade.value.currentNode != name)
  }

  ghost predicate NodeFails(s: Snapshot, p: Problem)
  {
    && NodeNamed(s, p.resource)
    && p == Problem("node.unhealthy/" + p.resource, "node.unhealthy", Critical, "", "", "", p.resource, "node", "/cluster", "")
  }

  /** What can be wrong with a cluster: an upgrade that failed, a provisioning that was given up, and three conditions that are False. */
  ghost predicate Issue(cluster: Cluster, detail: string, severity: Severity)
  {
    || (detail == "upgrade" && severity == Critical && cluster.upgrade.Some? && cluster.upgrade.value.phase == "Failed")
    || (detail == "ready" && severity == Critical
        && exists c :: First(cluster.conditions, "Ready", c) && c.status == "False" && c.reason == "ProvisionFailed")
    || (detail == "issuer" && severity == Warning && Says(cluster.conditions, "ClusterIssuerReady", "False"))
    || (detail == "netpol" && severity == Warning && Says(cluster.conditions, "NetworkPolicyEnforced", "False"))
    || (detail == "snapshots" && severity == Warning
        && exists c :: First(cluster.conditions, "EtcdSnapshotsCurrent", c) && c.status == "False" && c.reason != "WaitingForFirstCopy")
  }

  ghost predicate ClusterFails(s: Snapshot, p: Problem)
  {
    exists cluster ::
      && cluster in s.clusters && !cluster.deleting && Issue(cluster, p.detail, p.severity)
      && p == Problem("cluster.issue/" + p.detail + "/" + cluster.name, "cluster.issue", p.severity, "", "", "", cluster.name, "cluster", "/cluster", p.detail)
  }

  ghost predicate AbusedBy(s: Snapshot, app: App, c: Condition, name: string, p: Problem)
  {
    && !app.meta.deleting && First(app.conditions, "AbuseSuspected", c) && c.status == "True"
    && ProjectCalled(s, app.project, name)
    && p.key == "abuse.suspected/" + app.meta.name && p.kind == "abuse.suspected" && (p.severity.Critical? <==> c.reason == "Suspended")
    && p.project == "" && p.projectName == "" && p.environment == app.environment
    && ShownAs(app.meta, p.resource) && p.resourceKind == (if app.isFunction then "function" else "service")
    && p.path == "/projects/" + app.project + "/apps/" + app.meta.name
    && p.detail == (if !Blank(name) then name else if !Blank(app.project) then app.project else "") + " / " + app.environment
  }

  ghost predicate Abused(s: Snapshot, p: Problem)
  {
    exists app, c, name :: app in s.apps && AbusedBy(s, app, c, name, p)
  }

  ghost predicate IsProblem(s: Snapshot, p: Problem)
  {
    BuildFails(s, p) || DeployFails(s, p) || ServiceDown(s, p) || BackupFails(s, p) || NodeFails(s, p) || ClusterFails(s, p) || Abused(s, p)
  }

  // ----- the helpers of the evaluation say the same

  lemma {:induction false} FindIsFirst(conditions: seq<Condition>, kind: string)
    ensures Find(conditions, kind).Some? ==> First(conditions, kind, Find(conditions, kind).value)
    ensures forall c :: First(conditions, kind, c) ==> Find(conditions, kind) == Some(c)
  {
    if conditions != [] && conditions[0].kind != kind {
      var rest := conditions[1..];
      FindIsFirst(rest, kind);
      if Find(rest, kind).Some? {
        var c := Find(rest, kind).value;
        var i :| 0 <= i < |rest| && rest[i] == c && c.kind == kind && forall j :: 0 <= j < i ==> rest[j].kind != kind;
        assert conditions[i + 1] == c && forall j :: 0 <= j < i + 1 ==> conditions[j].kind != kind by {
          forall j | 0 <= j < i + 1 ensures conditions[j].kind != kind {
            assert j > 0 ==> conditions[j] == rest[j - 1];
          }
        }
      }
      forall c | First(conditions, kind, c) ensures First(rest, kind, c) {
        var i :| 0 <= i < |conditions| && conditions[i] == c && c.kind == kind && forall j :: 0 <= j < i ==> conditions[j].kind != kind;
        assert rest[i - 1] == c;
        forall j | 0 <= j < i - 1 ensures rest[j].kind != kind {
          assert rest[j] == conditions[j + 1];
        }
      }
    } else if conditions != [] {
      assert conditions[0].kind == kind;
    }
  }

  lemma Keys(kind: string, a: string, b: string)
    ensures ProblemKey(kind, [a]) == kind + "/" + a
    ensures ProblemKey(kind, [a, b]) == kind + "/" + a + "/" + b
  {
    assert [a, b][1..] == [b];
    assert Join([a, b]) == a + "/" + b;
    assert kind + "/" + (a + "/" + b) == kind + "/" + a + "/" + b;
  }

  lemma Literals()
    ensures BUILD_FAILED + "/" == "build.failed/" && DEPLOY_FAILED + "/" == "deploy.failed/" && SERVICE_DOWN + "/" == "service.down/"
    ensures BACKUP_FAILED + "/" == "backup.failed/" && NODE_UNHEALTHY + "/" == "node.unhealthy/" && CLUSTER_ISSUE + "/" == "cluster.issue/"
    ensures ABUSE_SUSPECTED + "/" == "abuse.suspected/"
  {
  }

  lemma Paths(project: string, name: string)
    ensures ResourcePath(project, "apps", name) == "/projects/" + project + "/apps/" + name
    ensures ResourcePath(project, "databases", name) == "/projects/" + project + "/databases/" + name
  {
    assert "/" + "apps" + "/" == "/apps/" && "/" + "databases" + "/" == "/databases/";
    assert "/projects/" + project + "/" + "apps" + "/" + name == "/projects/" + project + ("/" + "apps" + "/") + name;
    assert "/projects/" + project + "/" + "databases" + "/" + name == "/projects/" + project + ("/" + "databases" + "/") + name;
  }

  lemma Names(s: Snapshot, meta: Meta, project: string, text: string)
    ensures ShownAs(meta, text) <==> text == DisplayName(meta)
    ensures ProjectCalled(s, project, text) <==> Named(s, project, text)
    ensures Told(meta) <==> !Quiet(meta)
  {
    forall p ensures Calls(p, text) <==> text == FirstNonEmpty(p.displayName, p.name) {
    }
  }

  // ----- rule by rule

  lemma BuildsAre(s: Snapshot, p: Problem)
    ensures BuildFails(s, p) <==> BuildWrong(s, p)
  {
    Literals();
    forall build, app | build in s.builds && app in s.apps
      ensures ShownAs(app.meta, p.resource) <==> p.resource == DisplayName(app.meta)
      ensures ProjectCalled(s, build.project, p.projectName) <==> Named(s, build.project, p.projectName)
      ensures ProblemKey(BUILD_FAILED, [build.name]) == "build.failed/" + build.name
      ensures AppPath(app) == "/projects/" + app.project + "/apps/" + app.meta.name
    {
      Names(s, app.meta, build.project, p.resource);
      Names(s, app.meta, build.project, p.projectName);
      Keys(BUILD_FAILED, build.name, "");
      Paths(app.project, app.meta.name);
    }
  }

  lemma DownsAre(s: Snapshot, p: Problem)
    ensures ServiceDown(s, p) <==> DownWrong(s, p)
  {
    Literals();
    forall app | app in s.apps
      ensures ShownAs(app.meta, p.resource) <==> p.resource == DisplayName(app.meta)
      ensures ProjectCalled(s, app.project, p.projectName) <==> Named(s, app.project, p.projectName)
      ensures ProblemKey(SERVICE_DOWN, [app.meta.name]) == "service.down/" + app.meta.name
      ensures AppPath(app) == "/projects/" + app.project + "/apps/" + app.meta.name
      ensures Down(s, app) <==> NothingAnswers(s.deployments, app)
    {
      Names(s, app.meta, app.project, p.resource);
      Names(s, app.meta, app.project, p.projectName);
      Keys(SERVICE_DOWN, app.meta.name, "");
      Paths(app.project, app.meta.name);
      FindIsFirst(app.conditions, "Ready");
    }
  }

  lemma BackupsAre(s: Snapshot, p: Problem)
    ensures BackupFails(s, p) <==> BackupWrong(s, p)
  {
    Literals();
    forall db | db in s.databases
      ensures ShownAs(db.meta, p.resource) <==> p.resource == DisplayName(db.meta)
      ensures ProjectCalled(s, db.project, p.projectName) <==> Named(s, db.project, p.projectName)
      ensures ProblemKey(BACKUP_FAILED, [db.meta.name]) == "backup.failed/" + db.meta.name
      ensures ResourcePath(db.project, "databases", db.meta.name) == "/projects/" + db.project + "/databases/" + db.meta.name
    {
      Names(s, db.meta, db.project, p.resource);
      Names(s, db.meta, db.project, p.projectName);
      Keys(BACKUP_FAILED, db.meta.name, "");
      Paths(db.project, db.meta.name);
    }
  }

  lemma NodesAre(s: Snapshot, p: Problem)
    ensures NodeFails(s, p) <==> NodeWrong(s, p)
  {
    Literals();
    forall name ensures ProblemKey(NODE_UNHEALTHY, [name]) == "node.unhealthy/" + name {
      Keys(NODE_UNHEALTHY, name, "");
    }
    forall node | node in s.kubeNodes ensures node.name in Upgrading(s.clusters) <==>
        exists c :: c in s.clusters && c.upgrade.Some? && c.upgrade.value.currentNode != "" && c.upgrade.value.currentNode == node.name {
    }
    assert forall c :: SaysNotReady(c) <==> c.kind == "Ready" && c.status != "True";
    assert NodeNamed(s, p.resource) <==>
           || (exists node :: node in s.geassNodes && SetUpFailed(node) && node.name == p.resource)
           || (exists node :: node in s.kubeNodes && NotWorking(Upgrading(s.clusters), node) && node.name == p.resource);
  }

  lemma IssuesAre(cluster: Cluster, detail: string, severity: Severity)
    ensures Issue(cluster, detail, severity) <==> detail in DETAILS && HasIssue(cluster, detail) && severity == IssueSeverity(detail)
  {
    FindIsFirst(cluster.conditions, "Ready");
    FindIsFirst(cluster.conditions, "ClusterIssuerReady");
    FindIsFirst(cluster.conditions, "NetworkPolicyEnforced");
    FindIsFirst(cluster.conditions, "EtcdSnapshotsCurrent");
    assert DETAILS[0] == "upgrade" && DETAILS[1] == "ready" && DETAILS[2] == "issuer" && DETAILS[3] == "netpol" && DETAILS[4] == "snapshots";
  }

  lemma ClustersAre(s: Snapshot, p: Problem)
    ensures ClusterFails(s, p) <==> ClusterWrong(s, p)
  {
    Literals();
    forall cluster | cluster in s.clusters
      ensures Issue(cluster, p.detail, p.severity) <==> p.detail in DETAILS && HasIssue(cluster, p.detail) && p.severity == IssueSeverity(p.detail)
      ensures ProblemKey(CLUSTER_ISSUE, [p.detail, cluster.name]) == "cluster.issue/" + p.detail + "/" + cluster.name
    {
      IssuesAre(cluster, p.detail, p.severity);
      Keys(CLUSTER_ISSUE, p.detail, cluster.name);
    }
  }

  lemma AbusedByIs(s: Snapshot, app: App, c: Condition, name: string, p: Problem)
    ensures AbusedBy(s, app, c, name, p) <==>
            Suspected(app) && Find(app.conditions, "AbuseSuspected") == Some(c) && Named(s, app.project, name) && p == AbuseProblem(app, name)
  {
    Literals();
    Names(s, app.meta, app.project, p.resource);
    Names(s, app.meta, app.project, name);
    Keys(ABUSE_SUSPECTED, app.meta.name, "");
    Paths(app.project, app.meta.name);
    FindIsFirst(app.conditions, "AbuseSuspected");
    if Suspected(app) {
      var q := AbuseProblem(app, name);
      assert q.key == "abuse.suspected/" + app.meta.name && q.path == "/projects/" + app.project + "/apps/" + app.meta.name;
      assert ShownAs(app.meta, p.resource) <==> p.resource == q.resource;
      assert q.detail == (if !Blank(name) then name else if !Blank(app.project) then app.project else "") + " / " + app.environment;
    }
  }

  lemma AbusesAre(s: Snapshot, p: Problem)
    ensures Abused(s, p) <==> AbuseWrong(s, p)
  {
    if app, c, name :| app in s.apps && AbusedBy(s, app, c, name, p) {
      AbusedByIs(s, app, c, name, p);
    }
    if app, name :| app in s.apps && Suspected(app) && Named(s, app.project, name) && p == AbuseProblem(app, name) {
      AbusedByIs(s, app, Find(app.conditions, "AbuseSuspected").value, name, p);
    }
  }

  // ----- what is deployed

  /** A thing as the evaluation gathers it. */
  ghost predicate SameThing(t: Thing, d: Deployed)
  {
    && d.meta == t.meta && d.project == t.project && d.environment == t.environment && d.kind == t.kind && Slug(d.kind) == t.slug
    && d.conditions == t.conditions && d.path == "/projects/" + t.project + "/" + t.folder + "/" + t.meta.name
  }

  lemma Slugs()
    ensures Slug("service") == "service" && Slug("function") == "function" && Slug("database") == "database"
    ensures Slug("object store") == "object-store" && Slug("logical database") == "logical-database"
  {
  }

  lemma ThingIsGathered(s: Snapshot, t: Thing) returns (d: Deployed)
    requires IsDeployed(s, t)
    ensures d in AllDeployed(s) && d.active && SameThing(t, d)
  {
    Slugs();
    if a :| a in s.apps && a.deployEnabled
            && t == Thing(a.meta, a.project, a.environment, if a.isFunction then "function" else "service",
                          if a.isFunction then "function" else "service", "apps", a.conditions) {
      d := OfApp(a);
    } else if b :| b in s.databases && b.deployEnabled
                   && t == Thing(b.meta, b.project, b.environment, "database", "database", "databases", b.conditions) {
      d := OfDatabase(b);
    } else if o :| o in s.objectStores && o.deployEnabled
                   && t == Thing(o.meta, o.project, o.environment, "object store", "object-store", "object-stores", o.conditions) {
      d := OfObjectStore(o);
    } else {
      var l :| l in s.logicalDatabases
               && t == Thing(l.meta, l.project, l.environment, "logical database", "logical-database", "logical-databases", l.conditions);
      d := OfLogicalDatabase(l);
    }
    InAllDeployed(s, d);
  }

  lemma GatheredIsAThing(s: Snapshot, d: Deployed) returns (t: Thing)
    requires d in AllDeployed(s) && d.active
    ensures IsDeployed(s, t) && SameThing(t, d)
  {
    Slugs();
    InAllDeployed(s, d);
    if a :| a in s.apps && OfApp(a) == d {
      var kind := if a.isFunction then "function" else "service";
      t := Thing(a.meta, a.project, a.environment, kind, kind, "apps", a.conditions);
    } else if b :| b in s.databases && OfDatabase(b) == d {
      t := Thing(b.meta, b.project, b.environment, "database", "database", "databases", b.conditions);
    } else if o :| o in s.objectStores && OfObjectStore(o) == d {
      t := Thing(o.meta, o.project, o.environment, "object store", "object-store", "object-stores", o.conditions);
    } else {
      var l :| l in s.logicalDatabases && OfLogicalDatabase(l) == d;
      t := Thing(l.meta, l.project, l.environment, "logical database", "logical-database", "logical-databases", l.conditions);
    }
  }

  lemma SameThingsSameTrouble(t: Thing, d: Deployed)
    requires SameThing(t, d) && d.active
    ensures Unready(t) <==> d.NotReady()
    ensures GivenUp(t) <==> d.GaveUp()
    ensures d.Key() == "deploy.failed/" + t.slug + "/" + t.meta.name
  {
    FindIsFirst(t.conditions, "Ready");
    Keys(DEPLOY_FAILED, t.slug, t.meta.name);
    Literals();
  }

  lemma ThingFailsIs(s: Snapshot, t: Thing, d: Deployed, p: Problem)
    requires SameThing(t, d) && d.active
    ensures ThingFails(s, t, p) <==>
            d.NotReady() && (d.GaveUp() || p.key in s.open) && Named(s, d.project, p.projectName) && p == FailedDeployProblem(d, p.projectName)
  {
    SameThingsSameTrouble(t, d);
    Names(s, t.meta, t.project, p.resource);
    Names(s, t.meta, t.project, p.projectName);
    var q := FailedDeployProblem(d, p.projectName);
    assert q.key == "deploy.failed/" + t.slug + "/" + t.meta.name && q.path == "/projects/" + t.project + "/" + t.folder + "/" + t.meta.name;
    assert SeverityIn(t.environment, p.severity) <==> p.severity == q.severity;
    assert ShownAs(t.meta, p.resource) <==> p.resource == q.resource;
  }

  lemma DeploysAre(s: Snapshot, p: Problem)
    ensures DeployFails(s, p) <==> DeployWrong(s, p)
  {
    if t :| IsDeployed(s, t) && ThingFails(s, t, p) {
      var d := ThingIsGathered(s, t);
      ThingFailsIs(s, t, d, p);
    }
    if d :| d in AllDeployed(s) && d.NotReady() && (d.GaveUp() || p.key in s.open)
            && Named(s, d.project, p.projectName) && p == FailedDeployProblem(d, p.projectName) {
      var t := GatheredIsAThing(s, d);
      ThingFailsIs(s, t, d, p);
    }
  }

  /** The evaluation's own rules and these are the same. */
  lemma RulesAgree(s: Snapshot, p: Problem)
    ensures IsProblem(s, p) <==> Wrong(s, p)
  {
    BuildsAre(s, p);
    DeploysAre(s, p);
    DownsAre(s, p);
    BackupsAre(s, p);
    NodesAre(s, p);
    ClustersAre(s, p);
    AbusesAre(s, p);
  }

  // ----- the latch, by the fields

  /** At a look, a thing of a kind and name had given up, or was at least not Ready. */
  ghost predicate GivenUpAt(s: Snapshot, slug: string, name: string)
  {
    exists t :: IsDeployed(s, t) && t.slug == slug && t.meta.name == name && GivenUp(t)
  }

  ghost predicate UnreadyAt(s: Snapshot, slug: string, name: string)
  {
    exists t :: IsDeployed(s, t) && t.slug == slug && t.meta.name == name && Unready(t)
  }

  lemma LooksAgree(s: Snapshot, slug: string, name: string)
    requires Without(slug, '/')
    ensures GivenUpAt(s, slug, name) <==> GaveUpAt(s, "deploy.failed/" + slug + "/" + name)
    ensures UnreadyAt(s, slug, name) <==> NotReadyAt(s, "deploy.failed/" + slug + "/" + name)
  {
    var key := "deploy.failed/" + slug + "/" + name;
    if t :| IsDeployed(s, t) && t.slug == slug && t.meta.name == name && GivenUp(t) {
      var d := ThingIsGathered(s, t);
      SameThingsSameTrouble(t, d);
    }
    if t :| IsDeployed(s, t) && t.slug == slug && t.meta.name == name && Unready(t) {
      var d := ThingIsGathered(s, t);
      SameThingsSameTrouble(t, d);
    }
    if d :| d in AllDeployed(s) && d.Key() == key && d.GaveUp() {
      var t := OfThatName(s, d, slug, name);
    }
    if d :| d in AllDeployed(s) && d.Key() == key && d.NotReady() {
      var t := OfThatName(s, d, slug, name);
    }
  }

  lemma OfThatName(s: Snapshot, d: Deployed, slug: string, name: string) returns (t: Thing)
    requires Without(slug, '/') && d in AllDeployed(s) && d.NotReady() && d.Key() == "deploy.failed/" + slug + "/" + name
    ensures IsDeployed(s, t) && t.slug == slug && t.meta.name == name && Unready(t) && (d.GaveUp() ==> GivenUp(t))
  {
    t := GatheredIsAThing(s, d);
    SameThingsSameTrouble(t, d);
    DeployedKinds(s, d);
    Keys(DEPLOY_FAILED, slug, name);
    Literals();
    SameKeySameParts(DEPLOY_FAILED, t.slug, t.meta.name, slug, name);
  }

  /** It had given up at look m and was not Ready from then to look n. */
  ghost predicate GivenUpSince(looks: seq<Snapshot>, slug: string, name: string, m: nat, n: nat)
  {
    m <= n < |looks| && GivenUpAt(looks[m], slug, name) && forall i :: m <= i <= n ==> UnreadyAt(looks[i], slug, name)
  }

  lemma SinceAgrees(looks: seq<Snapshot>, slug: string, name: string, m: nat, n: nat)
    requires n < |looks| && Without(slug, '/')
    ensures GivenUpSince(looks, slug, name, m, n) <==> FailedSince(looks, "deploy.failed/" + slug + "/" + name, m, n)
  {
    forall i | 0 <= i < |looks|
      ensures GivenUpAt(looks[i], slug, name) <==> GaveUpAt(looks[i], "deploy.failed/" + slug + "/" + name)
      ensures UnreadyAt(looks[i], slug, name) <==> NotReadyAt(looks[i], "deploy.failed/" + slug + "/" + name)
    {
      LooksAgree(looks[i], slug, name);
    }
  }

  lemma KindOf(slug: string, name: string) returns (kind: string)
    requires slug in {"service", "function", "database", "object-store", "logical-database"}
    ensures Without(slug, '/') && ProblemKey(DEPLOY_FAILED, [Slug(kind), name]) == "deploy.failed/" + slug + "/" + name
  {
    Slugs();
    Literals();
    kind := if slug == "object-store" then "object store" else if slug == "logical-database" then "logical database" else slug;
    Keys(DEPLOY_FAILED, slug, name);
  }

  /**
   * A failed deploy is an exact latch, by the fields: a service, function, database, object store or logical database is a
   * problem at a look if and only if it had given up at some look up to it, and from that look to this one it was deployed,
   * one that people are told about, and first said to be Ready with a status other than True.
   */
  lemma FailedDeployIsALatchOfFields(looks: seq<Snapshot>, results: seq<set<string>>, n: nat, slug: string, name: string)
    requires Looks(looks, results) && n < |looks| && slug in {"service", "function", "database", "object-store", "logical-database"}
    ensures "deploy.failed/" + slug + "/" + name in results[n] <==> exists m: nat :: GivenUpSince(looks, slug, name, m, n)
  {
    var kind := KindOf(slug, name);
    var key := "deploy.failed/" + slug + "/" + name;
    FailedDeployIsALatch(looks, results, n, kind, name);
    forall m: nat ensures GivenUpSince(looks, slug, name, m, n) <==> FailedSince(looks, key, m, n) {
      SinceAgrees(looks, slug, name, m, n);
    }
  }
}
