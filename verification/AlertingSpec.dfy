/**
 * What is wrong with a cluster, said without loops, maps or order, and that this is what the evaluation finds; and how
 * a deploy that failed is remembered from one look to the next.
 */
module AlertingSpec {
  import opened Wrappers
  import opened Text
  import opened Alerting
  import opened AlertingOrder
  import opened AlertingKeys

  // ----- the declarative specification

  /** The name a project is shown by, "" when there is no such project. */
  ghost predicate Named(s: Snapshot, project: string, name: string)
  {
    || (exists p :: p in s.projects && p.name == project && name == FirstNonEmpty(p.displayName, p.name))
    || (name == "" && forall p :: p in s.projects ==> p.name != project)
  }

  ghost predicate BuildWrong(s: Snapshot, p: Problem)
  {
    exists build, app :: build in s.builds && app in s.apps && app.meta.name == build.app && BuildCounts(build, app)
                         && Named(s, build.project, p.projectName) && p == FailedBuildProblem(build, app, p.projectName)
  }

  ghost predicate DeployWrong(s: Snapshot, p: Problem)
  {
    exists d :: d in AllDeployed(s) && d.NotReady() && (d.GaveUp() || p.key in s.open)
                && Named(s, d.project, p.projectName) && p == FailedDeployProblem(d, p.projectName)
  }

  ghost predicate DownWrong(s: Snapshot, p: Problem)
  {
    exists app :: app in s.apps && NothingAnswers(s.deployments, app)
                  && Named(s, app.project, p.projectName) && p == DownProblem(app, p.projectName)
  }

  ghost predicate BackupWrong(s: Snapshot, p: Problem)
  {
    exists db :: db in s.databases && AtRisk(db)
                 && Named(s, db.project, p.projectName) && p == BackupProblem(db, p.projectName)
  }

  ghost predicate NodeWrong(s: Snapshot, p: Problem)
  {
    || (exists node :: node in s.geassNodes && SetUpFailed(node) && p == NodeProblem(node.name))
    || (exists node :: node in s.kubeNodes && NotWorking(Upgrading(s.clusters), node) && p == NodeProblem(node.name))
  }

  ghost predicate ClusterWrong(s: Snapshot, p: Problem)
  {
    exists cluster :: cluster in s.clusters && !cluster.deleting
                      && p.detail in DETAILS && HasIssue(cluster, p.detail) && p == ClusterProblem(cluster, p.detail, IssueSeverity(p.detail))
  }

  ghost predicate AbuseWrong(s: Snapshot, p: Problem)
  {
    exists app, name :: app in s.apps && Suspected(app) && Named(s, app.project, name) && p == AbuseProblem(app, name)
  }

  ghost predicate Wrong(s: Snapshot, p: Problem)
  {
    BuildWrong(s, p) || DeployWrong(s, p) || DownWrong(s, p) || BackupWrong(s, p) || NodeWrong(s, p) || ClusterWrong(s, p) || AbuseWrong(s, p)
  }

  /** No two resources of a list share a name, as the API server sees to. */
  ghost predicate UniqueNames(s: Snapshot)
  {
    && (forall a, b :: a in s.projects && b in s.projects && a.name == b.name ==> a == b)
    && (forall a, b :: a in s.apps && b in s.apps && a.meta.name == b.meta.name ==> a == b)
    && (forall a, b :: a in s.builds && b in s.builds && a.name == b.name ==> a == b)
    && (forall a, b :: a in s.databases && b in s.databases && a.meta.name == b.meta.name ==> a == b)
    && (forall a, b :: a in s.objectStores && b in s.objectStores && a.meta.name == b.meta.name ==> a == b)
    && (forall a, b :: a in s.logicalDatabases && b in s.logicalDatabases && a.meta.name == b.meta.name ==> a == b)
    && (forall a, b :: a in s.clusters && b in s.clusters && a.name == b.name ==> a == b)
  }

  // ----- the indexes, when names are unique

  lemma {:induction false} ProjectNamesHold(projects: seq<Project>, project: string)
    requires forall a, b :: a in projects && b in projects && a.name == b.name ==> a == b
    ensures project in ProjectNames(projects) <==> exists p :: p in projects && p.name == project
    ensures forall p :: p in projects && p.name == project ==> ProjectNames(projects)[project] == FirstNonEmpty(p.displayName, p.name)
  {
    if projects != [] {
      var n := |projects| - 1;
      assert projects == projects[..n] + [projects[n]];
      ProjectNamesHold(projects[..n], project);
    }
  }

  lemma NamedIsLookup(s: Snapshot, project: string, name: string)
    requires UniqueNames(s)
    ensures Named(s, project, name) <==> name == Lookup(ContextOf(s).projects, project)
  {
    ProjectNamesHold(s.projects, project);
  }

  lemma {:induction false} AppsByNameHold(apps: seq<App>, name: string)
    requires forall a, b :: a in apps && b in apps && a.meta.name == b.meta.name ==> a == b
    ensures name in AppsByName(apps) <==> exists a :: a in apps && a.meta.name == name
    ensures forall a :: a in apps && a.meta.name == name ==> AppsByName(apps)[name] == a
  {
    if apps != [] {
      var n := |apps| - 1;
      assert apps == apps[..n] + [apps[n]];
      AppsByNameHold(apps[..n], name);
    }
  }

  // ----- each rule adds exactly what is wrong

  lemma BuildsExact(s: Snapshot, p: Problem)
    requires UniqueNames(s)
    ensures p in Gather(s.builds, BuildRule(ContextOf(s))) <==> BuildWrong(s, p)
  {
    var c := ContextOf(s);
    InGather(s.builds, BuildRule(c), p);
    if p in Gather(s.builds, BuildRule(c)) {
      var build :| build in s.builds && p in BuildRule(c)(build);
      AppsByNameHold(s.apps, build.app);
      NamedIsLookup(s, build.project, p.projectName);
      var app := c.apps[build.app];
      assert app in s.apps && app.meta.name == build.app;
    }
    if BuildWrong(s, p) {
      var build, app :| build in s.builds && app in s.apps && app.meta.name == build.app && BuildCounts(build, app)
                        && Named(s, build.project, p.projectName) && p == FailedBuildProblem(build, app, p.projectName);
      AppsByNameHold(s.apps, build.app);
      NamedIsLookup(s, build.project, p.projectName);
      assert p in BuildRule(c)(build);
    }
  }

  lemma DeploysExact(s: Snapshot, p: Problem)
    requires UniqueNames(s)
    ensures p in Gather(AllDeployed(s), DeployRule(ContextOf(s), s.open)) <==> DeployWrong(s, p)
  {
    var c := ContextOf(s);
    InGather(AllDeployed(s), DeployRule(c, s.open), p);
    if p in Gather(AllDeployed(s), DeployRule(c, s.open)) {
      var d :| d in AllDeployed(s) && p in DeployRule(c, s.open)(d);
      NamedIsLookup(s, d.project, p.projectName);
    }
    if DeployWrong(s, p) {
      var d :| d in AllDeployed(s) && d.NotReady() && (d.GaveUp() || p.key in s.open)
               && Named(s, d.project, p.projectName) && p == FailedDeployProblem(d, p.projectName);
      NamedIsLookup(s, d.project, p.projectName);
      assert p in DeployRule(c, s.open)(d);
    }
  }

  lemma DownsExact(s: Snapshot, p: Problem)
    requires UniqueNames(s)
    ensures p in Gather(s.apps, DownRule(ContextOf(s), s.deployments)) <==> DownWrong(s, p)
  {
    var c := ContextOf(s);
    InGather(s.apps, DownRule(c, s.deployments), p);
    if p in Gather(s.apps, DownRule(c, s.deployments)) {
      var app :| app in s.apps && p in DownRule(c, s.deployments)(app);
      NamedIsLookup(s, app.project, p.projectName);
    }
    if DownWrong(s, p) {
      var app :| app in s.apps && NothingAnswers(s.deployments, app)
                 && Named(s, app.project, p.projectName) && p == DownProblem(app, p.projectName);
      NamedIsLookup(s, app.project, p.projectName);
      assert p in DownRule(c, s.deployments)(app);
    }
  }

  lemma BackupsExact(s: Snapshot, p: Problem)
    requires UniqueNames(s)
    ensures p in Gather(s.databases, BackupRule(ContextOf(s))) <==> BackupWrong(s, p)
  {
    var c := ContextOf(s);
    InGather(s.databases, BackupRule(c), p);
    if p in Gather(s.databases, BackupRule(c)) {
      var db :| db in s.databases && p in BackupRule(c)(db);
      NamedIsLookup(s, db.project, p.projectName);
    }
    if BackupWrong(s, p) {
      var db :| db in s.databases && AtRisk(db) && Named(s, db.project, p.projectName) && p == BackupProblem(db, p.projectName);
      NamedIsLookup(s, db.project, p.projectName);
      assert p in BackupRule(c)(db);
    }
  }

  lemma NodesExact(s: Snapshot, p: Problem)
    ensures p in Gather(s.geassNodes, GeassNodeProblems) + Gather(s.kubeNodes, KubeNodeRule(Upgrading(s.clusters))) <==> NodeWrong(s, p)
  {
    var upgrading := Upgrading(s.clusters);
    InGather(s.geassNodes, GeassNodeProblems, p);
    InGather(s.kubeNodes, KubeNodeRule(upgrading), p);
    assert forall node: KubeNode :: p in KubeNodeRule(upgrading)(node) <==> NotWorking(upgrading, node) && p == NodeProblem(node.name);
    assert forall node: GeassNode :: p in GeassNodeProblems(node) <==> SetUpFailed(node) && p == NodeProblem(node.name);
  }

  lemma {:induction false} InIssues(cluster: Cluster, details: seq<string>, p: Problem)
    ensures p in IssuesFrom(cluster, details) <==>
            p.detail in details && HasIssue(cluster, p.detail) && p == ClusterProblem(cluster, p.detail, IssueSeverity(p.detail))
  {
    if details != [] {
      var n := |details| - 1;
      assert details == details[..n] + [details[n]];
      InIssues(cluster, details[..n], p);
    }
  }

  lemma ClustersExact(s: Snapshot, p: Problem)
    ensures p in Gather(s.clusters, ClusterProblems) <==> ClusterWrong(s, p)
  {
    InGather(s.clusters, ClusterProblems, p);
    forall cluster | cluster in s.clusters
      ensures p in ClusterProblems(cluster) <==>
              !cluster.deleting && p.detail in DETAILS && HasIssue(cluster, p.detail) && p == ClusterProblem(cluster, p.detail, IssueSeverity(p.detail))
    {
      InIssues(cluster, DETAILS, p);
    }
  }

  lemma AbuseExact(s: Snapshot, p: Problem)
    requires UniqueNames(s)
    ensures p in Gather(s.apps, AbuseRule(ContextOf(s))) <==> AbuseWrong(s, p)
  {
    var c := ContextOf(s);
    InGather(s.apps, AbuseRule(c), p);
    if p in Gather(s.apps, AbuseRule(c)) {
      var app :| app in s.apps && p in AbuseRule(c)(app);
      NamedIsLookup(s, app.project, Lookup(c.projects, app.project));
    }
    if AbuseWrong(s, p) {
      var app, name :| app in s.apps && Suspected(app) && Named(s, app.project, name) && p == AbuseProblem(app, name);
      NamedIsLookup(s, app.project, name);
      assert p in AbuseRule(c)(app);
    }
  }

  /** Every problem the rules add, in order, before anything is dropped. */
  ghost function Additions(s: Snapshot): seq<Problem>
  {
    Gather(s.builds, BuildRule(ContextOf(s))) + Gather(AllDeployed(s), DeployRule(ContextOf(s), s.open))
    + Gather(s.apps, DownRule(ContextOf(s), s.deployments)) + Rest(s)
  }

  lemma AdditionsExact(s: Snapshot, p: Problem)
    requires UniqueNames(s)
    ensures p in Additions(s) <==> Wrong(s, p)
  {
    BuildsExact(s, p);
    DeploysExact(s, p);
    DownsExact(s, p);
    BackupsExact(s, p);
    NodesExact(s, p);
    ClustersExact(s, p);
    AbuseExact(s, p);
  }

  // ----- colliding additions are equal

  lemma NamesAreOne(s: Snapshot, project: string, a: string, b: string)
    requires UniqueNames(s) && Named(s, project, a) && Named(s, project, b)
    ensures a == b
  {
    NamedIsLookup(s, project, a);
    NamedIsLookup(s, project, b);
  }

  lemma SameKeySameName(kind: string, a: string, b: string)
    requires ProblemKey(kind, [a]) == ProblemKey(kind, [b])
    ensures a == b
  {
    assert (kind + "/" + a)[|kind| + 1..] == a && (kind + "/" + b)[|kind| + 1..] == b;
  }

  lemma SameKeySameParts(kind: string, a: string, name: string, b: string, name': string)
    requires Without(a, '/') && Without(b, '/')
    requires ProblemKey(kind, [a, name]) == ProblemKey(kind, [b, name'])
    ensures a == b && name == name'
  {
    assert [a, name][1..] == [name] && [b, name'][1..] == [name'];
    assert Join([a, name]) == a + "/" + name && Join([b, name']) == b + "/" + name';
    assert (kind + "/" + (a + "/" + name))[|kind| + 1..] == a + "/" + name;
    assert (kind + "/" + (b + "/" + name'))[|kind| + 1..] == b + "/" + name';
    SplitAtSeparator(a, b, name, name', '/');
  }

  const KINDS := ["service", "function", "database", "object store", "logical database"]

  lemma SlugTellsKindsApart(a: string, b: string)
    requires a in KINDS && b in KINDS && Slug(a) == Slug(b)
    ensures a == b
  {
    assert Slug(a)[0] == a[0] && Slug(b)[0] == b[0] && |Slug(a)| == |a| && |Slug(b)| == |b|;
  }

  lemma InAllDeployed(s: Snapshot, d: Deployed)
    ensures d in AllDeployed(s) <==>
            || (exists a :: a in s.apps && OfApp(a) == d)
            || (exists a :: a in s.databases && OfDatabase(a) == d)
            || (exists a :: a in s.objectStores && OfObjectStore(a) == d)
            || (exists a :: a in s.logicalDatabases && OfLogicalDatabase(a) == d)
  {
    InMap(s.apps, OfApp, d);
    InMap(s.databases, OfDatabase, d);
    InMap(s.objectStores, OfObjectStore, d);
    InMap(s.logicalDatabases, OfLogicalDatabase, d);
  }

  lemma InMap<A>(xs: seq<A>, f: A -> Deployed, d: Deployed)
    ensures d in Map(xs, f) <==> exists x :: x in xs && f(x) == d
  {
    if x :| x in xs && f(x) == d {
      var i :| 0 <= i < |xs| && xs[i] == x;
      assert Map(xs, f)[i] == d;
    }
  }

  lemma DeployedKinds(s: Snapshot, d: Deployed)
    requires d in AllDeployed(s)
    ensures d.kind in KINDS && Without(d.kind, '/')
  {
    InAllDeployed(s, d);
  }

  /** One resource for each kind and name. */
  lemma DeployedOnce(s: Snapshot, d: Deployed, d': Deployed)
    requires UniqueNames(s) && d in AllDeployed(s) && d' in AllDeployed(s) && d.kind == d'.kind && d.meta.name == d'.meta.name
    ensures d == d'
  {
    InAllDeployed(s, d);
    InAllDeployed(s, d');
    if d.kind == "service" || d.kind == "function" {
      var a :| a in s.apps && OfApp(a) == d;
      var a' :| a' in s.apps && OfApp(a') == d';
    } else if d.kind == "database" {
      var a :| a in s.databases && OfDatabase(a) == d;
      var a' :| a' in s.databases && OfDatabase(a') == d';
    } else if d.kind == "object store" {
      var a :| a in s.objectStores && OfObjectStore(a) == d;
      var a' :| a' in s.objectStores && OfObjectStore(a') == d';
    } else {
      var a :| a in s.logicalDatabases && OfLogicalDatabase(a) == d;
      var a' :| a' in s.logicalDatabases && OfLogicalDatabase(a') == d';
    }
  }

  lemma BuildsAgree(s: Snapshot, p: Problem, q: Problem)
    requires UniqueNames(s) && BuildWrong(s, p) && BuildWrong(s, q) && p.key == q.key
    ensures p == q
  {
    var b, a :| b in s.builds && a in s.apps && a.meta.name == b.app && BuildCounts(b, a)
                && Named(s, b.project, p.projectName) && p == FailedBuildProblem(b, a, p.projectName);
    var b', a' :| b' in s.builds && a' in s.apps && a'.meta.name == b'.app && BuildCounts(b', a')
                  && Named(s, b'.project, q.projectName) && q == FailedBuildProblem(b', a', q.projectName);
    SameKeySameName(BUILD_FAILED, b.name, b'.name);
    NamesAreOne(s, b.project, p.projectName, q.projectName);
  }

  lemma DeploysAgree(s: Snapshot, p: Problem, q: Problem)
    requires UniqueNames(s) && DeployWrong(s, p) && DeployWrong(s, q) && p.key == q.key
    ensures p == q
  {
    var d :| d in AllDeployed(s) && d.NotReady() && (d.GaveUp() || p.key in s.open)
             && Named(s, d.project, p.projectName) && p == FailedDeployProblem(d, p.projectName);
    var d' :| d' in AllDeployed(s) && d'.NotReady() && (d'.GaveUp() || q.key in s.open)
              && Named(s, d'.project, q.projectName) && q == FailedDeployProblem(d', q.projectName);
    DeployedKinds(s, d);
    DeployedKinds(s, d');
    SameKeySameParts(DEPLOY_FAILED, Slug(d.kind), d.meta.name, Slug(d'.kind), d'.meta.name);
    SlugTellsKindsApart(d.kind, d'.kind);
    DeployedOnce(s, d, d');
    NamesAreOne(s, d.project, p.projectName, q.projectName);
  }

  lemma DownsAgree(s: Snapshot, p: Problem, q: Problem)
    requires UniqueNames(s) && DownWrong(s, p) && DownWrong(s, q) && p.key == q.key
    ensures p == q
  {
    var a :| a in s.apps && NothingAnswers(s.deployments, a)
             && Named(s, a.project, p.projectName) && p == DownProblem(a, p.projectName);
    var a' :| a' in s.apps && NothingAnswers(s.deployments, a')
              && Named(s, a'.project, q.projectName) && q == DownProblem(a', q.projectName);
    SameKeySameName(SERVICE_DOWN, a.meta.name, a'.meta.name);
    NamesAreOne(s, a.project, p.projectName, q.projectName);
  }

  lemma BackupsAgree(s: Snapshot, p: Problem, q: Problem)
    requires UniqueNames(s) && BackupWrong(s, p) && BackupWrong(s, q) && p.key == q.key
    ensures p == q
  {
    var d :| d in s.databases && AtRisk(d) && Named(s, d.project, p.projectName) && p == BackupProblem(d, p.projectName);
    var d' :| d' in s.databases && AtRisk(d') && Named(s, d'.project, q.projectName) && q == BackupProblem(d', q.projectName);
    SameKeySameName(BACKUP_FAILED, d.meta.name, d'.meta.name);
    NamesAreOne(s, d.project, p.projectName, q.projectName);
  }

  lemma NodesAgree(s: Snapshot, p: Problem, q: Problem)
    requires NodeWrong(s, p) && NodeWrong(s, q) && p.key == q.key
    ensures p == q
  {
    assert p == NodeProblem(p.resource) && q == NodeProblem(q.resource);
    SameKeySameName(NODE_UNHEALTHY, p.resource, q.resource);
  }

  lemma ClusterProblemParts(s: Snapshot, p: Problem)
    requires ClusterWrong(s, p)
    ensures p.detail in DETAILS && p.key == ProblemKey(CLUSTER_ISSUE, [p.detail, p.resource])
    ensures p == Problem(p.key, CLUSTER_ISSUE, IssueSeverity(p.detail), "", "", "", p.resource, "cluster", "/cluster", p.detail)
  {
  }

  lemma ClustersAgree(s: Snapshot, p: Problem, q: Problem)
    requires ClusterWrong(s, p) && ClusterWrong(s, q) && p.key == q.key
    ensures p == q
  {
    ClusterProblemParts(s, p);
    ClusterProblemParts(s, q);
    DetailsHoldNoSlash(p.detail);
    DetailsHoldNoSlash(q.detail);
    SameKeySameParts(CLUSTER_ISSUE, p.detail, p.resource, q.detail, q.resource);
  }

  lemma DetailsHoldNoSlash(detail: string)
    requires detail in DETAILS
    ensures Without(detail, '/')
  {
  }

  lemma AbuseAgrees(s: Snapshot, p: Problem, q: Problem)
    requires UniqueNames(s) && AbuseWrong(s, p) && AbuseWrong(s, q) && p.key == q.key
    ensures p == q
  {
    var a, n :| a in s.apps && Suspected(a) && Named(s, a.project, n) && p == AbuseProblem(a, n);
    var a', n' :| a' in s.apps && Suspected(a') && Named(s, a'.project, n') && q == AbuseProblem(a', n');
    SameKeySameName(ABUSE_SUSPECTED, a.meta.name, a'.meta.name);
    NamesAreOne(s, a.project, n, n');
  }

  lemma WrongIsWellKeyed(s: Snapshot, p: Problem)
    requires UniqueNames(s) && Wrong(s, p)
    ensures WellKeyed(p)
  {
    AdditionsExact(s, p);
    AdditionsAreWellKeyed(s);
  }

  lemma AdditionsAreWellKeyed(s: Snapshot)
    ensures AllWellKeyed(Additions(s))
  {
    BuildsAreWellKeyed(ContextOf(s), s.builds);
    DeploysAreWellKeyed(ContextOf(s), s.open, AllDeployed(s));
    DownsAreWellKeyed(ContextOf(s), s.deployments, s.apps);
    RestIsWellKeyed(s);
  }

  lemma KindNamesRule(s: Snapshot, p: Problem)
    requires Wrong(s, p)
    ensures p.kind == BUILD_FAILED ==> BuildWrong(s, p)
    ensures p.kind == DEPLOY_FAILED ==> DeployWrong(s, p)
    ensures p.kind == SERVICE_DOWN ==> DownWrong(s, p)
    ensures p.kind == BACKUP_FAILED ==> BackupWrong(s, p)
    ensures p.kind == NODE_UNHEALTHY ==> NodeWrong(s, p)
    ensures p.kind == CLUSTER_ISSUE ==> ClusterWrong(s, p)
    ensures p.kind == ABUSE_SUSPECTED ==> AbuseWrong(s, p)
    ensures p.kind in {BUILD_FAILED, DEPLOY_FAILED, SERVICE_DOWN, BACKUP_FAILED, NODE_UNHEALTHY, CLUSTER_ISSUE, ABUSE_SUSPECTED}
  {
  }

  /** Two problems with one key are one problem. Names may hold slashes: kinds and details do not, and come first. */
  lemma SameKeySameProblem(s: Snapshot, p: Problem, q: Problem)
    requires UniqueNames(s) && Wrong(s, p) && Wrong(s, q) && p.key == q.key
    ensures p == q
  {
    assert p.kind == q.kind by {
      WrongIsWellKeyed(s, p);
      WrongIsWellKeyed(s, q);
      KeyNamesKind(p, q.kind, q.key[|q.kind| + 1..]);
    }
    KindNamesRule(s, p);
    KindNamesRule(s, q);
    match p.kind {
      case "build.failed" => BuildsAgree(s, p, q);
      case "deploy.failed" => DeploysAgree(s, p, q);
      case "service.down" => DownsAgree(s, p, q);
      case "backup.failed" => BackupsAgree(s, p, q);
      case "node.unhealthy" => NodesAgree(s, p, q);
      case "cluster.issue" => ClustersAgree(s, p, q);
      case _ => AbuseAgrees(s, p, q);
    }
  }

  // ----- the main results about one look

  lemma FailedBeforeCleanup(s: Snapshot, kind: string, name: string)
    requires UniqueNames(s) && ProblemKey(DEPLOY_FAILED, [kind, name]) in BeforeCleanup(s)
    ensures DeployWrong(s, BeforeCleanup(s)[ProblemKey(DEPLOY_FAILED, [kind, name])])
  {
    var key := ProblemKey(DEPLOY_FAILED, [kind, name]);
    BeforeCleanupHolds(s, key);
    KeyNamesKind(BeforeCleanup(s)[key], DEPLOY_FAILED, Join([kind, name]));
    KindNamesRule(s, BeforeCleanup(s)[key]);
  }

  lemma NotSaidTwice(s: Snapshot, key: string, kind: string)
    requires UniqueNames(s) && key in BeforeCleanup(s) && BeforeCleanup(s)[key].kind == SERVICE_DOWN
    requires kind in {"service", "function"}
    ensures ProblemKey(DEPLOY_FAILED, [kind, TrimDown(key)]) !in BeforeCleanup(s)
  {
    BeforeCleanupHolds(s, key);
    KindNamesRule(s, BeforeCleanup(s)[key]);
    var failedKey := ProblemKey(DEPLOY_FAILED, [kind, TrimDown(key)]);
    if failedKey in BeforeCleanup(s) {
      BeforeCleanupHolds(s, failedKey);
      FailedBeforeCleanup(s, kind, TrimDown(key));
      DownIsNotAFailedDeploy(s, BeforeCleanup(s)[key], BeforeCleanup(s)[failedKey], kind);
    }
  }

  /** With unique names the two checks need opposite Ready states, so the cleanup after the down check drops nothing. */
  lemma CleanupDropsNothing(s: Snapshot)
    requires UniqueNames(s)
    ensures WithoutSaidTwice(BeforeCleanup(s)) == BeforeCleanup(s)
  {
    forall key | key in BeforeCleanup(s) ensures !SaidTwice(BeforeCleanup(s), key) {
      if BeforeCleanup(s)[key].kind == SERVICE_DOWN {
        NotSaidTwice(s, key, "service");
        NotSaidTwice(s, key, "function");
      }
    }
  }

  lemma BeforeCleanupHolds(s: Snapshot, key: string)
    requires UniqueNames(s) && key in BeforeCleanup(s)
    ensures BeforeCleanup(s)[key].key == key && Wrong(s, BeforeCleanup(s)[key]) && WellKeyed(BeforeCleanup(s)[key])
  {
    FoundIsKeyed(s);
    var builds, deploys := Gather(s.builds, BuildRule(ContextOf(s))), Gather(AllDeployed(s), DeployRule(ContextOf(s), s.open));
    AddAllHolds(map[], builds);
    AddAllHolds(AddAll(map[], builds), deploys);
    AddAllHolds(AfterDeploys(s), Gather(s.apps, DownRule(ContextOf(s), s.deployments)));
    var p := BeforeCleanup(s)[key];
    BuildsExact(s, p);
    DeploysExact(s, p);
    DownsExact(s, p);
  }

  lemma AppThatIsDown(s: Snapshot, down: Problem) returns (app: App)
    requires DownWrong(s, down)
    ensures app in s.apps && app.meta.name == TrimDown(down.key)
    ensures Find(app.conditions, "Ready").Some? && Find(app.conditions, "Ready").value.status == "True"
  {
    app :| app in s.apps && NothingAnswers(s.deployments, app)
           && Named(s, app.project, down.projectName) && down == DownProblem(app, down.projectName);
    assert (SERVICE_DOWN + "/" + app.meta.name)[|SERVICE_DOWN| + 1..] == app.meta.name;
  }

  lemma AppThatFailedToDeploy(s: Snapshot, failed: Problem, kind: string, name: string) returns (app: App)
    requires DeployWrong(s, failed) && kind in {"service", "function"} && failed.key == ProblemKey(DEPLOY_FAILED, [kind, name])
    ensures app in s.apps && app.meta.name == name
    ensures Find(app.conditions, "Ready").Some? && Find(app.conditions, "Ready").value.status != "True"
  {
    var d :| d in AllDeployed(s) && d.NotReady() && (d.GaveUp() || failed.key in s.open)
             && Named(s, d.project, failed.projectName) && failed == FailedDeployProblem(d, failed.projectName);
    DeployedKinds(s, d);
    SlugOfService(kind);
    SameKeySameParts(DEPLOY_FAILED, Slug(d.kind), d.meta.name, kind, name);
    SlugTellsKindsApart(d.kind, kind);
    InAllDeployed(s, d);
    app :| app in s.apps && OfApp(app) == d;
  }

  lemma DownIsNotAFailedDeploy(s: Snapshot, down: Problem, failed: Problem, kind: string)
    requires UniqueNames(s) && kind in {"service", "function"}
    requires failed.key == ProblemKey(DEPLOY_FAILED, [kind, TrimDown(down.key)])
    ensures !(DownWrong(s, down) && DeployWrong(s, failed))
  {
    if DownWrong(s, down) && DeployWrong(s, failed) {
      var up := AppThatIsDown(s, down);
      var notReady := AppThatFailedToDeploy(s, failed, kind, TrimDown(down.key));
    }
  }

  lemma SlugOfService(kind: string)
    requires kind in {"service", "function"}
    ensures Slug(kind) == kind && Without(kind, '/')
  {
  }

  /** Sound and complete: the evaluation holds exactly what is wrong, and nothing under a key that is not its own. */
  lemma FoundIsWhatIsWrong(s: Snapshot, p: Problem)
    requires UniqueNames(s)
    ensures p.key in FoundOf(s) && FoundOf(s)[p.key] == p <==> Wrong(s, p)
  {
    CleanupDropsNothing(s);
    var builds, deploys := Gather(s.builds, BuildRule(ContextOf(s))), Gather(AllDeployed(s), DeployRule(ContextOf(s), s.open));
    var downs := Gather(s.apps, DownRule(ContextOf(s), s.deployments));
    AddAllConcat(map[], builds, deploys);
    AddAllConcat(map[], builds + deploys, downs);
    AddAllConcat(map[], builds + deploys + downs, Rest(s));
    assert FoundOf(s) == AddAll(map[], Additions(s));
    AddAllHolds(map[], Additions(s));
    AdditionsExact(s, p);
    if Wrong(s, p) {
      var q := FoundOf(s)[p.key];
      AdditionsExact(s, q);
      SameKeySameProblem(s, p, q);
    }
  }

  ghost predicate SameUpToOrder(s: Snapshot, t: Snapshot)
  {
    && multiset(s.projects) == multiset(t.projects) && multiset(s.apps) == multiset(t.apps)
    && multiset(s.builds) == multiset(t.builds) && multiset(s.databases) == multiset(t.databases)
    && multiset(s.objectStores) == multiset(t.objectStores) && multiset(s.logicalDatabases) == multiset(t.logicalDatabases)
    && multiset(s.geassNodes) == multiset(t.geassNodes) && multiset(s.kubeNodes) == multiset(t.kubeNodes)
    && multiset(s.clusters) == multiset(t.clusters)
    && s.deployments == t.deployments && s.open == t.open
  }

  lemma SameElements<T>(a: seq<T>, b: seq<T>)
    requires multiset(a) == multiset(b)
    ensures forall x :: x in a <==> x in b
  {
    forall x ensures x in a <==> x in b {
      assert x in a <==> x in multiset(a);
      assert x in b <==> x in multiset(b);
    }
  }

  lemma OrderIsNotSeen(s: Snapshot, t: Snapshot)
    requires UniqueNames(s) && SameUpToOrder(s, t)
    ensures UniqueNames(t)
    ensures forall p :: Wrong(s, p) <==> Wrong(t, p)
  {
    SameElements(s.projects, t.projects);
    SameElements(s.apps, t.apps);
    SameElements(s.builds, t.builds);
    SameElements(s.databases, t.databases);
    SameElements(s.objectStores, t.objectStores);
    SameElements(s.logicalDatabases, t.logicalDatabases);
    SameElements(s.geassNodes, t.geassNodes);
    SameElements(s.kubeNodes, t.kubeNodes);
    SameElements(s.clusters, t.clusters);
    assert UniqueNames(t);
    forall d ensures d in AllDeployed(s) <==> d in AllDeployed(t) {
      InAllDeployed(s, d);
      InAllDeployed(t, d);
    }
    assert Upgrading(s.clusters) == Upgrading(t.clusters);
    forall p ensures Wrong(s, p) <==> Wrong(t, p) {
      assert forall project, name :: Named(s, project, name) <==> Named(t, project, name);
      assert BuildWrong(s, p) <==> BuildWrong(t, p);
      assert DeployWrong(s, p) <==> DeployWrong(t, p);
      assert DownWrong(s, p) <==> DownWrong(t, p);
      assert BackupWrong(s, p) <==> BackupWrong(t, p);
      assert NodeWrong(s, p) <==> NodeWrong(t, p);
      assert ClusterWrong(s, p) <==> ClusterWrong(t, p);
      assert AbuseWrong(s, p) <==> AbuseWrong(t, p);
    }
  }

  /** What EvaluateProblems answers for a snapshot. */
  ghost predicate IsResult(s: Snapshot, problems: seq<Problem>)
  {
    && StrictlySorted(problems)
    && forall p :: p in problems <==> p.key in FoundOf(s) && FoundOf(s)[p.key] == p
  }

  /** The order the lists come in makes no difference to the answer. */
  lemma OrderDoesNotMatter(s: Snapshot, t: Snapshot, problems: seq<Problem>, problems': seq<Problem>)
    requires UniqueNames(s) && SameUpToOrder(s, t) && IsResult(s, problems) && IsResult(t, problems')
    ensures problems == problems'
    ensures forall p :: p in problems <==> Wrong(s, p)
  {
    OrderIsNotSeen(s, t);
    forall p ensures (p in problems <==> Wrong(s, p)) && (p in problems' <==> Wrong(s, p)) {
      FoundIsWhatIsWrong(s, p);
      FoundIsWhatIsWrong(t, p);
    }
    SortedOnce(problems, problems');
  }

  // ----- what holds of any lists, unique names or not

  lemma RestIsOfOtherKinds(s: Snapshot, p: Problem)
    requires p in Rest(s)
    ensures p.kind != DEPLOY_FAILED && p.kind != SERVICE_DOWN && WellKeyed(p)
  {
    RestIsWellKeyed(s);
    var c := ContextOf(s);
    InGather(s.databases, BackupRule(c), p);
    InGather(s.geassNodes, GeassNodeProblems, p);
    InGather(s.kubeNodes, KubeNodeRule(Upgrading(s.clusters)), p);
    InGather(s.clusters, ClusterProblems, p);
    InGather(s.apps, AbuseRule(c), p);
    if cluster :| cluster in s.clusters && p in ClusterProblems(cluster) {
      InIssues(cluster, DETAILS, p);
    }
  }

  /** What is added later of other kinds leaves a key of this kind as it was. */
  lemma OtherKindsLeaveKey(found: map<string, Problem>, problems: seq<Problem>, kind: string, rest: string)
    requires Without(kind, '/') && AllWellKeyed(problems) && forall p :: p in problems ==> p.kind != kind
    ensures kind + "/" + rest in AddAll(found, problems) <==> kind + "/" + rest in found
  {
    forall p | p in problems ensures p.key != kind + "/" + rest {
      OtherKindOtherKey(p, kind, rest);
    }
    AddAllKey(found, problems, kind + "/" + rest);
  }

  lemma CleanupSeparates(found: map<string, Problem>, kind: string, name: string)
    requires Keyed(found) && kind in {"service", "function"}
    ensures ProblemKey(SERVICE_DOWN, [name]) in WithoutSaidTwice(found) ==> ProblemKey(DEPLOY_FAILED, [kind, name]) !in found
  {
    var down := ProblemKey(SERVICE_DOWN, [name]);
    if down in found {
      KeyNamesKind(found[down], SERVICE_DOWN, name);
      assert down[|SERVICE_DOWN| + 1..] == name;
      assert TrimDown(down) == name;
    }
  }

  lemma RestIsOfOtherKindsAll(s: Snapshot)
    ensures AllWellKeyed(Rest(s)) && forall p :: p in Rest(s) ==> p.kind != DEPLOY_FAILED && p.kind != SERVICE_DOWN
  {
    forall p | p in Rest(s) ensures p.kind != DEPLOY_FAILED && p.kind != SERVICE_DOWN && WellKeyed(p) {
      RestIsOfOtherKinds(s, p);
    }
  }

  /** No service is ever reported both as down and as failed to deploy. */
  lemma NeverBothDownAndFailed(s: Snapshot, kind: string, name: string)
    requires kind in {"service", "function"}
    ensures !(ProblemKey(SERVICE_DOWN, [name]) in FoundOf(s) && ProblemKey(DEPLOY_FAILED, [kind, name]) in FoundOf(s))
  {
    RestIsOfOtherKindsAll(s);
    FoundIsKeyed(s);
    var cleaned, rest := WithoutSaidTwice(BeforeCleanup(s)), Rest(s);
    OtherKindsLeaveKey(cleaned, rest, SERVICE_DOWN, Join([name]));
    OtherKindsLeaveKey(cleaned, rest, DEPLOY_FAILED, Join([kind, name]));
    CleanupSeparates(BeforeCleanup(s), kind, name);
  }

  // ----- from look to look

  /** The resource a key names gave up at this look. */
  ghost predicate GaveUpAt(s: Snapshot, key: string)
  {
    exists d :: d in AllDeployed(s) && d.Key() == key && d.GaveUp()
  }

  /** It was deployed, not quiet, and had a Ready condition other than True. */
  ghost predicate NotReadyAt(s: Snapshot, key: string)
  {
    exists d :: d in AllDeployed(s) && d.Key() == key && d.NotReady()
  }

  lemma AddsNothingOfOtherKind<T>(xs: seq<T>, rule: T -> seq<Problem>, kind: string, other: string, rest: string)
    requires forall x, p :: x in xs && p in rule(x) ==> p.kind == kind
    requires AllWellKeyed(Gather(xs, rule)) && Without(other, '/') && kind != other
    ensures !Adds(Gather(xs, rule), other + "/" + rest)
  {
    forall p | p in Gather(xs, rule) ensures p.key != other + "/" + rest {
      InGather(xs, rule, p);
      OtherKindOtherKey(p, other, rest);
    }
  }

  lemma OnlyDeploysAdd(s: Snapshot, rest: string)
    ensures !Adds(Gather(s.builds, BuildRule(ContextOf(s))), DEPLOY_FAILED + "/" + rest)
    ensures !Adds(Gather(s.apps, DownRule(ContextOf(s), s.deployments)), DEPLOY_FAILED + "/" + rest)
  {
    var c := ContextOf(s);
    BuildsAreWellKeyed(c, s.builds);
    AddsNothingOfOtherKind(s.builds, BuildRule(c), BUILD_FAILED, DEPLOY_FAILED, rest);
    DownsAreWellKeyed(c, s.deployments, s.apps);
    AddsNothingOfOtherKind(s.apps, DownRule(c, s.deployments), SERVICE_DOWN, DEPLOY_FAILED, rest);
  }

  lemma DeployKeyBeforeCleanup(s: Snapshot, rest: string)
    ensures DEPLOY_FAILED + "/" + rest in BeforeCleanup(s) <==>
            Adds(Gather(AllDeployed(s), DeployRule(ContextOf(s), s.open)), DEPLOY_FAILED + "/" + rest)
  {
    var key := DEPLOY_FAILED + "/" + rest;
    var c := ContextOf(s);
    OnlyDeploysAdd(s, rest);
    AddAllKey(map[], Gather(s.builds, BuildRule(c)), key);
    AddAllKey(AddAll(map[], Gather(s.builds, BuildRule(c))), Gather(AllDeployed(s), DeployRule(c, s.open)), key);
    AddAllKey(AfterDeploys(s), Gather(s.apps, DownRule(c, s.deployments)), key);
  }

  lemma CleanupKeepsDeploys(found: map<string, Problem>, rest: string)
    requires Keyed(found)
    ensures DEPLOY_FAILED + "/" + rest in WithoutSaidTwice(found) <==> DEPLOY_FAILED + "/" + rest in found
  {
    var key := DEPLOY_FAILED + "/" + rest;
    if key in found {
      KeyNamesKind(found[key], DEPLOY_FAILED, rest);
    }
  }

  lemma DeployKeyInFound(s: Snapshot, kind: string, name: string)
    ensures
      var key := ProblemKey(DEPLOY_FAILED, [Slug(kind), name]);
      key in FoundOf(s) <==> GaveUpAt(s, key) || (NotReadyAt(s, key) && key in s.open)
  {
    var rest := Join([Slug(kind), name]);
    DeployKeyBeforeCleanup(s, rest);
    FoundIsKeyed(s);
    CleanupKeepsDeploys(BeforeCleanup(s), rest);
    RestIsOfOtherKindsAll(s);
    OtherKindsLeaveKey(WithoutSaidTwice(BeforeCleanup(s)), Rest(s), DEPLOY_FAILED, rest);
    DeployAdditions(s, ProblemKey(DEPLOY_FAILED, [Slug(kind), name]));
  }

  lemma OtherKindOtherKey(p: Problem, kind: string, rest: string)
    requires WellKeyed(p) && Without(kind, '/') && p.kind != kind
    ensures p.key != kind + "/" + rest
  {
    if p.key == kind + "/" + rest {
      KeyNamesKind(p, kind, rest);
    }
  }

  lemma DeployAdditions(s: Snapshot, key: string)
    ensures Adds(Gather(AllDeployed(s), DeployRule(ContextOf(s), s.open)), key)
            <==> GaveUpAt(s, key) || (NotReadyAt(s, key) && key in s.open)
  {
    var rule := DeployRule(ContextOf(s), s.open);
    if p :| p in Gather(AllDeployed(s), rule) && p.key == key {
      InGather(AllDeployed(s), rule, p);
    }
    if d :| d in AllDeployed(s) && d.Key() == key && d.NotReady() && (d.GaveUp() || key in s.open) {
      var p := FailedDeployProblem(d, Lookup(ContextOf(s).projects, d.project));
      assert p in rule(d) && p.key == key;
      InGather(AllDeployed(s), rule, p);
    }
  }

  /** Looks in turn: what was open at one is what the one before found, and nothing at the first, as after a restart. */
  ghost predicate Looks(looks: seq<Snapshot>, results: seq<set<string>>)
  {
    && |looks| == |results|
    && (forall n :: 0 <= n < |looks| ==> results[n] == Finds(looks[n]))
    && (forall n :: 0 <= n < |looks| ==> looks[n].open == if n == 0 then {} else results[n - 1])
  }

  ghost function Finds(s: Snapshot): (keys: set<string>)
    ensures forall kind, name :: ProblemKey(DEPLOY_FAILED, [Slug(kind), name]) in keys <==> DeployKeyFound(s, kind, name)
  {
    forall kind, name ensures ProblemKey(DEPLOY_FAILED, [Slug(kind), name]) in FoundOf(s) <==> DeployKeyFound(s, kind, name) {
      DeployKeyInFound(s, kind, name);
    }
    FoundOf(s).Keys
  }

  ghost predicate DeployKeyFound(s: Snapshot, kind: string, name: string)
  {
    var key := ProblemKey(DEPLOY_FAILED, [Slug(kind), name]);
    GaveUpAt(s, key) || (NotReadyAt(s, key) && key in s.open)
  }

  /** A latch: on when it is set, and from then while it is held. */
  ghost predicate LatchStep(sets: nat -> bool, holds: nat -> bool, on: nat -> bool, i: nat)
  {
    && (sets(i) ==> holds(i))
    && (on(i) <==> sets(i) || (holds(i) && i > 0 && on(i - 1)))
  }

  ghost predicate HeldSince(sets: nat -> bool, holds: nat -> bool, m: nat, n: nat)
  {
    m <= n && sets(m) && forall i: nat :: m <= i <= n ==> holds(i)
  }

  lemma {:induction false} Latch(sets: nat -> bool, holds: nat -> bool, on: nat -> bool, n: nat)
    requires forall i: nat :: i <= n ==> LatchStep(sets, holds, on, i)
    ensures on(n) <==> exists m: nat :: HeldSince(sets, holds, m, n)
  {
    assert LatchStep(sets, holds, on, n);
    if n > 0 {
      Latch(sets, holds, on, n - 1);
    }
    if on(n) {
      if sets(n) {
        assert HeldSince(sets, holds, n, n);
      } else {
        var m: nat :| HeldSince(sets, holds, m, n - 1);
        assert HeldSince(sets, holds, m, n);
      }
    }
    if m: nat :| HeldSince(sets, holds, m, n) {
      if m < n {
        assert HeldSince(sets, holds, m, n - 1);
      }
    }
  }

  /** What one look makes of the one before, for one key. */
  ghost predicate Remembers(looks: seq<Snapshot>, results: seq<set<string>>, key: string, n: nat)
    requires n < |looks| == |results|
  {
    && (GaveUpAt(looks[n], key) ==> NotReadyAt(looks[n], key))
    && (key in results[n] <==> GaveUpAt(looks[n], key) || (NotReadyAt(looks[n], key) && n > 0 && key in results[n - 1]))
  }

  lemma LookRemembers(looks: seq<Snapshot>, results: seq<set<string>>, n: nat, kind: string, name: string)
    requires Looks(looks, results) && n < |looks|
    ensures Remembers(looks, results, ProblemKey(DEPLOY_FAILED, [Slug(kind), name]), n)
  {
    assert results[n] == Finds(looks[n]);
    assert DeployKeyFound(looks[n], kind, name) <==> ProblemKey(DEPLOY_FAILED, [Slug(kind), name]) in results[n];
  }

  /** The key's resource gave up at look m and was not Ready from then to look n. */
  ghost predicate FailedSince(looks: seq<Snapshot>, key: string, m: nat, n: nat)
  {
    m <= n < |looks| && GaveUpAt(looks[m], key) && forall i :: m <= i <= n ==> NotReadyAt(looks[i], key)
  }

  lemma LatchOverLooks(looks: seq<Snapshot>, results: seq<set<string>>, key: string, n: nat)
    requires n < |looks| == |results|
    requires forall i: nat :: i <= n ==> Remembers(looks, results, key, i)
    ensures key in results[n] <==> exists m: nat :: FailedSince(looks, key, m, n)
  {
    var sets := (i: nat) => i < |looks| && GaveUpAt(looks[i], key);
    var holds := (i: nat) => i < |looks| && NotReadyAt(looks[i], key);
    var on := (i: nat) => i < |results| && key in results[i];
    forall i: nat | i <= n ensures LatchStep(sets, holds, on, i) {
      assert Remembers(looks, results, key, i);
    }
    Latch(sets, holds, on, n);
    forall m: nat ensures HeldSince(sets, holds, m, n) <==> FailedSince(looks, key, m, n) {
      SameSince(looks, key, sets, holds, m, n);
    }
  }

  /**
   * A failed deploy is an exact latch: it is a problem at a look if and only if some look up to it saw the resource
   * give up, and from that look to this one it was deployed, not quiet and not Ready at every look.
   */
  lemma FailedDeployIsALatch(looks: seq<Snapshot>, results: seq<set<string>>, n: nat, kind: string, name: string)
    requires Looks(looks, results) && n < |looks|
    ensures
      var key := ProblemKey(DEPLOY_FAILED, [Slug(kind), name]);
      key in results[n] <==> exists m: nat :: FailedSince(looks, key, m, n)
  {
    forall i: nat | i <= n ensures Remembers(looks, results, ProblemKey(DEPLOY_FAILED, [Slug(kind), name]), i) {
      LookRemembers(looks, results, i, kind, name);
    }
    LatchOverLooks(looks, results, ProblemKey(DEPLOY_FAILED, [Slug(kind), name]), n);
  }

  lemma SameSince(looks: seq<Snapshot>, key: string, sets: nat -> bool, holds: nat -> bool, m: nat, n: nat)
    requires n < |looks|
    requires forall i: nat :: i <= n ==> (sets(i) <==> GaveUpAt(looks[i], key)) && (holds(i) <==> NotReadyAt(looks[i], key))
    ensures HeldSince(sets, holds, m, n) <==> FailedSince(looks, key, m, n)
  {
  }
}
