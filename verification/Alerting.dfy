/**
 * What the operator finds wrong at one look at the cluster (internal/controller/alerting_rules.go): seven rules, each a
 * loop over a list of resources, fill one map of problems by key, which is then sorted.
 */
module Alerting {
  import opened Wrappers
  import opened Text

  const BUILD_FAILED := "build.failed"
  const DEPLOY_FAILED := "deploy.failed"
  const SERVICE_DOWN := "service.down"
  const BACKUP_FAILED := "backup.failed"
  const NODE_UNHEALTHY := "node.unhealthy"
  const CLUSTER_ISSUE := "cluster.issue"
  const ABUSE_SUSPECTED := "abuse.suspected"

  datatype Severity = Critical | Warning

  datatype Problem = Problem(
    key: string, kind: string, severity: Severity, project: string, projectName: string, environment: string,
    resource: string, resourceKind: string, path: string, detail: string)

  datatype Condition = Condition(kind: string, status: string, reason: string)

  datatype Meta = Meta(name: string, displayName: string, deleting: bool, pullRequest: string)

  datatype Project = Project(name: string, displayName: string)
  datatype App = App(
    meta: Meta, project: string, environment: string, isFunction: bool, deployEnabled: bool,
    targetNamespace: string, currentBuild: string, conditions: seq<Condition>)
  datatype Build = Build(name: string, deleting: bool, phase: string, app: string, project: string, environment: string)
  datatype Database = Database(
    meta: Meta, project: string, environment: string, deployEnabled: bool, conditions: seq<Condition>, backupState: Option<string>)
  datatype ObjectStore = ObjectStore(meta: Meta, project: string, environment: string, deployEnabled: bool, conditions: seq<Condition>)
  datatype LogicalDatabase = LogicalDatabase(meta: Meta, project: string, environment: string, conditions: seq<Condition>)
  datatype GeassNode = GeassNode(name: string, deleting: bool, phase: string)
  datatype KubeNode = KubeNode(name: string, deleting: bool, conditions: seq<Condition>)
  datatype Upgrade = Upgrade(phase: string, currentNode: string)
  datatype Cluster = Cluster(name: string, deleting: bool, upgrade: Option<Upgrade>, conditions: seq<Condition>)
  datatype Deployment = Deployment(deleting: bool, replicas: Option<int>, available: int)

  /** The resources as they are now. open is what was a problem at the last look; deployments is None when it cannot be asked. */
  datatype Snapshot = Snapshot(
    projects: seq<Project>, apps: seq<App>, builds: seq<Build>, databases: seq<Database>, objectStores: seq<ObjectStore>,
    logicalDatabases: seq<LogicalDatabase>, geassNodes: seq<GeassNode>, kubeNodes: seq<KubeNode>, clusters: seq<Cluster>,
    deployments: Option<map<(string, string), Deployment>>, open: set<string>)

  /** Project names by project, and services by name, as the evaluation indexes them. */
  datatype Context = Context(projects: map<string, string>, apps: map<string, App>)

  // ----- helpers of the rules

  function Join(parts: seq<string>): string
  {
    if parts == [] then "" else if |parts| == 1 then parts[0] else parts[0] + "/" + Join(parts[1..])
  }

  function ProblemKey(kind: string, parts: seq<string>): string
  {
    kind + "/" + Join(parts)
  }

  function FirstNonEmpty(a: string, b: string): string
  {
    if TrimSpace(a) != "" then a else if TrimSpace(b) != "" then b else ""
  }

  function DisplayName(meta: Meta): string
  {
    if TrimSpace(meta.displayName) != "" then TrimSpace(meta.displayName) else meta.name
  }

  predicate Quiet(meta: Meta)
  {
    meta.deleting || meta.pullRequest != ""
  }

  function SeverityFor(environment: string): Severity
  {
    if environment == "production" then Critical else Warning
  }

  function AppKind(app: App): string
  {
    if app.isFunction then "function" else "service"
  }

  function ResourcePath(project: string, kind: string, name: string): string
  {
    "/projects/" + project + "/" + kind + "/" + name
  }

  function AppPath(app: App): string
  {
    ResourcePath(app.project, "apps", app.meta.name)
  }

  /** meta.FindStatusCondition: the first condition of a type. */
  function Find(conditions: seq<Condition>, kind: string): (found: Option<Condition>)
    ensures found.Some? ==> found.value in conditions && found.value.kind == kind
    ensures found.None? <==> forall c :: c in conditions ==> c.kind != kind
  {
    if conditions == [] then None
    else if conditions[0].kind == kind then Some(conditions[0])
    else Find(conditions[1..], kind)
  }

  // ----- the rules, one resource at a time

  function FailedBuildProblem(build: Build, app: App, projectName: string): Problem
  {
    Problem(ProblemKey(BUILD_FAILED, [build.name]), BUILD_FAILED, Warning, build.project, projectName, build.environment,
            DisplayName(app.meta), "service", AppPath(app), "")
  }

  predicate BuildCounts(build: Build, app: App)
  {
    && build.phase == "Failed" && !build.deleting
    && !Quiet(app.meta) && (app.currentBuild == "" || app.currentBuild == build.name)
  }

  function BuildProblems(c: Context, build: Build): seq<Problem>
  {
    if build.app in c.apps && BuildCounts(build, c.apps[build.app])
    then [FailedBuildProblem(build, c.apps[build.app], Lookup(c.projects, build.project))] else []
  }

  /** strings.ReplaceAll of spaces by hyphens: a kind as it stands in a key. */
  function Slug(kind: string): (slug: string)
    ensures Without(kind, '/') ==> Without(slug, '/')
  {
    seq(|kind|, i requires 0 <= i < |kind| => if kind[i] == ' ' then '-' else kind[i])
  }

  /** A resource Geass deploys. */
  datatype Deployed = Deployed(
    meta: Meta, project: string, environment: string, kind: string, conditions: seq<Condition>, path: string, active: bool)
  {
    function Key(): string
    {
      ProblemKey(DEPLOY_FAILED, [Slug(kind), meta.name])
    }

    function Ready(): Option<Condition>
    {
      Find(conditions, "Ready")
    }

    /** Deployed, not quiet, and with a Ready condition other than True. */
    predicate NotReady()
    {
      active && !Quiet(meta) && Ready().Some? && Ready().value.status != "True"
    }

    predicate GaveUp()
    {
      NotReady() && Ready().value.reason == "ProvisionFailed"
    }
  }

  function OfApp(a: App): Deployed
  {
    Deployed(a.meta, a.project, a.environment, AppKind(a), a.conditions, AppPath(a), a.deployEnabled)
  }

  function OfDatabase(d: Database): Deployed
  {
    Deployed(d.meta, d.project, d.environment, "database", d.conditions,
             ResourcePath(d.project, "databases", d.meta.name), d.deployEnabled)
  }

  function OfObjectStore(o: ObjectStore): Deployed
  {
    Deployed(o.meta, o.project, o.environment, "object store", o.conditions,
             ResourcePath(o.project, "object-stores", o.meta.name), o.deployEnabled)
  }

  function OfLogicalDatabase(l: LogicalDatabase): Deployed
  {
    Deployed(l.meta, l.project, l.environment, "logical database", l.conditions,
             ResourcePath(l.project, "logical-databases", l.meta.name), true)
  }

  function Map<A, B>(xs: seq<A>, f: A -> B): (ys: seq<B>)
    ensures |ys| == |xs| && forall i :: 0 <= i < |xs| ==> ys[i] == f(xs[i])
  {
    seq(|xs|, i requires 0 <= i < |xs| => f(xs[i]))
  }

  function AllDeployed(s: Snapshot): seq<Deployed>
  {
    Map(s.apps, OfApp) + Map(s.databases, OfDatabase) + Map(s.objectStores, OfObjectStore) + Map(s.logicalDatabases, OfLogicalDatabase)
  }

  function FailedDeployProblem(d: Deployed, projectName: string): Problem
  {
    Problem(d.Key(), DEPLOY_FAILED, SeverityFor(d.environment), d.project, projectName, d.environment,
            DisplayName(d.meta), d.kind, d.path, "")
  }

  function DeployProblems(c: Context, open: set<string>, d: Deployed): seq<Problem>
  {
    if d.NotReady() && (d.GaveUp() || d.Key() in open)
    then [FailedDeployProblem(d, Lookup(c.projects, d.project))] else []
  }

  predicate NothingAnswers(deployments: Option<map<(string, string), Deployment>>, app: App)
  {
    && app.deployEnabled && !Quiet(app.meta) && app.targetNamespace != ""
    && Find(app.conditions, "Ready").Some? && Find(app.conditions, "Ready").value.status == "True"
    && deployments.Some? && (app.targetNamespace, app.meta.name) in deployments.value
    && var deployment := deployments.value[(app.targetNamespace, app.meta.name)];
       && !deployment.deleting
       && (deployment.replicas.Some? ==> deployment.replicas.value != 0) && deployment.available <= 0
  }

  function DownProblem(app: App, projectName: string): Problem
  {
    Problem(ProblemKey(SERVICE_DOWN, [app.meta.name]), SERVICE_DOWN, SeverityFor(app.environment), app.project, projectName,
            app.environment, DisplayName(app.meta), AppKind(app), AppPath(app), "")
  }

  function DownProblems(c: Context, deployments: Option<map<(string, string), Deployment>>, app: App): seq<Problem>
  {
    if NothingAnswers(deployments, app) then [DownProblem(app, Lookup(c.projects, app.project))] else []
  }

  function BackupProblem(db: Database, projectName: string): Problem
  {
    Problem(ProblemKey(BACKUP_FAILED, [db.meta.name]), BACKUP_FAILED, Critical, db.project, projectName, db.environment,
            DisplayName(db.meta), "database", ResourcePath(db.project, "databases", db.meta.name), "")
  }

  predicate AtRisk(db: Database)
  {
    !Quiet(db.meta) && db.backupState == Some("AtRisk")
  }

  function BackupProblems(c: Context, db: Database): seq<Problem>
  {
    if AtRisk(db) then [BackupProblem(db, Lookup(c.projects, db.project))] else []
  }

  function NodeProblem(name: string): Problem
  {
    Problem(ProblemKey(NODE_UNHEALTHY, [name]), NODE_UNHEALTHY, Critical, "", "", "", name, "node", "/cluster", "")
  }

  predicate SetUpFailed(node: GeassNode)
  {
    !node.deleting && (node.phase == "Failed" || node.phase == "Error")
  }

  predicate SaysNotReady(condition: Condition)
  {
    condition.kind == "Ready" && condition.status != "True"
  }

  predicate NotWorking(upgrading: set<string>, node: KubeNode)
  {
    !node.deleting && node.name !in upgrading && exists c :: c in node.conditions && SaysNotReady(c)
  }

  function GeassNodeProblems(node: GeassNode): seq<Problem>
  {
    if SetUpFailed(node) then [NodeProblem(node.name)] else []
  }

  function KubeNodeProblems(upgrading: set<string>, node: KubeNode): seq<Problem>
  {
    if NotWorking(upgrading, node) then [NodeProblem(node.name)] else []
  }

  predicate IsUpgrading(cluster: Cluster)
  {
    cluster.upgrade.Some? && cluster.upgrade.value.currentNode != ""
  }

  function Upgrading(clusters: seq<Cluster>): (names: set<string>)
    ensures forall n :: n in names <==> exists c :: c in clusters && IsUpgrading(c) && c.upgrade.value.currentNode == n
  {
    set c | c in clusters && IsUpgrading(c) :: c.upgrade.value.currentNode
  }

  function ClusterProblem(cluster: Cluster, detail: string, severity: Severity): Problem
  {
    Problem(ProblemKey(CLUSTER_ISSUE, [detail, cluster.name]), CLUSTER_ISSUE, severity, "", "", "", cluster.name, "cluster", "/cluster", detail)
  }

  const DETAILS := ["upgrade", "ready", "issuer", "netpol", "snapshots"]

  predicate ConditionFalse(cluster: Cluster, kind: string)
  {
    Find(cluster.conditions, kind).Some? && Find(cluster.conditions, kind).value.status == "False"
  }

  /** Whether a cluster has the problem a detail names. */
  predicate HasIssue(cluster: Cluster, detail: string)
  {
    match detail
    case "upgrade" => cluster.upgrade.Some? && cluster.upgrade.value.phase == "Failed"
    case "ready" => ConditionFalse(cluster, "Ready") && Find(cluster.conditions, "Ready").value.reason == "ProvisionFailed"
    case "issuer" => ConditionFalse(cluster, "ClusterIssuerReady")
    case "netpol" => ConditionFalse(cluster, "NetworkPolicyEnforced")
    case "snapshots" => ConditionFalse(cluster, "EtcdSnapshotsCurrent") && Find(cluster.conditions, "EtcdSnapshotsCurrent").value.reason != "WaitingForFirstCopy"
    case _ => false
  }

  function IssueSeverity(detail: string): Severity
  {
    if detail == "upgrade" || detail == "ready" then Critical else Warning
  }

  function IssuesFrom(cluster: Cluster, details: seq<string>): seq<Problem>
  {
    if details == [] then []
    else
      IssuesFrom(cluster, details[..|details| - 1]) +
      var detail := details[|details| - 1];
      if HasIssue(cluster, detail) then [ClusterProblem(cluster, detail, IssueSeverity(detail))] else []
  }

  function ClusterProblems(cluster: Cluster): seq<Problem>
  {
    if cluster.deleting then [] else IssuesFrom(cluster, DETAILS)
  }

  predicate Suspected(app: App)
  {
    && Find(app.conditions, "AbuseSuspected").Some? && Find(app.conditions, "AbuseSuspected").value.status == "True"
    && !app.meta.deleting
  }

  function AbuseProblem(app: App, projectName: string): Problem
    requires Suspected(app)
  {
    Problem(ProblemKey(ABUSE_SUSPECTED, [app.meta.name]), ABUSE_SUSPECTED,
            if Find(app.conditions, "AbuseSuspected").value.reason == "Suspended" then Critical else Warning,
            "", "", app.environment, DisplayName(app.meta), AppKind(app), AppPath(app),
            FirstNonEmpty(projectName, app.project) + " / " + app.environment)
  }

  function AbuseProblems(c: Context, app: App): seq<Problem>
  {
    if Suspected(app) then [AbuseProblem(app, Lookup(c.projects, app.project))] else []
  }

  // ----- the map of problems

  function BuildRule(c: Context): Build -> seq<Problem> { b => BuildProblems(c, b) }
  function DeployRule(c: Context, open: set<string>): Deployed -> seq<Problem> { d => DeployProblems(c, open, d) }
  function DownRule(c: Context, deployments: Option<map<(string, string), Deployment>>): App -> seq<Problem> { a => DownProblems(c, deployments, a) }
  function BackupRule(c: Context): Database -> seq<Problem> { d => BackupProblems(c, d) }
  function KubeNodeRule(upgrading: set<string>): KubeNode -> seq<Problem> { n => KubeNodeProblems(upgrading, n) }
  function AbuseRule(c: Context): App -> seq<Problem> { a => AbuseProblems(c, a) }

  /** What a rule adds for a list, in order. */
  function Gather<T>(xs: seq<T>, rule: T -> seq<Problem>): seq<Problem>
  {
    if xs == [] then [] else Gather(xs[..|xs| - 1], rule) + rule(xs[|xs| - 1])
  }

  function AddAll(found: map<string, Problem>, problems: seq<Problem>): map<string, Problem>
  {
    if problems == [] then found
    else
      var last := problems[|problems| - 1];
      AddAll(found, problems[..|problems| - 1])[last.key := last]
  }

  function ProjectNames(projects: seq<Project>): map<string, string>
  {
    if projects == [] then map[]
    else
      var last := projects[|projects| - 1];
      ProjectNames(projects[..|projects| - 1])[last.name := FirstNonEmpty(last.displayName, last.name)]
  }

  function AppsByName(apps: seq<App>): map<string, App>
  {
    if apps == [] then map[]
    else
      var last := apps[|apps| - 1];
      AppsByName(apps[..|apps| - 1])[last.meta.name := last]
  }

  function ContextOf(s: Snapshot): Context
  {
    Context(ProjectNames(s.projects), AppsByName(s.apps))
  }

  function TrimDown(key: string): string
  {
    if HasPrefix(key, SERVICE_DOWN + "/") then key[|SERVICE_DOWN| + 1..] else key
  }

  predicate FailsToDeploy(found: map<string, Problem>, name: string)
  {
    ProblemKey(DEPLOY_FAILED, ["service", name]) in found || ProblemKey(DEPLOY_FAILED, ["function", name]) in found
  }

  predicate SaidTwice(found: map<string, Problem>, key: string)
    requires key in found
  {
    found[key].kind == SERVICE_DOWN && FailsToDeploy(found, TrimDown(key))
  }

  function WithoutSaidTwice(found: map<string, Problem>): map<string, Problem>
  {
    map key | key in found && !SaidTwice(found, key) :: found[key]
  }

  function AfterDeploys(s: Snapshot): map<string, Problem>
  {
    AddAll(AddAll(map[], Gather(s.builds, BuildRule(ContextOf(s)))), Gather(AllDeployed(s), DeployRule(ContextOf(s), s.open)))
  }

  function BeforeCleanup(s: Snapshot): map<string, Problem>
  {
    AddAll(AfterDeploys(s), Gather(s.apps, DownRule(ContextOf(s), s.deployments)))
  }

  /** The problems of the rules after the down check, in order. */
  function Rest(s: Snapshot): seq<Problem>
  {
    Gather(s.databases, BackupRule(ContextOf(s))) + Gather(s.geassNodes, GeassNodeProblems) +
    Gather(s.kubeNodes, KubeNodeRule(Upgrading(s.clusters))) + Gather(s.clusters, ClusterProblems) +
    Gather(s.apps, AbuseRule(ContextOf(s)))
  }

  /** The map evaluateProblems sorts. */
  function FoundOf(s: Snapshot): map<string, Problem>
  {
    AddAll(WithoutSaidTwice(BeforeCleanup(s)), Rest(s))
  }
}
