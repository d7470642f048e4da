/** evaluateProblems as the operator runs it: an object that the rules fill, then a sort by key. */
module AlertingEvaluation {
  import opened Wrappers
  import opened Text
  import opened Alerting
  import opened AlertingOrder
  import opened AlertingKeys
  import opened AlertingSpec
  import opened AlertingRules

  class ProblemEvaluation {
    const snapshot: Snapshot
    const context: Context
    var found: map<string, Problem>

    constructor (snapshot: Snapshot, context: Context)
      ensures this.snapshot == snapshot && this.context == context && found == map[]
    {
      this.snapshot := snapshot;
      this.context := context;
      found := map[];
    }

    method Add(problem: Problem)
      modifies this
      ensures found == old(found)[problem.key := problem]
    {
      found := found[problem.key := problem];
    }

    method Builds()
      modifies this
      ensures found == AddAll(old(found), Gather(snapshot.builds, BuildRule(context)))
    {
      for i := 0 to |snapshot.builds|
        invariant found == AddAll(old(found), Gather(snapshot.builds[..i], BuildRule(context)))
      {
        var build := snapshot.builds[i];
        AddAllGather(old(found), snapshot.builds, BuildRule(context), i);
        if build.phase != "Failed" || build.deleting || build.app !in context.apps {
          continue;
        }
        var app := context.apps[build.app];
        if Quiet(app.meta) || (app.currentBuild != "" && app.currentBuild != build.name) {
          continue;
        }
        Add(FailedBuildProblem(build, app, Lookup(context.projects, build.project)));
      }
      assert snapshot.builds[..|snapshot.builds|] == snapshot.builds;
    }

    method AllThatIsDeployed() returns (all: seq<Deployed>)
      ensures all == AllDeployed(snapshot)
    {
      all := [];
      for i := 0 to |snapshot.apps|
        invariant all == Map(snapshot.apps, OfApp)[..i]
      {
        all := all + [OfApp(snapshot.apps[i])];
      }
      ghost var apps := all;
      for i := 0 to |snapshot.databases|
        invariant all == apps + Map(snapshot.databases, OfDatabase)[..i]
      {
        all := all + [OfDatabase(snapshot.databases[i])];
      }
      ghost var databases := all;
      for i := 0 to |snapshot.objectStores|
        invariant all == databases + Map(snapshot.objectStores, OfObjectStore)[..i]
      {
        all := all + [OfObjectStore(snapshot.objectStores[i])];
      }
      ghost var stores := all;
      for i := 0 to |snapshot.logicalDatabases|
        invariant all == stores + Map(snapshot.logicalDatabases, OfLogicalDatabase)[..i]
      {
        all := all + [OfLogicalDatabase(snapshot.logicalDatabases[i])];
      }
    }

    method Deploys()
      modifies this
      ensures found == AddAll(old(found), Gather(AllDeployed(snapshot), DeployRule(context, snapshot.open)))
    {
      var all := AllThatIsDeployed();
      DeploysOf(all);
    }

    method DeploysOf(all: seq<Deployed>)
      modifies this
      ensures found == AddAll(old(found), Gather(all, DeployRule(context, snapshot.open)))
    {
      for i := 0 to |all|
        invariant found == AddAll(old(found), Gather(all[..i], DeployRule(context, snapshot.open)))
      {
        var d := all[i];
        AddAllGather(old(found), all, DeployRule(context, snapshot.open), i);
        if !d.active || Quiet(d.meta) {
          continue;
        }
        var ready := d.Ready();
        if ready.None? || ready.value.status == "True" {
          continue;
        }
        if ready.value.reason != "ProvisionFailed" && d.Key() !in snapshot.open {
          continue;
        }
        Add(FailedDeployProblem(d, Lookup(context.projects, d.project)));
      }
      assert all[..|all|] == all;
    }

    method ServicesDown()
      requires Keyed(found)
      modifies this
      ensures found == WithoutSaidTwice(AddAll(old(found), Gather(snapshot.apps, DownRule(context, snapshot.deployments))))
    {
      DownsAreWellKeyed(context, snapshot.deployments, snapshot.apps);
      AddAllKeyed(found, Gather(snapshot.apps, DownRule(context, snapshot.deployments)));
      FindServicesDown();
      DropWhatIsSaidTwice();
    }

    method FindServicesDown()
      modifies this
      ensures found == AddAll(old(found), Gather(snapshot.apps, DownRule(context, snapshot.deployments)))
    {
      for i := 0 to |snapshot.apps|
        invariant found == AddAll(old(found), Gather(snapshot.apps[..i], DownRule(context, snapshot.deployments)))
      {
        var app := snapshot.apps[i];
        AddAllGather(old(found), snapshot.apps, DownRule(context, snapshot.deployments), i);
        if !app.deployEnabled || Quiet(app.meta) || app.targetNamespace == "" || snapshot.deployments.None? {
          continue;
        }
        var ready := Find(app.conditions, "Ready");
        if ready.None? || ready.value.status != "True" {
          continue;
        }
        if (app.targetNamespace, app.meta.name) !in snapshot.deployments.value {
          continue;
        }
        var deployment := snapshot.deployments.value[(app.targetNamespace, app.meta.name)];
        if deployment.deleting {
          continue;
        }
        var wanted := if deployment.replicas.Some? then deployment.replicas.value else 1;
        if wanted == 0 || deployment.available > 0 {
          continue;
        }
        Add(DownProblem(app, Lookup(context.projects, app.project)));
      }
      assert snapshot.apps[..|snapshot.apps|] == snapshot.apps;
    }

    /** The loop over the map that deletes from it, in whatever order the map gives its keys. */
    method DropWhatIsSaidTwice()
      requires Keyed(found)
      modifies this
      ensures found == WithoutSaidTwice(old(found))
    {
      ghost var before := found;
      var left := found.Keys;
      while left != {}
        invariant left <= before.Keys
        invariant found == map key | key in before && (key in left || !SaidTwice(before, key)) :: before[key]
        decreases left
      {
        var key :| key in left;
        left := left - {key};
        if found[key].kind != SERVICE_DOWN {
          continue;
        }
        var name := TrimDown(key);
        DeployKeysAreNotDown(before, "service", name);
        DeployKeysAreNotDown(before, "function", name);
        if ProblemKey(DEPLOY_FAILED, ["service", name]) in found || ProblemKey(DEPLOY_FAILED, ["function", name]) in found {
          found := found - {key};
        }
      }
    }

    method Backups()
      modifies this
      ensures found == AddAll(old(found), Gather(snapshot.databases, BackupRule(context)))
    {
      for i := 0 to |snapshot.databases|
        invariant found == AddAll(old(found), Gather(snapshot.databases[..i], BackupRule(context)))
      {
        var db := snapshot.databases[i];
        AddAllGather(old(found), snapshot.databases, BackupRule(context), i);
        if Quiet(db.meta) || db.backupState.None? || db.backupState.value != "AtRisk" {
          continue;
        }
        Add(BackupProblem(db, Lookup(context.projects, db.project)));
      }
      assert snapshot.databases[..|snapshot.databases|] == snapshot.databases;
    }

    method Nodes()
      modifies this
      ensures found == AddAll(AddAll(old(found), Gather(snapshot.geassNodes, GeassNodeProblems)),
                              Gather(snapshot.kubeNodes, KubeNodeRule(Upgrading(snapshot.clusters))))
    {
      var upgrading: set<string> := {};
      for i := 0 to |snapshot.clusters|
        invariant upgrading == Upgrading(snapshot.clusters[..i])
      {
        var upgrade := snapshot.clusters[i].upgrade;
        assert snapshot.clusters[..i + 1] == snapshot.clusters[..i] + [snapshot.clusters[i]];
        if upgrade.Some? && upgrade.value.currentNode != "" {
          upgrading := upgrading + {upgrade.value.currentNode};
        }
      }
      assert snapshot.clusters[..|snapshot.clusters|] == snapshot.clusters;
      for i := 0 to |snapshot.geassNodes|
        invariant found == AddAll(old(found), Gather(snapshot.geassNodes[..i], GeassNodeProblems))
      {
        var node := snapshot.geassNodes[i];
        AddAllGather(old(found), snapshot.geassNodes, GeassNodeProblems, i);
        if !node.deleting && (node.phase == "Failed" || node.phase == "Error") {
          Add(NodeProblem(node.name));
        }
      }
      assert snapshot.geassNodes[..|snapshot.geassNodes|] == snapshot.geassNodes;
      ghost var middle := found;
      for i := 0 to |snapshot.kubeNodes|
        invariant found == AddAll(middle, Gather(snapshot.kubeNodes[..i], KubeNodeRule(upgrading)))
      {
        AddAllGather(middle, snapshot.kubeNodes, KubeNodeRule(upgrading), i);
        KubeNode(snapshot.kubeNodes[i], upgrading);
      }
      assert snapshot.kubeNodes[..|snapshot.kubeNodes|] == snapshot.kubeNodes;
    }

    /** One node of Kubernetes, added once for each of its conditions that says it is not ready. */
    method KubeNode(node: KubeNode, upgrading: set<string>)
      modifies this
      ensures found == AddAll(old(found), KubeNodeProblems(upgrading, node))
    {
      if node.deleting || node.name in upgrading {
        return;
      }
      for j := 0 to |node.conditions|
        invariant found ==
                  if exists c :: c in node.conditions[..j] && SaysNotReady(c)
                  then old(found)[NodeProblem(node.name).key := NodeProblem(node.name)] else old(found)
      {
        assert node.conditions[..j + 1] == node.conditions[..j] + [node.conditions[j]];
        if node.conditions[j].kind == "Ready" && node.conditions[j].status != "True" {
          assert SaysNotReady(node.conditions[j]) && node.conditions[j] in node.conditions[..j + 1];
          Add(NodeProblem(node.name));
        }
      }
      assert node.conditions[..|node.conditions|] == node.conditions;
    }

    method Clusters()
      modifies this
      ensures found == AddAll(old(found), Gather(snapshot.clusters, ClusterProblems))
    {
      for i := 0 to |snapshot.clusters|
        invariant found == AddAll(old(found), Gather(snapshot.clusters[..i], ClusterProblems))
      {
        var cluster := snapshot.clusters[i];
        AddAllGather(old(found), snapshot.clusters, ClusterProblems, i);
        if cluster.deleting {
          continue;
        }
        Issues(cluster);
      }
      assert snapshot.clusters[..|snapshot.clusters|] == snapshot.clusters;
    }

    method Issues(cluster: Cluster)
      modifies this
      ensures found == AddAll(old(found), IssuesFrom(cluster, DETAILS))
    {
      ghost var before := found;
      IssuesByName(cluster);
      assert DETAILS[..0] == [] && DETAILS[..5] == DETAILS;
      var upgrade := cluster.upgrade;
      AddIssue(before, cluster, 0, "upgrade", Critical, upgrade.Some? && upgrade.value.phase == "Failed");
      var ready := Find(cluster.conditions, "Ready");
      AddIssue(before, cluster, 1, "ready", Critical, ready.Some? && ready.value.status == "False" && ready.value.reason == "ProvisionFailed");
      var issuer := Find(cluster.conditions, "ClusterIssuerReady");
      AddIssue(before, cluster, 2, "issuer", Warning, issuer.Some? && issuer.value.status == "False");
      var policy := Find(cluster.conditions, "NetworkPolicyEnforced");
      AddIssue(before, cluster, 3, "netpol", Warning, policy.Some? && policy.value.status == "False");
      var copies := Find(cluster.conditions, "EtcdSnapshotsCurrent");
      AddIssue(before, cluster, 4, "snapshots", Warning, copies.Some? && copies.value.status == "False" && copies.value.reason != "WaitingForFirstCopy");
    }

    /** One of the five checks of a cluster, and what it adds. */
    method AddIssue(ghost before: map<string, Problem>, cluster: Cluster, ghost k: nat, detail: string, severity: Severity, has: bool)
      requires k < |DETAILS| && found == AddAll(before, IssuesFrom(cluster, DETAILS[..k]))
      requires IssueIs(cluster, k, detail, severity, has)
      modifies this
      ensures found == AddAll(before, IssuesFrom(cluster, DETAILS[..k + 1]))
    {
      IssueAdded(before, cluster, DETAILS, k);
      if has {
        Add(ClusterProblem(cluster, detail, severity));
      }
    }

    method Abuse()
      modifies this
      ensures found == AddAll(old(found), Gather(snapshot.apps, AbuseRule(context)))
    {
      for i := 0 to |snapshot.apps|
        invariant found == AddAll(old(found), Gather(snapshot.apps[..i], AbuseRule(context)))
      {
        var app := snapshot.apps[i];
        AddAllGather(old(found), snapshot.apps, AbuseRule(context), i);
        var condition := Find(app.conditions, "AbuseSuspected");
        if condition.None? || condition.value.status != "True" || app.meta.deleting {
          continue;
        }
        Add(AbuseProblem(app, Lookup(context.projects, app.project)));
      }
      assert snapshot.apps[..|snapshot.apps|] == snapshot.apps;
    }
  }

  /** The k-th check is for a detail, with a severity, and finds it or not. */
  ghost predicate IssueIs(cluster: Cluster, k: nat, detail: string, severity: Severity, has: bool)
    requires k < |DETAILS|
  {
    DETAILS[k] == detail && IssueSeverity(detail) == severity && (HasIssue(cluster, detail) <==> has)
  }

  lemma IssuesByName(cluster: Cluster)
    ensures IssueIs(cluster, 0, "upgrade", Critical, cluster.upgrade.Some? && cluster.upgrade.value.phase == "Failed")
    ensures IssueIs(cluster, 1, "ready", Critical, ConditionFalse(cluster, "Ready") && Find(cluster.conditions, "Ready").value.reason == "ProvisionFailed")
    ensures IssueIs(cluster, 2, "issuer", Warning, ConditionFalse(cluster, "ClusterIssuerReady"))
    ensures IssueIs(cluster, 3, "netpol", Warning, ConditionFalse(cluster, "NetworkPolicyEnforced"))
    ensures IssueIs(cluster, 4, "snapshots", Warning,
                    ConditionFalse(cluster, "EtcdSnapshotsCurrent") && Find(cluster.conditions, "EtcdSnapshotsCurrent").value.reason != "WaitingForFirstCopy")
  {
  }

  lemma IssueAdded(before: map<string, Problem>, cluster: Cluster, details: seq<string>, k: nat)
    requires k < |details|
    ensures
      var added := AddAll(before, IssuesFrom(cluster, details[..k]));
      var p := ClusterProblem(cluster, details[k], IssueSeverity(details[k]));
      AddAll(before, IssuesFrom(cluster, details[..k + 1])) == if HasIssue(cluster, details[k]) then added[p.key := p] else added
  {
    var front, detail := details[..k], details[k];
    assert details[..k + 1][..k] == front;
    var issues, p := IssuesFrom(cluster, front), ClusterProblem(cluster, detail, IssueSeverity(detail));
    if HasIssue(cluster, detail) {
      assert IssuesFrom(cluster, details[..k + 1]) == issues + [p];
      AddAllOne(before, issues, p);
    } else {
      assert IssuesFrom(cluster, details[..k + 1]) == issues;
    }
  }

  /** The problems of the map, sorted by key: one for each key, each after the ones before it. */
  method Sorted(found: map<string, Problem>) returns (problems: seq<Problem>)
    requires Keyed(found)
    ensures StrictlySorted(problems)
    ensures forall p :: p in problems <==> p.key in found && found[p.key] == p
  {
    problems := [];
    var left := found.Keys;
    while left != {}
      invariant left <= found.Keys
      invariant StrictlySorted(problems)
      invariant forall p :: p in problems <==> p.key in found && p.key !in left && found[p.key] == p
      decreases left
    {
      var key :| key in left;
      left := left - {key};
      problems := Insert(problems, found[key]);
    }
  }

  method Insert(problems: seq<Problem>, p: Problem) returns (longer: seq<Problem>)
    requires StrictlySorted(problems)
    requires forall q :: q in problems ==> q.key != p.key
    ensures StrictlySorted(longer)
    ensures forall q :: q in longer <==> q == p || q in problems
  {
    var i := 0;
    while i < |problems| && Less(problems[i].key, p.key)
      invariant i <= |problems|
      invariant forall j :: 0 <= j < i ==> Less(problems[j].key, p.key)
    {
      i := i + 1;
    }
    forall j | i <= j < |problems| ensures Less(p.key, problems[j].key) {
      LessIsTotal(problems[i].key, p.key);
      if j > i {
        LessIsTransitive(p.key, problems[i].key, problems[j].key);
      }
    }
    longer := problems[..i] + [p] + problems[i..];
    assert problems == problems[..i] + problems[i..];
  }

  method IndexProjects(projects: seq<Project>) returns (names: map<string, string>)
    ensures names == ProjectNames(projects)
  {
    names := map[];
    for i := 0 to |projects|
      invariant names == ProjectNames(projects[..i])
    {
      assert projects[..i + 1][..i] == projects[..i];
      names := names[projects[i].name := FirstNonEmpty(projects[i].displayName, projects[i].name)];
    }
    assert projects[..|projects|] == projects;
  }

  method IndexApps(apps: seq<App>) returns (byName: map<string, App>)
    ensures byName == AppsByName(apps)
  {
    byName := map[];
    for i := 0 to |apps|
      invariant byName == AppsByName(apps[..i])
    {
      assert apps[..i + 1][..i] == apps[..i];
      byName := byName[apps[i].meta.name := apps[i]];
    }
    assert apps[..|apps|] == apps;
  }

  /** evaluateProblems: sorted, one problem for each key, and with unique names exactly what is wrong. */
  method EvaluateProblems(s: Snapshot) returns (problems: seq<Problem>)
    ensures IsResult(s, problems)
    ensures UniqueNames(s) ==> forall p :: p in problems <==> IsProblem(s, p)
  {
    var projects := IndexProjects(s.projects);
    var apps := IndexApps(s.apps);
    var e := new ProblemEvaluation(s, Context(projects, apps));
    FoundIsKeyed(s);
    e.Builds();
    e.Deploys();
    assert e.found == AfterDeploys(s);
    e.ServicesDown();
    ghost var cleaned := e.found;
    assert cleaned == WithoutSaidTwice(BeforeCleanup(s));
    RestInTurn(s, cleaned);
    e.Backups();
    e.Nodes();
    e.Clusters();
    e.Abuse();
    assert e.found == FoundOf(s);
    problems := Sorted(e.found);
    if UniqueNames(s) {
      forall p ensures p in problems <==> IsProblem(s, p) {
        FoundIsWhatIsWrong(s, p);
        RulesAgree(s, p);
      }
    }
  }
}
