/** Keys of problems: they tell kinds apart, and a map filled by the rules holds each problem under its own key. */
module AlertingKeys {
  import opened Wrappers
  import opened Text
  import opened Alerting

  /** A problem's key begins with its kind, which holds no slash. */
  ghost predicate WellKeyed(p: Problem)
  {
    Without(p.kind, '/') && HasPrefix(p.key, p.kind + "/")
  }

  ghost predicate AllWellKeyed(problems: seq<Problem>)
  {
    forall p :: p in problems ==> WellKeyed(p)
  }

  ghost predicate Keyed(found: map<string, Problem>)
  {
    forall key :: key in found ==> found[key].key == key && WellKeyed(found[key])
  }

  lemma KeyNamesKind(p: Problem, kind: string, rest: string)
    requires WellKeyed(p) && Without(kind, '/') && p.key == kind + "/" + rest
    ensures p.kind == kind
  {
    var rest' := p.key[|p.kind| + 1..];
    assert p.key == p.kind + "/" + rest';
    SplitAtSeparator(p.kind, kind, rest', rest, '/');
  }

  lemma DeployKeysAreNotDown(found: map<string, Problem>, kind: string, name: string)
    requires Keyed(found)
    ensures ProblemKey(DEPLOY_FAILED, [kind, name]) in found ==> found[ProblemKey(DEPLOY_FAILED, [kind, name])].kind == DEPLOY_FAILED
  {
    var key := ProblemKey(DEPLOY_FAILED, [kind, name]);
    if key in found {
      KeyNamesKind(found[key], DEPLOY_FAILED, Join([kind, name]));
    }
  }

  // ----- adding to the map

  lemma AddAllOne(found: map<string, Problem>, problems: seq<Problem>, p: Problem)
    ensures AddAll(found, problems + [p]) == AddAll(found, problems)[p.key := p]
  {
    assert (problems + [p])[..|problems|] == problems;
  }

  lemma {:induction false} AddAllConcat(found: map<string, Problem>, a: seq<Problem>, b: seq<Problem>)
    ensures AddAll(found, a + b) == AddAll(AddAll(found, a), b)
    decreases |b|
  {
    if b == [] {
      assert a + b == a;
    } else {
      var n := |b| - 1;
      assert a + b == (a + b[..n]) + [b[n]];
      AddAllConcat(found, a, b[..n]);
      AddAllOne(found, a + b[..n], b[n]);
    }
  }

  lemma AddAllGather<T>(found: map<string, Problem>, xs: seq<T>, rule: T -> seq<Problem>, i: nat)
    requires i < |xs|
    ensures AddAll(found, Gather(xs[..i + 1], rule)) == AddAll(AddAll(found, Gather(xs[..i], rule)), rule(xs[i]))
  {
    assert xs[..i + 1][..i] == xs[..i];
    AddAllConcat(found, Gather(xs[..i], rule), rule(xs[i]));
  }

  lemma {:induction false} InGather<T>(xs: seq<T>, rule: T -> seq<Problem>, p: Problem)
    ensures p in Gather(xs, rule) <==> exists x :: x in xs && p in rule(x)
  {
    if xs != [] {
      var n := |xs| - 1;
      InGather(xs[..n], rule, p);
      assert xs == xs[..n] + [xs[n]];
    }
  }

  /** A key of the map came with it or with a problem that was added, and so did the problem it holds. */
  lemma {:induction false} AddAllHolds(found: map<string, Problem>, problems: seq<Problem>)
    ensures forall key :: key in AddAll(found, problems) <==> key in found || exists p :: p in problems && p.key == key
    ensures forall key :: key in AddAll(found, problems) ==>
              || (AddAll(found, problems)[key] in problems && AddAll(found, problems)[key].key == key)
              || (key in found && AddAll(found, problems)[key] == found[key] && forall p :: p in problems ==> p.key != key)
  {
    if problems != [] {
      var n := |problems| - 1;
      AddAllHolds(found, problems[..n]);
      assert problems == problems[..n] + [problems[n]];
    }
  }

  ghost predicate Adds(problems: seq<Problem>, key: string)
  {
    exists p :: p in problems && p.key == key
  }

  lemma AddAllKey(found: map<string, Problem>, problems: seq<Problem>, key: string)
    ensures key in AddAll(found, problems) <==> key in found || Adds(problems, key)
  {
    AddAllHolds(found, problems);
  }

  lemma AddAllKeyed(found: map<string, Problem>, problems: seq<Problem>)
    requires Keyed(found) && AllWellKeyed(problems)
    ensures Keyed(AddAll(found, problems))
  {
    AddAllHolds(found, problems);
  }

  lemma {:induction false} IssuesAreWellKeyed(cluster: Cluster, details: seq<string>)
    ensures AllWellKeyed(IssuesFrom(cluster, details))
  {
    if details != [] {
      IssuesAreWellKeyed(cluster, details[..|details| - 1]);
    }
  }

  lemma BuildsAreWellKeyed(c: Context, builds: seq<Build>)
    ensures AllWellKeyed(Gather(builds, BuildRule(c)))
  {
    GatherWellKeyed(builds, BuildRule(c));
  }

  lemma DeploysAreWellKeyed(c: Context, open: set<string>, all: seq<Deployed>)
    ensures AllWellKeyed(Gather(all, DeployRule(c, open)))
  {
    forall d | d in all ensures AllWellKeyed(DeployRule(c, open)(d)) {
      assert Without(DEPLOY_FAILED, '/');
    }
    GatherWellKeyed(all, DeployRule(c, open));
  }

  lemma DownsAreWellKeyed(c: Context, deployments: Option<map<(string, string), Deployment>>, apps: seq<App>)
    ensures AllWellKeyed(Gather(apps, DownRule(c, deployments)))
  {
    GatherWellKeyed(apps, DownRule(c, deployments));
  }

  lemma BackupsAreWellKeyed(c: Context, databases: seq<Database>)
    ensures AllWellKeyed(Gather(databases, BackupRule(c)))
  {
    GatherWellKeyed(databases, BackupRule(c));
  }

  lemma NodesAreWellKeyed(geassNodes: seq<GeassNode>, kubeNodes: seq<KubeNode>, upgrading: set<string>)
    ensures AllWellKeyed(Gather(geassNodes, GeassNodeProblems)) && AllWellKeyed(Gather(kubeNodes, KubeNodeRule(upgrading)))
  {
    GatherWellKeyed(geassNodes, GeassNodeProblems);
    GatherWellKeyed(kubeNodes, KubeNodeRule(upgrading));
  }

  lemma ClustersAreWellKeyed(clusters: seq<Cluster>)
    ensures AllWellKeyed(Gather(clusters, ClusterProblems))
  {
    forall cluster | cluster in clusters ensures AllWellKeyed(ClusterProblems(cluster)) {
      IssuesAreWellKeyed(cluster, DETAILS);
    }
    GatherWellKeyed(clusters, ClusterProblems);
  }

  lemma AbuseIsWellKeyed(c: Context, apps: seq<App>)
    ensures AllWellKeyed(Gather(apps, AbuseRule(c)))
  {
    GatherWellKeyed(apps, AbuseRule(c));
  }

  lemma RestIsWellKeyed(s: Snapshot)
    ensures AllWellKeyed(Rest(s))
  {
    BackupsAreWellKeyed(ContextOf(s), s.databases);
    NodesAreWellKeyed(s.geassNodes, s.kubeNodes, Upgrading(s.clusters));
    ClustersAreWellKeyed(s.clusters);
    AbuseIsWellKeyed(ContextOf(s), s.apps);
  }

  lemma GatherWellKeyed<T>(xs: seq<T>, rule: T -> seq<Problem>)
    requires forall x :: x in xs ==> AllWellKeyed(rule(x))
    ensures AllWellKeyed(Gather(xs, rule))
  {
    forall p | p in Gather(xs, rule) ensures WellKeyed(p) {
      InGather(xs, rule, p);
    }
  }

  lemma FoundIsKeyed(s: Snapshot)
    ensures Keyed(AfterDeploys(s)) && Keyed(BeforeCleanup(s)) && Keyed(FoundOf(s))
  {
    BuildsAreWellKeyed(ContextOf(s), s.builds);
    DeploysAreWellKeyed(ContextOf(s), s.open, AllDeployed(s));
    DownsAreWellKeyed(ContextOf(s), s.deployments, s.apps);
    RestIsWellKeyed(s);
    AddAllKeyed(map[], Gather(s.builds, BuildRule(ContextOf(s))));
    AddAllKeyed(AddAll(map[], Gather(s.builds, BuildRule(ContextOf(s)))), Gather(AllDeployed(s), DeployRule(ContextOf(s), s.open)));
    AddAllKeyed(AfterDeploys(s), Gather(s.apps, DownRule(ContextOf(s), s.deployments)));
    AddAllKeyed(WithoutSaidTwice(BeforeCleanup(s)), Rest(s));
  }

  /** The last rules one after another are all of them at once. */
  lemma RestInTurn(s: Snapshot, found: map<string, Problem>)
    ensures
      var c := ContextOf(s);
      AddAll(found, Rest(s)) ==
      AddAll(AddAll(AddAll(AddAll(AddAll(found, Gather(s.databases, BackupRule(c))), Gather(s.geassNodes, GeassNodeProblems)),
                           Gather(s.kubeNodes, KubeNodeRule(Upgrading(s.clusters)))),
                    Gather(s.clusters, ClusterProblems)), Gather(s.apps, AbuseRule(c)))
  {
    var c := ContextOf(s);
    var backups, geass := Gather(s.databases, BackupRule(c)), Gather(s.geassNodes, GeassNodeProblems);
    var kube, clusters := Gather(s.kubeNodes, KubeNodeRule(Upgrading(s.clusters))), Gather(s.clusters, ClusterProblems);
    AddAllConcat(found, backups, geass);
    AddAllConcat(found, backups + geass, kube);
    AddAllConcat(found, backups + geass + kube, clusters);
    AddAllConcat(found, backups + geass + kube + clusters, Gather(s.apps, AbuseRule(c)));
  }
}
