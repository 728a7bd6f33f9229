/** What a GitChangeOperator wants of the objects it owns: the moves of one reconcile in their order,
    what each does to the store, and why repeating them, or starting over after an error, is safe. */
module OwnedObjects {
  import opened Wrappers

  type Labels = map<string, string>

  datatype HostPath = HostPath(path: string, pathType: string, service: string, port: int)

  datatype Host = Host(host: string, paths: seq<HostPath>)

  datatype Tls = Tls(hosts: seq<string>, secret: string)

  datatype Spec = Spec(
    replicas: Option<int>,
    repository: string, tag: string, pullPolicy: string,
    metricsAddr: string, probeAddr: string, leaderElect: bool,
    createAccount: bool, accountName: string,
    createRbac: bool,
    metrics: bool, serviceType: string, servicePort: int,
    monitor: bool, monitorName: string, monitorLabels: Labels, monitorAnnotations: Labels,
    ingress: bool, ingressName: string, ingressLabels: Labels, ingressAnnotations: Labels,
    ingressClass: Option<string>, hosts: seq<Host>, tls: seq<Tls>)

  // OPERAND_IMAGE and OPERATOR_SERVICE_ACCOUNT; "" if unset.
  datatype Environment = Environment(operandImage: string, serviceAccount: string)

  // One GitChangeOperator as a reconcile sees it.
  datatype Context = Context(name: string, env: Environment, spec: Spec)

  /* The owned objects, with the fields a reconcile sets. All live in one namespace; owner is the
     controller reference. */

  datatype Container = Container(name: string, image: string, pullPolicy: string, args: seq<string>)

  datatype Deployment = Deployment(owner: string, replicas: int, account: string, containers: seq<Container>)

  datatype ServiceAccount = ServiceAccount(owner: string, labels: Labels, pullSecrets: seq<string>)

  datatype PolicyRule = PolicyRule(group: string, resources: seq<string>, verbs: seq<string>)

  datatype Role = Role(owner: string, rules: seq<PolicyRule>)

  datatype RoleBinding = RoleBinding(owner: string, role: string, subjects: seq<string>)

  datatype Service = Service(owner: string, kind: string, ports: seq<int>, selector: Labels)

  datatype Monitor = Monitor(owner: string, labels: Labels, annotations: Labels)

  datatype IngressPath = IngressPath(path: string, pathType: string, service: string, port: int)

  datatype IngressRule = IngressRule(host: string, paths: seq<IngressPath>)

  datatype Ingress = Ingress(owner: string, className: Option<string>, rules: seq<IngressRule>, tls: seq<Tls>,
                             labels: Labels, annotations: Labels)

  // Every object in the namespace, by kind and name.
  datatype Owned = Owned(
    deployments: map<string, Deployment>,
    accounts: map<string, ServiceAccount>,
    roles: map<string, Role>,
    bindings: map<string, RoleBinding>,
    services: map<string, Service>,
    monitors: map<string, Monitor>,
    ingresses: map<string, Ingress>)

  function Or(s: string, otherwise: string): string {
    if s == "" then otherwise else s
  }

  function DeploymentName(c: Context): string { c.name + "-operator" }

  function AccountName(c: Context): string { Or(c.spec.accountName, c.name + "-controller-manager") }

  function RoleName(c: Context): string { c.name + "-manager-role" }

  function BindingName(c: Context): string { c.name + "-manager-rolebinding" }

  function ServiceName(c: Context): string { c.name + "-metrics" }

  // The name under which the metrics Service is deleted is not the one it is created under.
  function DeletedServiceName(c: Context): string { c.name + "-metrics-service" }

  function MonitorName(c: Context): string {
    Or(c.spec.monitorName, c.name + "-controller-manager-metrics-monitor")
  }

  function IngressName(c: Context): string { Or(c.spec.ingressName, c.name + "-ingress") }

  // "" if no image is configured, which is an error.
  function Image(c: Context): string {
    if c.env.operandImage != "" then c.env.operandImage
    else if c.spec.repository != "" then c.spec.repository + ":" + Or(c.spec.tag, "latest")
    else ""
  }

  // Documented as unmanaged when unset, the number of replicas is then 1.
  function Replicas(c: Context): int {
    if c.spec.replicas.Some? then c.spec.replicas.value else 1
  }

  function Args(c: Context): seq<string> {
    ["--mode=operator",
     "--metrics-bind-address=" + Or(c.spec.metricsAddr, ":8080"),
     "--health-probe-bind-address=" + Or(c.spec.probeAddr, ":8081")]
    + if c.spec.leaderElect then ["--leader-elect=true"] else []
  }

  function NewDeployment(c: Context): Deployment {
    Deployment(c.name, Replicas(c), Or(c.env.serviceAccount, c.name + "-operator"),
               [Container("operator", Image(c), Or(c.spec.pullPolicy, "IfNotPresent"), Args(c))])
  }

  function NewAccount(c: Context): ServiceAccount {
    ServiceAccount(c.name, map[], [])
  }

  const RULES: seq<PolicyRule> :=
    var all := ["create", "delete", "get", "list", "patch", "update", "watch"];
    var gco := "gco.galos.one";
    [PolicyRule("", ["events"], ["create", "patch"]),
     PolicyRule("", ["secrets"], ["get", "list", "watch"]),
     PolicyRule("apps", ["deployments"], all),
     PolicyRule("coordination.k8s.io", ["leases"], all),
     PolicyRule(gco, ["gitcommits", "pullrequests", "gitchangeoperators"], all),
     PolicyRule(gco, ["gitcommits/finalizers", "pullrequests/finalizers", "gitchangeoperators/finalizers"], ["update"]),
     PolicyRule(gco, ["gitcommits/status", "pullrequests/status", "gitchangeoperators/status"],
                ["get", "patch", "update"])]

  function NewRole(c: Context): Role {
    Role(c.name, RULES)
  }

  function NewBinding(c: Context): RoleBinding {
    RoleBinding(c.name, RoleName(c), [AccountName(c)])
  }

  function NewService(c: Context): Service {
    Service(c.name, c.spec.serviceType, [c.spec.servicePort], map["control-plane" := "controller-manager"])
  }

  function NewMonitor(c: Context): Monitor {
    Monitor(c.name, c.spec.monitorLabels, c.spec.monitorAnnotations)
  }

  function RuleOf(host: Host): IngressRule {
    IngressRule(host.host, seq(|host.paths|, i requires 0 <= i < |host.paths| => PathOf(host.paths[i])))
  }

  function PathOf(path: HostPath): IngressPath {
    IngressPath(path.path, Or(path.pathType, "Prefix"), path.service, path.port)
  }

  function NewIngress(c: Context): Ingress {
    var hosts := c.spec.hosts;
    Ingress(c.name, c.spec.ingressClass, seq(|hosts|, i requires 0 <= i < |hosts| => RuleOf(hosts[i])),
            c.spec.tls, c.spec.ingressLabels, c.spec.ingressAnnotations)
  }

  // The nested loops that build an Ingress.
  method BuildIngress(c: Context) returns (ingress: Ingress)
    ensures ingress == NewIngress(c)
  {
    var rules := [];
    for i := 0 to |c.spec.hosts|
      invariant |rules| == i
      invariant forall k :: 0 <= k < i ==> rules[k] == RuleOf(c.spec.hosts[k])
    {
      var host := c.spec.hosts[i];
      var paths := [];
      for j := 0 to |host.paths|
        invariant |paths| == j
        invariant forall k :: 0 <= k < j ==> paths[k] == PathOf(host.paths[k])
      {
        var pathType := if host.paths[j].pathType != "" then host.paths[j].pathType else "Prefix";
        paths := paths + [IngressPath(host.paths[j].path, pathType, host.paths[j].service, host.paths[j].port)];
      }
      assert paths == RuleOf(host).paths;
      rules := rules + [IngressRule(host.host, paths)];
    }
    var tls := [];
    for i := 0 to |c.spec.tls|
      invariant tls == c.spec.tls[..i]
    {
      tls := tls + [Tls(c.spec.tls[i].hosts, c.spec.tls[i].secret)];
    }
    assert rules == NewIngress(c).rules;
    ingress := Ingress(c.name, c.spec.ingressClass, rules, tls, c.spec.ingressLabels, c.spec.ingressAnnotations);
  }

  /* Moves. */

  datatype Move =
    | EnsureDeployment | EnsureAccount | EnsureRole | EnsureBinding
    | EnsureService | EnsureMonitor | EnsureIngress
    | DropService | DropMonitor | DropIngress

  function CorePlan(spec: Spec): seq<Move> {
    [EnsureDeployment] + (if spec.createAccount then [EnsureAccount] else [])
    + if spec.createRbac then [EnsureRole, EnsureBinding] else []
  }

  function MetricsPlan(spec: Spec): seq<Move> {
    if spec.metrics then [EnsureService, if spec.monitor then EnsureMonitor else DropMonitor]
    else [DropService, DropMonitor]
  }

  function IngressPlan(spec: Spec): seq<Move> {
    [if spec.ingress then EnsureIngress else DropIngress]
  }

  function Plan(spec: Spec): seq<Move> {
    CorePlan(spec) + MetricsPlan(spec) + IngressPlan(spec)
  }

  // What an update changes of an object that is there already.

  function UpdateDeployment(c: Context, d: Deployment): Deployment {
    d.(replicas := Replicas(c),
       containers := if d.containers == [] then []
                     else [d.containers[0].(image := Image(c), args := Args(c))] + d.containers[1..])
  }

  function UpdateIngress(c: Context, found: Ingress): Ingress {
    NewIngress(c).(owner := found.owner)
  }

  function Apply(c: Context, m: Move, o: Owned): Owned {
    match m
    case EnsureDeployment =>
      var n := DeploymentName(c);
      o.(deployments := o.deployments[n := if n in o.deployments then UpdateDeployment(c, o.deployments[n])
                                           else NewDeployment(c)])
    case EnsureAccount => o.(accounts := o.accounts[AccountName(c) := NewAccount(c)])
    case EnsureRole =>
      var n := RoleName(c);
      o.(roles := o.roles[n := if n in o.roles then o.roles[n].(rules := RULES) else NewRole(c)])
    case EnsureBinding =>
      var n := BindingName(c);
      o.(bindings := o.bindings[n := if n in o.bindings then o.bindings[n].(subjects := [AccountName(c)])
                                     else NewBinding(c)])
    case EnsureService =>
      var n := ServiceName(c);
      o.(services := o.services[n := if n in o.services
                                     then o.services[n].(kind := c.spec.serviceType, ports := [c.spec.servicePort])
                                     else NewService(c)])
    case EnsureMonitor => o.(monitors := o.monitors[MonitorName(c) := NewMonitor(c)])
    case EnsureIngress =>
      var n := IngressName(c);
      o.(ingresses := o.ingresses[n := if n in o.ingresses then UpdateIngress(c, o.ingresses[n]) else NewIngress(c)])
    case DropService => o.(services := o.services - {DeletedServiceName(c)})
    case DropMonitor => o.(monitors := o.monitors - {MonitorName(c)})
    case DropIngress => o.(ingresses := o.ingresses - {IngressName(c)})
  }

  function ApplyAll(c: Context, moves: seq<Move>, o: Owned): Owned {
    if moves == [] then o else ApplyAll(c, moves[1..], Apply(c, moves[0], o))
  }

  // What each move is for, independent of how it gets there.
  predicate Wanted(c: Context, m: Move, o: Owned) {
    match m
    case EnsureDeployment =>
      var n := DeploymentName(c);
      n in o.deployments &&
      var d := o.deployments[n];
      && d.replicas == Replicas(c)
      && (d.containers != [] ==> d.containers[0].image == Image(c) && d.containers[0].args == Args(c))
    case EnsureAccount => AccountName(c) in o.accounts && o.accounts[AccountName(c)] == NewAccount(c)
    case EnsureRole => RoleName(c) in o.roles && o.roles[RoleName(c)].rules == RULES
    case EnsureBinding => BindingName(c) in o.bindings && o.bindings[BindingName(c)].subjects == [AccountName(c)]
    case EnsureService =>
      var n := ServiceName(c);
      n in o.services && o.services[n].kind == c.spec.serviceType && o.services[n].ports == [c.spec.servicePort]
    case EnsureMonitor => MonitorName(c) in o.monitors && o.monitors[MonitorName(c)] == NewMonitor(c)
    case EnsureIngress =>
      var n := IngressName(c);
      n in o.ingresses && o.ingresses[n].(owner := "") == NewIngress(c).(owner := "")
    case DropService => DeletedServiceName(c) !in o.services
    case DropMonitor => MonitorName(c) !in o.monitors
    case DropIngress => IngressName(c) !in o.ingresses
  }

  lemma PutSame<V>(m: map<string, V>, k: string, v: V)
    ensures m[k := v] == m <==> k in m && m[k] == v
  {
    if m[k := v] == m {
      assert k in m[k := v] && m[k := v][k] == v;
    }
  }

  lemma DropSame<V>(m: map<string, V>, k: string)
    ensures m - {k} == m <==> k !in m
  {
  }

  lemma DeploymentSettledIff(c: Context, d: Deployment)
    ensures UpdateDeployment(c, d) == d <==>
            && d.replicas == Replicas(c)
            && (d.containers != [] ==> d.containers[0].image == Image(c) && d.containers[0].args == Args(c))
  {
    if d.containers != [] {
      assert d.containers == [d.containers[0]] + d.containers[1..];
      assert UpdateDeployment(c, d).containers[0] == d.containers[0].(image := Image(c), args := Args(c));
    }
  }

  /** A move changes nothing exactly when what it is for is already so. */
  lemma SettledIff(c: Context, m: Move, o: Owned)
    ensures Apply(c, m, o) == o <==> Wanted(c, m, o)
  {
    if m.EnsureDeployment? || m.EnsureAccount? || m.EnsureRole? || m.EnsureBinding? {
      CoreSettledIff(c, m, o);
    } else {
      RestSettledIff(c, m, o);
    }
  }

  lemma CoreSettledIff(c: Context, m: Move, o: Owned)
    requires m.EnsureDeployment? || m.EnsureAccount? || m.EnsureRole? || m.EnsureBinding?
    ensures Apply(c, m, o) == o <==> Wanted(c, m, o)
  {
    hide Image, Args, Replicas, AccountName, BindingName, RoleName;
    match m {
      case EnsureDeployment =>
        var n := DeploymentName(c);
        if n in o.deployments {
          PutSame(o.deployments, n, UpdateDeployment(c, o.deployments[n]));
          DeploymentSettledIff(c, o.deployments[n]);
        }
      case EnsureAccount => PutSame(o.accounts, AccountName(c), NewAccount(c));
      case EnsureRole =>
        if RoleName(c) in o.roles { PutSame(o.roles, RoleName(c), o.roles[RoleName(c)].(rules := RULES)); }
      case EnsureBinding =>
        var n := BindingName(c);
        if n in o.bindings { PutSame(o.bindings, n, o.bindings[n].(subjects := [AccountName(c)])); }
    }
  }

  lemma RestSettledIff(c: Context, m: Move, o: Owned)
    requires !m.EnsureDeployment? && !m.EnsureAccount? && !m.EnsureRole? && !m.EnsureBinding?
    ensures Apply(c, m, o) == o <==> Wanted(c, m, o)
  {
    match m {
      case EnsureService =>
        var n := ServiceName(c);
        if n in o.services {
          PutSame(o.services, n, o.services[n].(kind := c.spec.serviceType, ports := [c.spec.servicePort]));
        }
      case EnsureMonitor => PutSame(o.monitors, MonitorName(c), NewMonitor(c));
      case EnsureIngress =>
        var n := IngressName(c);
        if n in o.ingresses { PutSame(o.ingresses, n, UpdateIngress(c, o.ingresses[n])); }
      case DropService => DropSame(o.services, DeletedServiceName(c));
      case DropMonitor => DropSame(o.monitors, MonitorName(c));
      case DropIngress => DropSame(o.ingresses, IngressName(c));
    }
  }

  lemma Idempotent(c: Context, m: Move, o: Owned)
    ensures Wanted(c, m, Apply(c, m, o))
    ensures Apply(c, m, Apply(c, m, o)) == Apply(c, m, o)
  {
    SettledIff(c, m, Apply(c, m, o));
  }

  /* Moves about different kinds are independent. */

  datatype Kind = Deployments | Accounts | Roles | Bindings | Services | Monitors | Ingresses

  // The kind of object a move is about.
  function KindOf(m: Move): Kind {
    match m
    case EnsureDeployment => Deployments
    case EnsureAccount => Accounts
    case EnsureRole => Roles
    case EnsureBinding => Bindings
    case EnsureService => Services
    case EnsureMonitor => Monitors
    case EnsureIngress => Ingresses
    case DropService => Services
    case DropMonitor => Monitors
    case DropIngress => Ingresses
  }

  // The store o with the objects of one kind as they are in p.
  function Splice(k: Kind, o: Owned, p: Owned): Owned {
    match k
    case Deployments => o.(deployments := p.deployments)
    case Accounts => o.(accounts := p.accounts)
    case Roles => o.(roles := p.roles)
    case Bindings => o.(bindings := p.bindings)
    case Services => o.(services := p.services)
    case Monitors => o.(monitors := p.monitors)
    case Ingresses => o.(ingresses := p.ingresses)
  }

  predicate Same(k: Kind, o: Owned, p: Owned) {
    Splice(k, o, p) == o
  }

  // A move touches only its kind, and only its kind matters to it.
  lemma Local(c: Context, m: Move, o: Owned, p: Owned)
    requires Same(KindOf(m), o, p)
    ensures Apply(c, m, o) == Splice(KindOf(m), o, Apply(c, m, p))
  {
    if KindOf(m) in {Deployments, Accounts, Roles, Bindings} {
      LocalCore(c, m, o, p);
    } else {
      LocalRest(c, m, o, p);
    }
  }

  lemma LocalCore(c: Context, m: Move, o: Owned, p: Owned)
    requires KindOf(m) in {Deployments, Accounts, Roles, Bindings} && Same(KindOf(m), o, p)
    ensures Apply(c, m, o) == Splice(KindOf(m), o, Apply(c, m, p))
  {
  }

  lemma LocalRest(c: Context, m: Move, o: Owned, p: Owned)
    requires KindOf(m) in {Services, Monitors, Ingresses} && Same(KindOf(m), o, p)
    ensures Apply(c, m, o) == Splice(KindOf(m), o, Apply(c, m, p))
  {
  }

  lemma SplicesCommute(j: Kind, k: Kind, o: Owned, p: Owned, q: Owned)
    requires j != k
    ensures Splice(j, Splice(k, o, p), q) == Splice(k, Splice(j, o, q), p)
    ensures Same(j, Splice(k, o, p), o)
  {
  }

  lemma SpliceSelf(k: Kind, o: Owned)
    ensures Same(k, o, o)
  {
  }

  lemma SpliceSame(k: Kind, o: Owned, p: Owned)
    ensures Same(k, Splice(k, o, p), p)
  {
  }

  lemma SameTransitive(k: Kind, o: Owned, p: Owned, q: Owned)
    requires Same(k, o, p) && Same(k, p, q)
    ensures Same(k, o, q)
  {
  }

  lemma Commute(c: Context, a: Move, b: Move, o: Owned)
    requires KindOf(a) != KindOf(b)
    ensures Apply(c, a, Apply(c, b, o)) == Apply(c, b, Apply(c, a, o))
  {
    var j, k := KindOf(a), KindOf(b);
    var p, q := Apply(c, a, o), Apply(c, b, o);
    SpliceSelf(j, o);
    SpliceSelf(k, o);
    Local(c, a, o, o);
    Local(c, b, o, o);
    SplicesCommute(j, k, o, q, p);
    SplicesCommute(k, j, o, p, q);
    Local(c, a, q, o);
    Local(c, b, p, o);
  }

  ghost predicate OnePerKind(moves: seq<Move>) {
    forall i, j :: 0 <= i < j < |moves| ==> KindOf(moves[i]) != KindOf(moves[j])
  }

  lemma OnePerKindJoined(a: seq<Move>, b: seq<Move>)
    requires OnePerKind(a) && OnePerKind(b)
    requires forall x, y :: x in a && y in b ==> KindOf(x) != KindOf(y)
    ensures OnePerKind(a + b)
  {
  }

  lemma PlanIsOnePerKind(spec: Spec)
    ensures OnePerKind(Plan(spec))
  {
    OnePerKindJoined(CorePlan(spec), MetricsPlan(spec));
    OnePerKindJoined(CorePlan(spec) + MetricsPlan(spec), IngressPlan(spec));
  }

  lemma {:induction false} ApplyAllSplit(c: Context, a: seq<Move>, b: seq<Move>, o: Owned)
    ensures ApplyAll(c, a + b, o) == ApplyAll(c, b, ApplyAll(c, a, o))
  {
    if a == [] {
      assert a + b == b;
    } else {
      assert (a + b)[1..] == a[1..] + b;
      ApplyAllSplit(c, a[1..], b, Apply(c, a[0], o));
    }
  }

  // A move made before the moves that include it adds nothing.
  lemma {:induction false} Absorbed(c: Context, moves: seq<Move>, i: nat, o: Owned)
    requires OnePerKind(moves) && i < |moves|
    ensures ApplyAll(c, moves, Apply(c, moves[i], o)) == ApplyAll(c, moves, o)
  {
    if i == 0 {
      Idempotent(c, moves[0], o);
    } else {
      Commute(c, moves[0], moves[i], o);
      Absorbed(c, moves[1..], i - 1, Apply(c, moves[0], o));
    }
  }

  /** Starting over is safe: a reconcile cut short after any number of moves, followed by one that
      succeeds, leaves the same store as the successful one alone. */
  lemma {:induction false} StartingOverIsSafe(c: Context, k: nat, o: Owned)
    requires k <= |Plan(c.spec)|
    ensures ApplyAll(c, Plan(c.spec), ApplyAll(c, Plan(c.spec)[..k], o)) == ApplyAll(c, Plan(c.spec), o)
  {
    if k > 0 {
      var plan := Plan(c.spec);
      PlanIsOnePerKind(c.spec);
      assert plan[..k] == plan[..k - 1] + [plan[k - 1]];
      ApplyAllSplit(c, plan[..k - 1], [plan[k - 1]], o);
      Absorbed(c, plan, k - 1, ApplyAll(c, plan[..k - 1], o));
      StartingOverIsSafe(c, k - 1, o);
    }
  }

  // The store after any number of reconciles, cuts[i] moves of each of which succeeded.
  function Reconciled(c: Context, cuts: seq<nat>, o: Owned): Owned
    requires forall i :: 0 <= i < |cuts| ==> cuts[i] <= |Plan(c.spec)|
  {
    if cuts == [] then o else Reconciled(c, cuts[1..], ApplyAll(c, Plan(c.spec)[..cuts[0]], o))
  }

  /** Idempotence and self-healing together: as long as the spec stays, whatever number of reconciles,
      cut short anywhere, come before a successful one, it leaves the same store. */
  lemma {:induction false} OnlySuccessMatters(c: Context, cuts: seq<nat>, o: Owned)
    requires forall i :: 0 <= i < |cuts| ==> cuts[i] <= |Plan(c.spec)|
    ensures ApplyAll(c, Plan(c.spec), Reconciled(c, cuts, o)) == ApplyAll(c, Plan(c.spec), o)
  {
    if cuts != [] {
      OnlySuccessMatters(c, cuts[1..], ApplyAll(c, Plan(c.spec)[..cuts[0]], o));
      StartingOverIsSafe(c, cuts[0], o);
    }
  }

  // Moves about other kinds leave what a move is for alone.
  lemma {:induction false} StaysWanted(c: Context, m: Move, moves: seq<Move>, o: Owned)
    requires Wanted(c, m, o) && forall i :: 0 <= i < |moves| ==> KindOf(moves[i]) != KindOf(m)
    ensures Wanted(c, m, ApplyAll(c, moves, o))
  {
    if moves != [] {
      SettledIff(c, m, o);
      Commute(c, m, moves[0], o);
      SettledIff(c, m, Apply(c, moves[0], o));
      StaysWanted(c, m, moves[1..], Apply(c, moves[0], o));
    }
  }

  lemma {:induction false} AllWanted(c: Context, moves: seq<Move>, i: nat, o: Owned)
    requires OnePerKind(moves) && i < |moves|
    ensures Wanted(c, moves[i], ApplyAll(c, moves, o))
  {
    if i == 0 {
      Idempotent(c, moves[0], o);
      StaysWanted(c, moves[0], moves[1..], Apply(c, moves[0], o));
    } else {
      AllWanted(c, moves[1..], i - 1, Apply(c, moves[0], o));
    }
  }

  lemma {:induction false} NothingToDo(c: Context, moves: seq<Move>, o: Owned)
    requires forall m :: m in moves ==> Wanted(c, m, o)
    ensures ApplyAll(c, moves, o) == o
  {
    if moves != [] {
      SettledIff(c, moves[0], o);
      NothingToDo(c, moves[1..], o);
    }
  }

  /** Convergence. From any store whatsoever, a successful reconcile makes everything the plan is for
      so; and it changes nothing exactly when that was so already, hence never twice in a row. */
  lemma Converges(c: Context, o: Owned)
    ensures var after := ApplyAll(c, Plan(c.spec), o);
            && (forall m :: m in Plan(c.spec) ==> Wanted(c, m, after))
            && (after == o <==> forall m :: m in Plan(c.spec) ==> Wanted(c, m, o))
            && ApplyAll(c, Plan(c.spec), after) == after
  {
    var plan := Plan(c.spec);
    var after := ApplyAll(c, plan, o);
    PlanIsOnePerKind(c.spec);
    forall i | 0 <= i < |plan| ensures Wanted(c, plan[i], after) {
      AllWanted(c, plan, i, o);
    }
    NothingToDo(c, plan, after);
    if forall m :: m in plan ==> Wanted(c, m, o) {
      NothingToDo(c, plan, o);
    }
  }

  /* What convergence comes to, in the fields of the spec. */

  // A first container runs the image of the environment or, without one, that of the spec, ":latest" unless
  // tagged, with three arguments or four.
  predicate RunsAsSpecified(c: Context, k: Container) {
    var tag := if c.spec.tag == "" then "latest" else c.spec.tag;
    var metrics := if c.spec.metricsAddr == "" then ":8080" else c.spec.metricsAddr;
    var probe := if c.spec.probeAddr == "" then ":8081" else c.spec.probeAddr;
    && (c.env.operandImage != "" ==> k.image == c.env.operandImage)
    && (c.env.operandImage == "" && c.spec.repository != "" ==> k.image == c.spec.repository + ":" + tag)
    && |k.args| == (if c.spec.leaderElect then 4 else 3)
    && k.args[0] == "--mode=operator" && k.args[1] == "--metrics-bind-address=" + metrics
    && k.args[2] == "--health-probe-bind-address=" + probe
    && (c.spec.leaderElect ==> k.args[3] == "--leader-elect=true")
  }

  predicate OperatorAsSpecified(c: Context, o: Owned) {
    var n := c.name + "-operator";
    n in o.deployments &&
    var d := o.deployments[n];
    && (c.spec.replicas.None? ==> d.replicas == 1) && (c.spec.replicas.Some? ==> d.replicas == c.spec.replicas.value)
    && (d.containers != [] ==> RunsAsSpecified(c, d.containers[0]))
  }

  predicate IdentityAsSpecified(c: Context, o: Owned) {
    var account := if c.spec.accountName == "" then c.name + "-controller-manager" else c.spec.accountName;
    var role, binding := c.name + "-manager-role", c.name + "-manager-rolebinding";
    && (c.spec.createAccount ==> account in o.accounts && o.accounts[account] == ServiceAccount(c.name, map[], []))
    && (c.spec.createRbac ==> role in o.roles && o.roles[role].rules == RULES)
    && (c.spec.createRbac ==> binding in o.bindings && o.bindings[binding].subjects == [account])
  }

  predicate MetricsAsSpecified(c: Context, o: Owned) {
    var service, doomed := c.name + "-metrics", c.name + "-metrics-service";
    var monitor :=
      if c.spec.monitorName == "" then c.name + "-controller-manager-metrics-monitor" else c.spec.monitorName;
    && (c.spec.metrics ==>
         service in o.services &&
         o.services[service].kind == c.spec.serviceType && o.services[service].ports == [c.spec.servicePort])
    && (!c.spec.metrics ==> doomed !in o.services)
    && (monitor in o.monitors <==> c.spec.metrics && c.spec.monitor)
    && (c.spec.metrics && c.spec.monitor ==>
         o.monitors[monitor] == Monitor(c.name, c.spec.monitorLabels, c.spec.monitorAnnotations))
  }

  // One rule for each host with one path for each of its paths, "Prefix" unless typed.
  predicate RuleAsSpecified(host: Host, rule: IngressRule) {
    && rule.host == host.host && |rule.paths| == |host.paths|
    && forall j :: 0 <= j < |host.paths| ==>
         var path, want := rule.paths[j], host.paths[j];
         && path.path == want.path && path.service == want.service && path.port == want.port
         && path.pathType == if want.pathType == "" then "Prefix" else want.pathType
  }

  predicate IngressAsSpecified(c: Context, o: Owned) {
    var n := if c.spec.ingressName == "" then c.name + "-ingress" else c.spec.ingressName;
    && (n in o.ingresses <==> c.spec.ingress)
    && (c.spec.ingress ==>
         var found := o.ingresses[n];
         && found.className == c.spec.ingressClass && found.tls == c.spec.tls
         && found.labels == c.spec.ingressLabels && found.annotations == c.spec.ingressAnnotations
         && |found.rules| == |c.spec.hosts|
         && forall i :: 0 <= i < |c.spec.hosts| ==> RuleAsSpecified(c.spec.hosts[i], found.rules[i]))
  }

  // Everything is as the spec describes it.
  predicate AsSpecified(c: Context, o: Owned) {
    OperatorAsSpecified(c, o) && IdentityAsSpecified(c, o) && MetricsAsSpecified(c, o) && IngressAsSpecified(c, o)
  }

  lemma WantedOperator(c: Context, o: Owned)
    requires Wanted(c, EnsureDeployment, o)
    ensures OperatorAsSpecified(c, o)
  {
  }

  lemma WantedIdentity(c: Context, o: Owned)
    requires c.spec.createAccount ==> Wanted(c, EnsureAccount, o)
    requires c.spec.createRbac ==> Wanted(c, EnsureRole, o) && Wanted(c, EnsureBinding, o)
    ensures IdentityAsSpecified(c, o)
  {
  }

  lemma WantedMetrics(c: Context, o: Owned)
    requires if c.spec.metrics then Wanted(c, EnsureService, o) else Wanted(c, DropService, o)
    requires if c.spec.metrics && c.spec.monitor then Wanted(c, EnsureMonitor, o) else Wanted(c, DropMonitor, o)
    ensures MetricsAsSpecified(c, o)
  {
  }

  lemma WantedIngress(c: Context, o: Owned)
    requires if c.spec.ingress then Wanted(c, EnsureIngress, o) else Wanted(c, DropIngress, o)
    ensures IngressAsSpecified(c, o)
  {
    if c.spec.ingress {
      var found, wanted := o.ingresses[IngressName(c)].(owner := ""), NewIngress(c).(owner := "");
      assert found.rules == wanted.rules && found.labels == wanted.labels;
    }
  }

  lemma PlanCovers(spec: Spec)
    ensures EnsureDeployment in Plan(spec)
    ensures spec.createAccount ==> EnsureAccount in Plan(spec)
    ensures spec.createRbac ==> EnsureRole in Plan(spec) && EnsureBinding in Plan(spec)
    ensures (if spec.metrics then EnsureService else DropService) in Plan(spec)
    ensures (if spec.metrics && spec.monitor then EnsureMonitor else DropMonitor) in Plan(spec)
    ensures (if spec.ingress then EnsureIngress else DropIngress) in Plan(spec)
  {
    var core, metrics, rest := CorePlan(spec), MetricsPlan(spec), IngressPlan(spec);
    assert core[0] == EnsureDeployment && rest[0] == if spec.ingress then EnsureIngress else DropIngress;
    assert spec.createAccount ==> core[1] == EnsureAccount;
    assert spec.createRbac ==> core[|core| - 2] == EnsureRole && core[|core| - 1] == EnsureBinding;
    assert metrics[0] == if spec.metrics then EnsureService else DropService;
    assert metrics[1] == if spec.metrics && spec.monitor then EnsureMonitor else DropMonitor;
  }

  /** Convergence in the fields of the spec. From any store a successful reconcile leaves the operator with the
      replicas, image and arguments, the account, role and binding, the metrics Service and monitor, and the
      Ingress that the spec describes, and those that it switches off are gone. */
  lemma EndsAsSpecified(c: Context, o: Owned)
    ensures AsSpecified(c, ApplyAll(c, Plan(c.spec), o))
  {
    hide Wanted, ApplyAll, Plan, OperatorAsSpecified, IdentityAsSpecified, MetricsAsSpecified, IngressAsSpecified;
    var after := ApplyAll(c, Plan(c.spec), o);
    Converges(c, o);
    PlanCovers(c.spec);
    WantedOperator(c, after);
    WantedIdentity(c, after);
    WantedMetrics(c, after);
    WantedIngress(c, after);
  }

  /** What is made anew where nothing was: an operator with one container, and a binding of the role, both
      owned by the object. */
  lemma MadeAsSpecified(c: Context, o: Owned)
    requires c.name + "-operator" !in o.deployments && c.name + "-manager-rolebinding" !in o.bindings
    ensures var after := ApplyAll(c, Plan(c.spec), o);
            && c.name + "-operator" in after.deployments
            && (var d := after.deployments[c.name + "-operator"];
                && d.owner == c.name && |d.containers| == 1 && d.containers[0].name == "operator"
                && d.account == (if c.env.serviceAccount == "" then c.name + "-operator" else c.env.serviceAccount)
                && d.containers[0].pullPolicy == if c.spec.pullPolicy == "" then "IfNotPresent" else c.spec.pullPolicy)
            && (c.spec.createRbac ==>
                 && c.name + "-manager-rolebinding" in after.bindings
                 && var b := after.bindings[c.name + "-manager-rolebinding"];
                    b.owner == c.name && b.role == c.name + "-manager-role")
  {
    hide Wanted, ApplyAll, Image, Args;
    PlanIsOnePerKind(c.spec);
    OnlyMove(c, Plan(c.spec), 0, o);
    if c.spec.createRbac {
      OnlyMove(c, Plan(c.spec), |CorePlan(c.spec)| - 1, o);
    }
  }

  /* What convergence does not cover. */

  lemma {:induction false} OtherKindsKept(c: Context, k: Kind, moves: seq<Move>, o: Owned)
    requires forall i :: 0 <= i < |moves| ==> KindOf(moves[i]) != k
    ensures Same(k, ApplyAll(c, moves, o), o)
  {
    SpliceSelf(k, o);
    if moves != [] {
      var m := moves[0];
      SpliceSelf(KindOf(m), o);
      Local(c, m, o, o);
      SplicesCommute(k, KindOf(m), o, Apply(c, m, o), o);
      OtherKindsKept(c, k, moves[1..], Apply(c, m, o));
    }
  }

  // A plan does to each kind what its one move about that kind does.
  lemma OnlyMove(c: Context, moves: seq<Move>, i: nat, o: Owned)
    requires OnePerKind(moves) && i < |moves|
    ensures Same(KindOf(moves[i]), ApplyAll(c, moves, o), Apply(c, moves[i], o))
  {
    var m, before, after := moves[i], moves[..i], moves[i + 1..];
    assert moves == before + ([m] + after);
    ApplyAllSplit(c, before, [m] + after, o);
    var p := ApplyAll(c, before, o);
    assert ([m] + after)[1..] == after;
    OtherKindsKept(c, KindOf(m), before, o);
    OtherKindsKept(c, KindOf(m), after, Apply(c, m, p));
    Local(c, m, p, o);
    SpliceSame(KindOf(m), p, Apply(c, m, o));
    SameTransitive(KindOf(m), ApplyAll(c, moves, o), Apply(c, m, p), Apply(c, m, o));
  }

  /** The operator runs the wanted image with the wanted arguments after a successful reconcile if and
      only if its Deployment was absent or had a container before. */
  lemma RunsImageIff(c: Context, o: Owned)
    ensures DeploymentName(c) in ApplyAll(c, Plan(c.spec), o).deployments
    ensures var d := ApplyAll(c, Plan(c.spec), o).deployments[DeploymentName(c)];
            d.containers != [] && d.containers[0].image == Image(c) && d.containers[0].args == Args(c)
            <==> (DeploymentName(c) in o.deployments ==> o.deployments[DeploymentName(c)].containers != [])
  {
    hide Wanted, ApplyAll, DeploymentName, Image, Args;
    PlanIsOnePerKind(c.spec);
    OnlyMove(c, Plan(c.spec), 0, o);
  }

  /** With RBAC on, the binding grants the operator's role after a successful reconcile if and only if
      it was absent or granted that role before: an existing reference is never corrected. */
  lemma GrantsRoleIff(c: Context, o: Owned)
    requires c.spec.createRbac
    ensures BindingName(c) in ApplyAll(c, Plan(c.spec), o).bindings
    ensures ApplyAll(c, Plan(c.spec), o).bindings[BindingName(c)].role == RoleName(c)
            <==> (BindingName(c) in o.bindings ==> o.bindings[BindingName(c)].role == RoleName(c))
  {
    hide Wanted, ApplyAll, RoleName, AccountName, BindingName;
    PlanIsOnePerKind(c.spec);
    OnlyMove(c, Plan(c.spec), |CorePlan(c.spec)| - 1, o);
  }

  // The map holds the same under this name.
  predicate Agree<V(==)>(m: map<string, V>, k: map<string, V>, n: string) {
    (n in m <==> n in k) && (n in m ==> m[n] == k[n])
  }

  lemma MoveKeepsOtherNames(c: Context, m: Move, o: Owned, n: string)
    ensures KindOf(m) == Ingresses && n != IngressName(c) ==> Agree(Apply(c, m, o).ingresses, o.ingresses, n)
    ensures KindOf(m) == Monitors && n != MonitorName(c) ==> Agree(Apply(c, m, o).monitors, o.monitors, n)
  {
    hide IngressName, MonitorName, NewIngress, NewMonitor;
  }

  /** A rename leaves the old object behind: an Ingress or ServiceMonitor under any but the current name
      is neither changed nor removed. */
  lemma OtherNamesKept(c: Context, o: Owned, n: string)
    ensures var after := ApplyAll(c, Plan(c.spec), o);
            && (n != IngressName(c) ==> Agree(after.ingresses, o.ingresses, n))
            && (n != MonitorName(c) ==> Agree(after.monitors, o.monitors, n))
  {
    hide Apply, ApplyAll, IngressName, MonitorName, Agree;
    var plan := Plan(c.spec);
    PlanIsOnePerKind(c.spec);
    OnlyMove(c, plan, |plan| - 1, o);
    OnlyMove(c, plan, |plan| - 2, o);
    MoveKeepsOtherNames(c, plan[|plan| - 1], o, n);
    MoveKeepsOtherNames(c, plan[|plan| - 2], o, n);
  }

  /** Turning metrics off leaves the metrics Service exactly as it was: present if and only if it was
      present. What is removed is a Service of another name. */
  lemma MetricsServiceSurvives(c: Context, o: Owned)
    requires !c.spec.metrics
    ensures var after := ApplyAll(c, Plan(c.spec), o).services;
            Agree(after, o.services, ServiceName(c)) && DeletedServiceName(c) !in after
  {
    PlanIsOnePerKind(c.spec);
    OnlyMove(c, Plan(c.spec), |CorePlan(c.spec)|, o);
    assert |ServiceName(c)| != |DeletedServiceName(c)|;
  }
}
