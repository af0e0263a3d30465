/** The rows, messages and statuses shared by the control plane and the cluster agent. */
module Domain {

  datatype Option<+T> = None | Some(value: T)

  /** A handler either finishes its transaction or raises; a raise rolls everything back. */
  datatype Result<+T> = Ok(value: T) | Err(error: Error)

  datatype Error = InvalidName | Unhealthy | Conflict | TooManyProjects | QuotaExceeded | NotFound

  type ProjectId = nat
  type ClusterId = nat
  /** Instants of the one clock that stamps both database rows and agent messages. */
  type Time = nat

  datatype Dimension = Cpu | Memory | Storage | Gpu

  /** The four figures that a quota, an allocation, a node and a cluster total all carry. */
  datatype Resources = Resources(cpu: int, memory: int, storage: int, gpu: int) {
    function Plus(other: Resources): Resources {
      Resources(cpu + other.cpu, memory + other.memory, storage + other.storage, gpu + other.gpu)
    }

    function Minus(other: Resources): Resources {
      Resources(cpu - other.cpu, memory - other.memory, storage - other.storage, gpu - other.gpu)
    }

    /** Every figure is at most the limit's. */
    predicate Within(limit: Resources) {
      cpu <= limit.cpu && memory <= limit.memory && storage <= limit.storage && gpu <= limit.gpu
    }

    function Get(d: Dimension): int {
      match d
      case Cpu => cpu
      case Memory => memory
      case Storage => storage
      case Gpu => gpu
    }
  }

  const ZERO := Resources(0, 0, 0, 0)

  lemma ZeroPlus(x: Resources)
    ensures ZERO.Plus(x) == x && x.Plus(ZERO) == x
  {
  }

  lemma PlusMoves(first: Resources, rest: Resources, x: Resources)
    ensures first.Plus(rest.Plus(x)) == first.Plus(rest).Plus(x)
    ensures x.Plus(rest) == rest.Plus(x)
  {
  }

  lemma PlusExchange(was: Resources, now: Resources, rest: Resources, first: Resources)
    ensures now.Plus(rest) == was.Plus(rest).Minus(was).Plus(now)
    ensures first.Plus(rest.Minus(was).Plus(now)) == first.Plus(rest).Minus(was).Plus(now)
  {
  }

  datatype ProjectStatus = Pending | Failed | PartiallyReady | Ready | Deleting

  datatype QuotaStatus = Pending | Ready | Deleting | Failed | Deleted {
    /** Only quotas outside deletion hold resources. */
    predicate Active() {
      this != QuotaStatus.Deleting && this != QuotaStatus.Deleted
    }
  }

  datatype NamespaceStatus = Active | Terminating | Pending | Failed | Deleted | DeleteFailed

  datatype Vendor = Nvidia | Amd

  /** Status texts are opaque except for the figures they quote and for being empty. */
  datatype Reason =
    | Mismatch(onCluster: Resources)
    | Missing(configured: Resources)
    | MarkedDeleted
    | Text(text: string)

  datatype Project = Project(name: string, cluster: ClusterId, status: ProjectStatus)

  datatype Quota = Quota(
    cluster: ClusterId,
    figures: Resources,
    status: QuotaStatus,
    reason: Option<Reason>,
    updatedAt: Time)

  /** A namespace row; `owner` is empty for a namespace no project created. */
  datatype Namespace = Namespace(owner: Option<ProjectId>, status: NamespaceStatus)

  /** The unique index of the namespaces table. */
  datatype NamespaceKey = NamespaceKey(cluster: ClusterId, name: string)

  datatype GpuInfo = GpuInfo(count: int, kind: string, vendor: Vendor, vram: int, product: string)

  /** A node as the agent reports it. */
  datatype NodeReport = NodeReport(
    name: string, cpu: int, memory: int, storage: int,
    gpu: Option<GpuInfo>, status: string, ready: bool)

  /** A node row. */
  datatype Node = Node(
    name: string, figures: Resources,
    gpuKind: Option<string>, vendor: Option<Vendor>, vram: Option<int>, product: Option<string>,
    status: string, ready: bool, updatedAt: Time)

  datatype Allocation = Allocation(name: string, figures: Resources, namespaces: seq<string>)

  /** What the control plane sends to a cluster. */
  datatype Outgoing =
    | Allocate(cluster: ClusterId, vendor: Option<Vendor>, allocations: seq<Allocation>)
    | CreateNamespace(cluster: ClusterId, name: string, project: ProjectId)
    | DeleteNamespace(cluster: ClusterId, name: string, project: ProjectId)

  /** What an agent sends back; every message carries the cluster that authenticated. */
  datatype Feedback =
    | QuotaSnapshot(cluster: ClusterId, at: Time, allocations: seq<Allocation>)
    | QuotaFailure(cluster: ClusterId, at: Time, reason: Option<Reason>)
    | NamespaceState(cluster: ClusterId, project: ProjectId, state: NamespaceStatus)
    | NamespaceGone(cluster: ClusterId, name: string)
    | UnmanagedNamespace(cluster: ClusterId, name: string, state: NamespaceStatus)
    | NodeList(cluster: ClusterId, at: Time, reports: seq<NodeReport>)
    | NodeUpdate(cluster: ClusterId, at: Time, report: NodeReport)
    | NodeDelete(cluster: ClusterId, name: string)

  /** The tables; `order` lists the project rows by creation time. */
  datatype Db = Db(
    order: seq<ProjectId>,
    projects: map<ProjectId, Project>,
    quotas: map<ProjectId, Quota>,
    namespaces: map<NamespaceKey, Namespace>,
    nodes: map<ClusterId, seq<Node>>)

  const EMPTY_DB := Db([], map[], map[], map[], map[])

  // The labels that carry identities in a cluster.
  const WORKLOAD_ID := "airm.silogen.ai/workload-id"
  const COMPONENT_ID := "airm.silogen.ai/component-id"
  const PROJECT_ID := "airm.silogen.ai/project-id"

  const CATCH_ALL := "kaiwo"
  const MAX_PROJECTS_PER_CLUSTER := 1000
  const MAX_PROJECT_NAME_LENGTH := 41

  predicate Alphanumeric(c: char) {
    'a' <= c <= 'z' || '0' <= c <= '9'
  }

  /** The checks the request schema makes on a project name. */
  predicate ValidName(name: string) {
    && 2 <= |name| <= MAX_PROJECT_NAME_LENGTH
    && Alphanumeric(name[0]) && Alphanumeric(name[|name| - 1])
    && (forall i | 0 <= i < |name| :: Alphanumeric(name[i]) || name[i] == '-')
    && name != CATCH_ALL && name != "minio-users" && name != "platformadmins"
  }

  function KeyOf(p: Project): NamespaceKey {
    NamespaceKey(p.cluster, p.name)
  }

  function NodesOf(db: Db, c: ClusterId): seq<Node> {
    if c in db.nodes then db.nodes[c] else []
  }

  function LowerChar(c: char): char {
    if 'A' <= c <= 'Z' then ((c as int) + 32) as char else c
  }

  function Lower(s: string): string {
    seq(|s|, i requires 0 <= i < |s| => LowerChar(s[i]))
  }

  predicate Distinct<T(==)>(s: seq<T>) {
    forall i, j :: 0 <= i < j < |s| ==> s[i] != s[j]
  }

  /** Some element of a set. */
  method Any<T(==)>(s: set<T>) returns (x: T)
    requires s != {}
    ensures x in s && |s - {x}| < |s|
  {
    x :| x in s;
  }

  lemma DistinctTail<T>(s: seq<T>)
    requires Distinct(s) && s != []
    ensures Distinct(s[1..]) && s[0] !in s[1..]
    ensures forall x :: x in s <==> x == s[0] || x in s[1..]
  {
    assert s == [s[0]] + s[1..];
    forall i, j | 0 <= i < j < |s[1..]| ensures s[1..][i] != s[1..][j] {
      assert s[i + 1] != s[j + 1];
    }
  }

  /** The rows left after a set of projects is removed, in the same order. */
  function Without(s: seq<ProjectId>, gone: set<ProjectId>): (r: seq<ProjectId>)
  {
    if s == [] then []
    else if s[0] in gone then Without(s[1..], gone)
    else [s[0]] + Without(s[1..], gone)
  }

  lemma {:induction false} WithoutKeeps(s: seq<ProjectId>, gone: set<ProjectId>)
    ensures forall x :: x in Without(s, gone) <==> x in s && x !in gone
    ensures Distinct(s) ==> Distinct(Without(s, gone))
  {
    if s == [] {
    } else {
      WithoutKeeps(s[1..], gone);
      assert s == [s[0]] + s[1..];
      if Distinct(s) {
        DistinctTail(s);
      }
    }
  }

  lemma {:induction false} WithoutNothing(s: seq<ProjectId>)
    ensures Without(s, {}) == s
  {
    if s == [] {
    } else {
      WithoutNothing(s[1..]);
    }
  }

  lemma {:induction false} WithoutTwice(s: seq<ProjectId>, a: set<ProjectId>, b: set<ProjectId>)
    ensures Without(Without(s, a), b) == Without(s, a + b)
  {
    if s == [] {
    } else {
      WithoutTwice(s[1..], a, b);
      if s[0] !in a {
        var r := [s[0]] + Without(s[1..], a);
        assert r[1..] == Without(s[1..], a);
      }
    }
  }
}
