/**
 * The transactions of the control plane as functions on the tables, and what each of
 * them does to every single project.
 */
module Lifecycle {
  import opened Domain
  import opened Capacity

  // ----- project status

  function Resolve(ns: NamespaceStatus, quota: QuotaStatus, current: ProjectStatus): ProjectStatus {
    if current == ProjectStatus.Deleting then ProjectStatus.Deleting
    else if ns == NamespaceStatus.Failed || quota == QuotaStatus.Failed then ProjectStatus.Failed
    else if ns == NamespaceStatus.Active && quota == QuotaStatus.Ready then ProjectStatus.Ready
    else if ns == NamespaceStatus.Pending && quota == QuotaStatus.Pending then ProjectStatus.Pending
    else if (ns == NamespaceStatus.Active || quota == QuotaStatus.Ready)
         && (ns == NamespaceStatus.Pending || quota == QuotaStatus.Pending) then ProjectStatus.PartiallyReady
    else ProjectStatus.Failed
  }

  /** What each project status says of the two components, outside deletion. */
  lemma ResolveExactly(ns: NamespaceStatus, quota: QuotaStatus, current: ProjectStatus)
    ensures current == ProjectStatus.Deleting <==> Resolve(ns, quota, current) == ProjectStatus.Deleting
    ensures current != ProjectStatus.Deleting ==> var r := Resolve(ns, quota, current);
              && (r == ProjectStatus.Failed <==>
                   || (ns != NamespaceStatus.Active && ns != NamespaceStatus.Pending)
                   || (quota != QuotaStatus.Ready && quota != QuotaStatus.Pending))
              && (r == ProjectStatus.Ready <==> ns == NamespaceStatus.Active && quota == QuotaStatus.Ready)
              && (r == ProjectStatus.Pending <==> ns == NamespaceStatus.Pending && quota == QuotaStatus.Pending)
  {
  }

  // ----- one project across the three tables

  datatype View = View(project: Project, quota: Quota, ns: NamespaceStatus) {
    /** Both confirmations have arrived for a project under deletion. */
    predicate Finished() {
      project.status == ProjectStatus.Deleting && quota.status == QuotaStatus.Deleted && ns == NamespaceStatus.Deleted
    }

    /** The project row after its status is recomputed from its components. */
    function Reviewed(): View {
      this.(project := project.(status := Resolve(ns, quota.status, project.status)))
    }

    /** The stored status is the one its components call for. */
    predicate Agrees() {
      project.status == Resolve(ns, quota.status, project.status)
    }
  }

  /**
   * The structural invariant: every project has exactly one quota row and exactly one
   * namespace row, both on its own cluster; project names are unique.
   */
  ghost predicate Structure(db: Db) {
    && Distinct(db.order)
    && (forall pid {:trigger pid in db.order} :: pid in db.order <==> pid in db.projects)
    && (forall pid :: pid in db.quotas ==> pid in db.projects)
    && Complete(db)
    && (forall k :: k in db.namespaces && db.namespaces[k].owner.Some? ==> OwnerPresent(db, k))
    && NamesDiffer(db)
  }

  /** No lookup of a project's components can fail. */
  ghost predicate Complete(db: Db) {
    forall pid :: pid in db.projects ==> Owned(db, pid)
  }

  ghost predicate Owned(db: Db, pid: ProjectId)
    requires pid in db.projects
  {
    && pid in db.quotas && db.quotas[pid].cluster == db.projects[pid].cluster
    && KeyOf(db.projects[pid]) in db.namespaces && db.namespaces[KeyOf(db.projects[pid])].owner == Some(pid)
  }

  ghost predicate OwnerPresent(db: Db, k: NamespaceKey)
    requires k in db.namespaces && db.namespaces[k].owner.Some?
  {
    db.namespaces[k].owner.value in db.projects && KeyOf(db.projects[db.namespaces[k].owner.value]) == k
  }

  function ViewOf(db: Db, pid: ProjectId): View
    requires Complete(db) && pid in db.projects
  {
    View(db.projects[pid], db.quotas[pid], db.namespaces[KeyOf(db.projects[pid])].status)
  }

  /** A project in the tables, if it is there. */
  function Found(db: Db, pid: ProjectId): Option<View>
    requires Complete(db)
  {
    if pid in db.projects then Some(ViewOf(db, pid)) else None
  }

  // ----- writing quotas, then recomputing or removing their projects

  ghost predicate Updates(db: Db, upd: map<ProjectId, Quota>)
    requires Complete(db)
  {
    forall pid :: pid in upd ==> pid in db.projects && upd[pid].cluster == db.quotas[pid].cluster
  }

  function WithQuota(db: Db, upd: map<ProjectId, Quota>, pid: ProjectId): View
    requires Complete(db) && pid in db.projects
  {
    ViewOf(db, pid).(quota := if pid in upd then upd[pid] else db.quotas[pid])
  }

  function Leaving(db: Db, upd: map<ProjectId, Quota>): set<ProjectId>
    requires Complete(db)
  {
    set pid | pid in upd && pid in db.projects && WithQuota(db, upd, pid).Finished()
  }

  /**
   * The rows in `upd` are written; each of their projects is removed, with its quota and
   * namespace, when both its components are now deleted, and otherwise gets the status
   * its components call for. Nothing else changes.
   */
  function Settled(db: Db, upd: map<ProjectId, Quota>): Db
    requires Complete(db)
  {
    var gone := Leaving(db, upd);
    Db(Without(db.order, gone), Rows(db.projects, ReviewedProjects(db, upd), gone), Rows(db.quotas, upd, gone),
       Unowned(db.namespaces, gone), db.nodes)
  }

  /** A table with some rows rewritten and some removed. */
  function Rows<T>(table: map<ProjectId, T>, upd: map<ProjectId, T>, gone: set<ProjectId>): map<ProjectId, T> {
    map pid | pid in table && pid !in gone :: if pid in upd then upd[pid] else table[pid]
  }

  /** Deleting project rows cascades to the namespaces they own. */
  function Unowned(namespaces: map<NamespaceKey, Namespace>, gone: set<ProjectId>): map<NamespaceKey, Namespace> {
    map k | k in namespaces && !(namespaces[k].owner.Some? && namespaces[k].owner.value in gone) :: namespaces[k]
  }

  function ReviewedProjects(db: Db, upd: map<ProjectId, Quota>): map<ProjectId, Project>
    requires Complete(db)
  {
    map pid | pid in upd && pid in db.projects :: WithQuota(db, upd, pid).Reviewed().project
  }

  lemma RowsTwice<T>(table: map<ProjectId, T>, u: map<ProjectId, T>, v: map<ProjectId, T>, a: set<ProjectId>,
                     b: set<ProjectId>)
    ensures Rows(Rows(table, u, a), v, b) == Rows(table, u + v, a + b)
  {
  }

  lemma UnownedTwice(ns: map<NamespaceKey, Namespace>, a: set<ProjectId>, b: set<ProjectId>)
    ensures Unowned(Unowned(ns, a), b) == Unowned(ns, a + b)
  {
  }

  lemma SettledStructure(db: Db, upd: map<ProjectId, Quota>)
    requires Structure(db) && Updates(db, upd)
    ensures Structure(Settled(db, upd))
  {
    var db' := Settled(db, upd);
    SettledKeys(db, upd);
    forall pid | pid in db'.projects ensures Owned(db', pid) {
      SettledOwned(db, upd, pid);
    }
    forall k | k in db'.namespaces && db'.namespaces[k].owner.Some? ensures OwnerPresent(db', k) {
      SettledOwner(db, upd, k);
    }
  }

  lemma SettledKeys(db: Db, upd: map<ProjectId, Quota>)
    requires Structure(db) && Updates(db, upd)
    ensures var db' := Settled(db, upd);
            && Distinct(db'.order) && (forall pid :: pid in db'.order <==> pid in db'.projects)
            && (forall pid :: pid in db'.quotas ==> pid in db'.projects) && NamesDiffer(db')
  {
    WithoutKeeps(db.order, Leaving(db, upd));
    forall pid ensures pid in db.order <==> pid in db.projects {}
  }

  lemma SettledOwned(db: Db, upd: map<ProjectId, Quota>, pid: ProjectId)
    requires Complete(db) && Updates(db, upd) && pid in Settled(db, upd).projects
    ensures Owned(Settled(db, upd), pid)
  {
    assert Owned(db, pid);
  }

  lemma SettledOwner(db: Db, upd: map<ProjectId, Quota>, k: NamespaceKey)
    requires Structure(db) && Updates(db, upd)
    requires k in Settled(db, upd).namespaces && Settled(db, upd).namespaces[k].owner.Some?
    ensures OwnerPresent(Settled(db, upd), k)
  {
    assert OwnerPresent(db, k);
  }

  /** What settling does to each project, row by row. */
  lemma SettledViews(db: Db, upd: map<ProjectId, Quota>)
    requires Structure(db) && Updates(db, upd)
    ensures Structure(Settled(db, upd))
    ensures forall pid :: pid in Settled(db, upd).projects <==> pid in db.projects && pid !in Leaving(db, upd)
    ensures forall pid :: pid in Settled(db, upd).projects ==>
              ViewOf(Settled(db, upd), pid) ==
                if pid in upd then WithQuota(db, upd, pid).Reviewed() else ViewOf(db, pid)
  {
    SettledStructure(db, upd);
    var db' := Settled(db, upd);
    forall pid | pid in db'.projects
      ensures ViewOf(db', pid) == if pid in upd then WithQuota(db, upd, pid).Reviewed() else ViewOf(db, pid)
    {
      assert Owned(db, pid) && Owned(db', pid);
    }
  }

  /** Settling one more project after others is the same as settling them all at once. */
  lemma SettledOneMore(db: Db, mid: Db, done: map<ProjectId, Quota>, pid: ProjectId, q: Quota)
    requires Complete(db) && Complete(mid) && mid == Settled(db, done)
    requires pid in mid.projects && pid in db.projects && ViewOf(mid, pid) == ViewOf(db, pid) && pid !in done
    ensures Settled(mid, map[pid := q]) == Settled(db, done[pid := q])
  {
    var upd := map[pid := q];
    assert done + upd == done[pid := q];
    assert Settled(mid, upd) == Settled(db, done + upd) by {
      OneMoreReviewed(db, mid, done, pid, q);
      SettledCompose(db, mid, done, upd);
    }
  }

  /** Two rounds of settling compose when the later one meets rows the earlier one left alone. */
  lemma SettledCompose(db: Db, mid: Db, done: map<ProjectId, Quota>, upd: map<ProjectId, Quota>)
    requires Complete(db) && Complete(mid) && mid == Settled(db, done)
    requires Leaving(db, done + upd) == Leaving(db, done) + Leaving(mid, upd)
    requires ReviewedProjects(db, done + upd) == ReviewedProjects(db, done) + ReviewedProjects(mid, upd)
    ensures Settled(mid, upd) == Settled(db, done + upd)
  {
    var a, b := Leaving(db, done), Leaving(mid, upd);
    WithoutTwice(db.order, a, b);
    RowsTwice(db.projects, ReviewedProjects(db, done), ReviewedProjects(mid, upd), a, b);
    RowsTwice(db.quotas, done, upd, a, b);
    UnownedTwice(db.namespaces, a, b);
  }

  lemma OneMoreView(db: Db, mid: Db, done: map<ProjectId, Quota>, pid: ProjectId, q: Quota)
    requires Complete(db) && Complete(mid) && pid in db.projects && pid !in done
    requires pid in mid.projects && ViewOf(mid, pid) == ViewOf(db, pid)
    ensures WithQuota(mid, map[pid := q], pid) == WithQuota(db, done + map[pid := q], pid)
    ensures forall x :: x in done && x in db.projects ==>
              WithQuota(db, done + map[pid := q], x) == WithQuota(db, done, x)
  {
  }

  lemma OneMoreReviewed(db: Db, mid: Db, done: map<ProjectId, Quota>, pid: ProjectId, q: Quota)
    requires Complete(db) && Complete(mid) && pid in db.projects && pid !in done
    requires pid in mid.projects && ViewOf(mid, pid) == ViewOf(db, pid)
    ensures Leaving(db, done + map[pid := q]) == Leaving(db, done) + Leaving(mid, map[pid := q])
    ensures ReviewedProjects(db, done + map[pid := q])
         == ReviewedProjects(db, done) + ReviewedProjects(mid, map[pid := q])
  {
    OneMoreView(db, mid, done, pid, q);
  }

  lemma SettledNothing(db: Db)
    requires Structure(db)
    ensures Settled(db, map[]) == db
  {
    assert Leaving(db, map[]) == {};
    WithoutNothing(db.order);
    assert Rows(db.projects, map[], {}) == db.projects;
    assert Rows(db.quotas, map[], {}) == db.quotas;
    assert Unowned(db.namespaces, {}) == db.namespaces;
  }

  // ----- quota feedback

  /** The row takes the text of an update only when there is one. */
  function Restated(q: Quota, status: QuotaStatus, reason: Option<Reason>, at: Time): Quota {
    q.(status := status, reason := if reason.Some? then reason else q.reason, updatedAt := at)
  }

  /** Neither absent nor empty: what the source tests with truthiness. */
  predicate Telling(reason: Option<Reason>) {
    reason.Some? && reason.value != Text("")
  }

  /**
   * What a cluster's snapshot, stamped `at`, says about one quota, processed at `now`:
   * the pointwise meaning of the reconciliation loop.
   */
  function Verdict(q: Quota, name: string, at: Time, allocations: seq<Allocation>, now: Time): Quota {
    if q.updatedAt > at then q
    else
      var named := FirstNamed(allocations, name);
      if named.Some? then
        if named.value.figures == q.figures then
          if q.status == QuotaStatus.Ready then q else Restated(q, QuotaStatus.Ready, None, at)
        else Restated(q, QuotaStatus.Failed, Some(Mismatch(named.value.figures)), at)
      else if q.status.Active() then
        Restated(q, QuotaStatus.Failed, if Telling(q.reason) then q.reason else Some(Missing(q.figures)), at)
          .(figures := ZERO)
      else Restated(q, QuotaStatus.Deleted, Some(MarkedDeleted), now)
  }

  /** The snapshot writes this quota, and so recomputes its project. */
  predicate Affected(q: Quota, name: string, at: Time, allocations: seq<Allocation>) {
    && q.updatedAt <= at
    && !(q.status == QuotaStatus.Ready
         && FirstNamed(allocations, name).Some? && FirstNamed(allocations, name).value.figures == q.figures)
  }

  function Verdicts(db: Db, c: ClusterId, at: Time, allocations: seq<Allocation>, now: Time): map<ProjectId, Quota>
    requires Complete(db)
  {
    map pid | pid in db.projects && db.projects[pid].cluster == c
              && Affected(ViewOf(db, pid).quota, db.projects[pid].name, at, allocations)
      :: Verdict(ViewOf(db, pid).quota, db.projects[pid].name, at, allocations, now)
  }

  function OnQuotaSnapshot(db: Db, c: ClusterId, at: Time, allocations: seq<Allocation>, now: Time): Db
    requires Complete(db)
  {
    Settled(db, Verdicts(db, c, at, allocations, now))
  }

  predicate Failing(q: Quota, at: Time) {
    q.status == QuotaStatus.Pending && q.updatedAt < at
  }

  function Failures(db: Db, c: ClusterId, at: Time, reason: Option<Reason>): map<ProjectId, Quota>
    requires Complete(db)
  {
    map pid | pid in db.projects && db.projects[pid].cluster == c && Failing(ViewOf(db, pid).quota, at)
      :: Restated(ViewOf(db, pid).quota, QuotaStatus.Failed, reason, at)
  }

  function OnQuotaFailure(db: Db, c: ClusterId, at: Time, reason: Option<Reason>): Db
    requires Complete(db)
  {
    Settled(db, Failures(db, c, at, reason))
  }

  // ----- namespace feedback

  function WriteNamespace(db: Db, k: NamespaceKey, ns: Namespace): Db {
    db.(namespaces := db.namespaces[k := ns])
  }

  /** The namespace of a project takes a status, and the project follows. */
  function NamespaceSettled(db: Db, pid: ProjectId, status: NamespaceStatus): Db
    requires Structure(db) && pid in db.projects
  {
    NamespaceWriteStructure(db, pid, status);
    var written := WriteNamespace(db, KeyOf(db.projects[pid]), Namespace(Some(pid), status));
    Settled(written, map[pid := ViewOf(db, pid).quota])
  }

  lemma NamespaceWriteStructure(db: Db, pid: ProjectId, status: NamespaceStatus)
    requires Structure(db) && pid in db.projects
    ensures Structure(WriteNamespace(db, KeyOf(db.projects[pid]), Namespace(Some(pid), status)))
    ensures var db' := WriteNamespace(db, KeyOf(db.projects[pid]), Namespace(Some(pid), status));
            && Updates(db', map[pid := ViewOf(db, pid).quota])
            && ViewOf(db', pid) == ViewOf(db, pid).(ns := status)
            && forall x :: x in db.projects && x != pid ==> ViewOf(db', x) == ViewOf(db, x)
  {
    var k := KeyOf(db.projects[pid]);
    var db' := WriteNamespace(db, k, Namespace(Some(pid), status));
    assert Owned(db, pid);
    forall x | x in db'.projects ensures Owned(db', x) { assert Owned(db, x); }
    forall j | j in db'.namespaces && db'.namespaces[j].owner.Some? ensures OwnerPresent(db', j) {
      if j != k { assert OwnerPresent(db, j); }
    }
    forall x | x in db.projects && x != pid ensures ViewOf(db', x) == ViewOf(db, x) {
      assert Owned(db, x);
      assert KeyOf(db.projects[x]) != k;
    }
  }

  /** What settling does to a single project that keeps its quota. */
  ghost predicate Single(db: Db, db': Db, pid: ProjectId, v: View)
    requires Complete(db) && Complete(db') && pid in db.projects
  {
    && (forall x :: x in db'.projects <==> x in db.projects && !(x == pid && v.Finished()))
    && (pid in db'.projects ==> ViewOf(db', pid) == v.Reviewed())
    && (forall x :: x in db'.projects && x != pid ==> ViewOf(db', x) == ViewOf(db, x))
    && db'.order == Without(db.order, if v.Finished() then {pid} else {})
  }

  lemma SettledSingle(db: Db, pid: ProjectId, v: View)
    requires Structure(db) && pid in db.projects && ViewOf(db, pid) == v
    ensures Structure(Settled(db, map[pid := v.quota])) && Single(db, Settled(db, map[pid := v.quota]), pid, v)
  {
    var upd := map[pid := v.quota];
    SingleLeaving(db, pid, v);
    SettledStructure(db, upd);
    SettledOnly(db, Settled(db, upd), upd, pid, v);
  }

  lemma SettledOnly(db: Db, db': Db, upd: map<ProjectId, Quota>, pid: ProjectId, v: View)
    requires Complete(db) && Complete(db') && pid in db.projects && upd == map[pid := v.quota]
    requires db' == Settled(db, upd)
    requires Leaving(db, upd) == (if v.Finished() then {pid} else {}) && WithQuota(db, upd, pid) == v
    ensures Single(db, db', pid, v)
  {
    forall x | x in db'.projects ensures ViewOf(db', x) == if x == pid then v.Reviewed() else ViewOf(db, x) {
      assert Owned(db, x) && Owned(db', x);
    }
  }

  lemma SingleLeaving(db: Db, pid: ProjectId, v: View)
    requires Complete(db) && pid in db.projects && ViewOf(db, pid) == v
    ensures var upd := map[pid := v.quota];
            Leaving(db, upd) == (if v.Finished() then {pid} else {}) && WithQuota(db, upd, pid) == v
  {
    OneLeaving(db, pid);
  }

  lemma OneLeaving(db: Db, pid: ProjectId)
    requires Complete(db) && pid in db.projects
    ensures Leaving(db, map[pid := db.quotas[pid]]) == if ViewOf(db, pid).Finished() then {pid} else {}
    ensures ReviewedProjects(db, map[pid := db.quotas[pid]]) == map[pid := ViewOf(db, pid).Reviewed().project]
  {
    assert WithQuota(db, map[pid := db.quotas[pid]], pid) == ViewOf(db, pid);
  }

  /** What a namespace write does to each project. */
  lemma NamespaceSettledViews(db: Db, pid: ProjectId, status: NamespaceStatus)
    requires Structure(db) && pid in db.projects
    ensures var db' := NamespaceSettled(db, pid, status);
            Structure(db') && Single(db, db', pid, ViewOf(db, pid).(ns := status))
  {
    NamespaceWriteStructure(db, pid, status);
    var mid := WriteNamespace(db, KeyOf(db.projects[pid]), Namespace(Some(pid), status));
    SettledSingle(mid, pid, ViewOf(db, pid).(ns := status));
    SingleFrom(db, mid, NamespaceSettled(db, pid, status), pid, ViewOf(db, pid).(ns := status));
  }

  lemma SingleFrom(db: Db, mid: Db, db': Db, pid: ProjectId, v: View)
    requires Complete(db) && Complete(mid) && Complete(db') && pid in db.projects
    requires mid.projects == db.projects && mid.order == db.order && Single(mid, db', pid, v)
    requires forall x :: x in db.projects && x != pid ==> ViewOf(mid, x) == ViewOf(db, x)
    ensures Single(db, db', pid, v)
  {
  }

  /** A status report by project id; unknown to this cluster, it is an error. */
  function OnNamespaceState(db: Db, c: ClusterId, pid: ProjectId, status: NamespaceStatus): Result<Db>
    requires Structure(db)
  {
    if pid in db.projects && db.projects[pid].cluster == c then Ok(NamespaceSettled(db, pid, status)) else Err(NotFound)
  }

  /** A notice, by name, that the namespace is gone from the cluster. */
  function OnNamespaceGone(db: Db, c: ClusterId, name: string): Result<Db>
    requires Structure(db)
  {
    var k := NamespaceKey(c, name);
    if k !in db.namespaces then Err(NotFound)
    else if db.namespaces[k].owner.Some? then
      assert OwnerPresent(db, k);
      Ok(NamespaceSettled(db, db.namespaces[k].owner.value, NamespaceStatus.Deleted))
    else Ok(db.(namespaces := db.namespaces - {k}))
  }

  /** A namespace without a project label: recorded unless a project owns the name. */
  function OnUnmanagedNamespace(db: Db, c: ClusterId, name: string, status: NamespaceStatus): Db {
    var k := NamespaceKey(c, name);
    if k in db.namespaces && db.namespaces[k].owner.Some? then db
    else WriteNamespace(db, k, Namespace(None, status))
  }

  lemma UnownedViews(db: Db, db': Db, k: NamespaceKey)
    requires Structure(db) && (k in db.namespaces ==> db.namespaces[k].owner.None?)
    requires db' == db.(namespaces := db.namespaces - {k})
          || exists status :: db' == WriteNamespace(db, k, Namespace(None, status))
    ensures Structure(db') && db'.projects == db.projects
    ensures forall pid :: pid in db.projects ==> ViewOf(db', pid) == ViewOf(db, pid)
  {
    forall pid | pid in db'.projects ensures Owned(db', pid) { assert Owned(db, pid); }
    forall j | j in db'.namespaces && db'.namespaces[j].owner.Some? ensures OwnerPresent(db', j) {
      assert OwnerPresent(db, j);
    }
    forall pid | pid in db.projects ensures ViewOf(db', pid) == ViewOf(db, pid) { assert Owned(db, pid); }
  }

  lemma NodesViews(db: Db, nodes: map<ClusterId, seq<Node>>)
    requires Structure(db)
    ensures var db' := db.(nodes := nodes);
            Structure(db') && forall pid :: pid in db.projects ==> ViewOf(db', pid) == ViewOf(db, pid)
  {
    var db' := db.(nodes := nodes);
    forall k | k in db'.namespaces && db'.namespaces[k].owner.Some? ensures OwnerPresent(db', k) {
      assert OwnerPresent(db, k);
    }
    forall pid | pid in db'.projects ensures Owned(db', pid) {
      assert Owned(db, pid);
    }
  }

  // ----- requests

  function LiveProjects(db: Db, ids: seq<ProjectId>, c: ClusterId): nat {
    if ids == [] then 0
    else
      (if ids[0] in db.projects && db.projects[ids[0]].cluster == c
          && db.projects[ids[0]].status != ProjectStatus.Deleting
       then 1 else 0) + LiveProjects(db, ids[1..], c)
  }

  function NameTaken(db: Db, name: string): bool {
    exists p :: p in db.projects && db.projects[p].name == name
  }

  function WithProject(db: Db, pid: ProjectId, c: ClusterId, name: string, figures: Resources, now: Time): Db {
    Db(db.order + [pid],
       db.projects[pid := Project(name, c, ProjectStatus.Pending)],
       db.quotas[pid := Quota(c, figures, QuotaStatus.Pending, None, now)],
       db.namespaces[NamespaceKey(c, name) := Namespace(Some(pid), NamespaceStatus.Pending)],
       db.nodes)
  }

  function CreateProject(db: Db, pid: ProjectId, c: ClusterId, healthy: bool, name: string, figures: Resources,
                         now: Time)
    : Result<(Db, seq<Outgoing>)>
  {
    if !ValidName(name) then Err(InvalidName)
    else if !healthy then Err(Unhealthy)
    else if NameTaken(db, name) || NamespaceKey(c, name) in db.namespaces then Err(Conflict)
    else if LiveProjects(db, db.order, c) >= MAX_PROJECTS_PER_CLUSTER - 1 then Err(TooManyProjects)
    else if !Prospective(Allocated(db, c), None, figures).Within(Available(db, c)) then Err(QuotaExceeded)
    else
      var db' := WithProject(db, pid, c, name, figures, now);
      Ok((db', [AllocationMessage(db', c), Outgoing.CreateNamespace(c, name, pid)]))
  }

  function EditQuota(db: Db, pid: ProjectId, figures: Resources, now: Time): Result<(Db, seq<Outgoing>)>
    requires Structure(db)
  {
    if pid !in db.projects then Err(NotFound)
    else
      var q := ViewOf(db, pid).quota;
      var c := db.projects[pid].cluster;
      if figures == q.figures then
        Ok((db.(quotas := db.quotas[pid := Restated(q, QuotaStatus.Ready, None, now)]), []))
      else if !Prospective(Allocated(db, c), Some(q.figures), figures).Within(Available(db, c)) then Err(QuotaExceeded)
      else
        var db' := db.(quotas := db.quotas[pid := Restated(q, QuotaStatus.Pending, None, now).(figures := figures)]);
        Ok((db', [AllocationMessage(db', c)]))
  }

  function DeleteProject(db: Db, pid: ProjectId, now: Time): Result<(Db, seq<Outgoing>)>
    requires Structure(db)
  {
    if pid !in db.projects then Err(NotFound)
    else if db.projects[pid].status == ProjectStatus.Deleting then Err(Conflict)
    else
      var p, q := db.projects[pid], ViewOf(db, pid).quota;
      var db1 := db.(quotas := db.quotas[pid := Restated(q, QuotaStatus.Deleting, None, now)]);
      var db2 := WriteNamespace(db1, KeyOf(p), Namespace(Some(pid), NamespaceStatus.Terminating));
      Ok((db2.(projects := db2.projects[pid := p.(status := ProjectStatus.Deleting)]),
          [AllocationMessage(db1, p.cluster), Outgoing.DeleteNamespace(p.cluster, p.name, pid)]))
  }

  lemma CreateViews(db: Db, pid: ProjectId, c: ClusterId, name: string, figures: Resources, now: Time)
    requires Structure(db) && pid !in db.projects
    requires ValidName(name) && !NameTaken(db, name) && NamespaceKey(c, name) !in db.namespaces
    ensures var db' := WithProject(db, pid, c, name, figures, now);
            && Structure(db') && (forall x :: x in db'.projects <==> x in db.projects || x == pid)
            && ViewOf(db', pid) == View(Project(name, c, ProjectStatus.Pending),
                                        Quota(c, figures, QuotaStatus.Pending, None, now), NamespaceStatus.Pending)
            && forall x :: x in db.projects ==> ViewOf(db', x) == ViewOf(db, x)
  {
    CreatedStructure(db, WithProject(db, pid, c, name, figures, now), pid, Project(name, c, ProjectStatus.Pending),
                     Quota(c, figures, QuotaStatus.Pending, None, now));
  }

  lemma CreatedOrder(order: seq<ProjectId>, projects: map<ProjectId, Project>, pid: ProjectId, p: Project)
    requires Distinct(order) && pid !in projects && forall x :: x in order <==> x in projects
    ensures Distinct(order + [pid]) && forall x :: x in order + [pid] <==> x in projects[pid := p]
  {
  }

  lemma CreatedStructure(db: Db, db': Db, pid: ProjectId, p: Project, q: Quota)
    requires Structure(db) && pid !in db.projects && KeyOf(p) !in db.namespaces && !NameTaken(db, p.name)
    requires q.cluster == p.cluster
    requires db' == Db(db.order + [pid], db.projects[pid := p], db.quotas[pid := q],
                       db.namespaces[KeyOf(p) := Namespace(Some(pid), NamespaceStatus.Pending)], db.nodes)
    ensures Structure(db') && ViewOf(db', pid) == View(p, q, NamespaceStatus.Pending)
    ensures forall x :: x in db.projects ==> ViewOf(db', x) == ViewOf(db, x)
  {
    assert forall x :: x in db.order <==> x in db.projects;
    CreatedOrder(db.order, db.projects, pid, p);
    forall x | x in db'.projects ensures Owned(db', x) {
      if x != pid { assert Owned(db, x); }
    }
    forall j | j in db'.namespaces && db'.namespaces[j].owner.Some? ensures OwnerPresent(db', j) {
      if j != KeyOf(p) { assert OwnerPresent(db, j); }
    }
    forall x | x in db.projects ensures ViewOf(db', x) == ViewOf(db, x) { assert Owned(db, x); }
  }

  /** Writing one quota row leaves the structure and every other project alone. */
  lemma QuotaWriteViews(db: Db, pid: ProjectId, q: Quota)
    requires Structure(db) && pid in db.projects && q.cluster == db.projects[pid].cluster
    ensures var db' := db.(quotas := db.quotas[pid := q]);
            && Structure(db')
            && ViewOf(db', pid) == ViewOf(db, pid).(quota := q)
            && forall x :: x in db.projects && x != pid ==> ViewOf(db', x) == ViewOf(db, x)
  {
    var db' := db.(quotas := db.quotas[pid := q]);
    forall x | x in db'.projects ensures Owned(db', x) { assert Owned(db, x); }
    forall j | j in db'.namespaces && db'.namespaces[j].owner.Some? ensures OwnerPresent(db', j) {
      assert OwnerPresent(db, j);
    }
  }

  function Edited(q: Quota, figures: Resources, now: Time): Quota {
    if figures == q.figures then Restated(q, QuotaStatus.Ready, None, now)
    else Restated(q, QuotaStatus.Pending, None, now).(figures := figures)
  }

  lemma EditViews(db: Db, pid: ProjectId, figures: Resources, now: Time)
    requires Structure(db) && EditQuota(db, pid, figures, now).Ok?
    ensures var db' := EditQuota(db, pid, figures, now).value.0;
            && pid in db.projects && Structure(db') && db'.projects == db.projects
            && ViewOf(db', pid) == ViewOf(db, pid).(quota := Edited(ViewOf(db, pid).quota, figures, now))
            && forall x :: x in db.projects && x != pid ==> ViewOf(db', x) == ViewOf(db, x)
    ensures forall m :: m in EditQuota(db, pid, figures, now).value.1 ==> m.Allocate?
  {
    QuotaWriteViews(db, pid, Edited(ViewOf(db, pid).quota, figures, now));
  }

  lemma ProjectWriteViews(db: Db, pid: ProjectId, status: ProjectStatus)
    requires Structure(db) && pid in db.projects
    ensures var db' := db.(projects := db.projects[pid := db.projects[pid].(status := status)]);
            && Structure(db')
            && ViewOf(db', pid) == ViewOf(db, pid).(project := db.projects[pid].(status := status))
            && forall x :: x in db.projects && x != pid ==> ViewOf(db', x) == ViewOf(db, x)
  {
    var db' := db.(projects := db.projects[pid := db.projects[pid].(status := status)]);
    forall x | x in db'.projects ensures Owned(db', x) { assert Owned(db, x); }
    forall j | j in db'.namespaces && db'.namespaces[j].owner.Some? ensures OwnerPresent(db', j) {
      assert OwnerPresent(db, j);
    }
  }

  lemma DeleteViews(db: Db, pid: ProjectId, now: Time)
    requires Structure(db) && DeleteProject(db, pid, now).Ok?
    ensures var db' := DeleteProject(db, pid, now).value.0; var v := ViewOf(db, pid);
            && Structure(db') && (forall x :: x in db'.projects <==> x in db.projects)
            && ViewOf(db', pid) == View(v.project.(status := ProjectStatus.Deleting),
                                        Restated(v.quota, QuotaStatus.Deleting, None, now), NamespaceStatus.Terminating)
            && forall x :: x in db.projects && x != pid ==> ViewOf(db', x) == ViewOf(db, x)
    ensures forall m :: m in DeleteProject(db, pid, now).value.1 ==>
              m.Allocate? || m == Outgoing.DeleteNamespace(db.projects[pid].cluster, db.projects[pid].name, pid)
  {
    var q' := Restated(ViewOf(db, pid).quota, QuotaStatus.Deleting, None, now);
    QuotaWriteViews(db, pid, q');
    var db1 := db.(quotas := db.quotas[pid := q']);
    NamespaceWriteStructure(db1, pid, NamespaceStatus.Terminating);
    var db2 := WriteNamespace(db1, KeyOf(db.projects[pid]), Namespace(Some(pid), NamespaceStatus.Terminating));
    ProjectWriteViews(db2, pid, ProjectStatus.Deleting);
  }
}
