/**
 * What each transaction leaves in the tables and on its way to the clusters, said of the
 * rows and messages themselves.
 */
module Outcomes {
  import opened Domain
  import opened Capacity
  import opened Lifecycle
  import opened Consumer
  import Nodes
  import Convergence

  /** Only the status of the project row may differ, and it is the one the components call for. */
  predicate Follows(v: View, w: View) {
    w.project == v.project.(status := Resolve(w.ns, w.quota.status, v.project.status))
  }

  // ----- quota snapshots

  /** What a snapshot stamped `at` that gives figures `a` makes of a quota and its project. */
  predicate AsNamed(v: View, w: View, a: Resources, at: Time) {
    var q, q' := v.quota, w.quota;
    && w.ns == v.ns && q'.cluster == q.cluster && q'.figures == q.figures
    && if a.cpu == q.figures.cpu && a.memory == q.figures.memory && a.storage == q.figures.storage
          && a.gpu == q.figures.gpu
       then
         && q'.status == QuotaStatus.Ready && q'.reason == q.reason
         && if q.status == QuotaStatus.Ready then w == v else q'.updatedAt == at && Follows(v, w)
       else
         && q'.status == QuotaStatus.Failed && q'.reason == Some(Mismatch(a)) && q'.updatedAt == at && Follows(v, w)
  }

  /** What a snapshot stamped `at` makes of an active quota that it does not name: emptied and failed. */
  predicate AsMissing(v: View, w: View, at: Time) {
    var q, q' := v.quota, w.quota;
    && w.ns == v.ns && q'.cluster == q.cluster && q'.figures == ZERO && q'.status == QuotaStatus.Failed
    && q'.updatedAt == at && Follows(v, w)
    && if q.reason.None? || q.reason == Some(Text("")) then q'.reason == Some(Missing(q.figures))
       else q'.reason == q.reason
  }

  /** What it makes of a quota under deletion: confirmed at `now`, the rest of the project as it was. */
  predicate AsDeleted(v: View, w: View, now: Time) {
    var q, q' := v.quota, w.quota;
    && w.ns == v.ns && q'.cluster == q.cluster && q'.figures == q.figures && q'.status == QuotaStatus.Deleted
    && q'.reason == Some(MarkedDeleted) && q'.updatedAt == now && Follows(v, w)
  }

  /** What a snapshot makes of one project of its cluster, gone or not. */
  predicate Judged(v: View, after: Option<View>, f: Feedback, now: Time)
    requires f.QuotaSnapshot?
  {
    var named := FirstNamed(f.allocations, v.project.name);
    if v.project.cluster != f.cluster || v.quota.updatedAt > f.at then after == Some(v)
    else if named.Some? then after.Some? && AsNamed(v, after.value, named.value.figures, f.at)
    else if v.quota.status != QuotaStatus.Deleting && v.quota.status != QuotaStatus.Deleted then
      after.Some? && AsMissing(v, after.value, f.at)
    else if v.project.status == ProjectStatus.Deleting && v.ns == NamespaceStatus.Deleted then after.None?
    else after.Some? && AsDeleted(v, after.value, now)
  }

  lemma SnapshotJudges(f: Feedback, pid: ProjectId, v: View, now: Time)
    requires f.QuotaSnapshot?
    ensures Judged(v, Outcome(f, pid, v, now), f, now)
  {
  }

  lemma HandleOutcome(db: Db, f: Feedback, now: Time, pid: ProjectId)
    requires Structure(db) && pid in db.projects && Handle(db, f, now).Ok?
    ensures var db' := Handle(db, f, now).value.0;
            Structure(db') && Found(db', pid) == Outcome(f, pid, ViewOf(db, pid), now)
  {
    HandleEffect(db, f, now);
  }

  /**
   * Snapshot reconciliation: a named quota is READY when all four figures agree, and
   * otherwise FAILED with the figures the cluster has as its reason; an active quota that
   * is not named is emptied and FAILED; one under deletion is DELETED, or ends its
   * project. Newer quotas and other clusters are left alone, and nothing is sent.
   */
  lemma SnapshotOutcome(db: Db, f: Feedback, now: Time, pid: ProjectId)
    requires Structure(db) && f.QuotaSnapshot? && pid in db.projects
    ensures Handle(db, f, now).Ok? && Handle(db, f, now).value.1 == []
    ensures var db' := Handle(db, f, now).value.0;
            Structure(db') && Judged(ViewOf(db, pid), Found(db', pid), f, now)
  {
    HandleOutcome(db, f, now, pid);
    SnapshotJudges(f, pid, ViewOf(db, pid), now);
  }

  // ----- quota failures

  /** What a failure notice makes of one project: only a quota still PENDING from before it fails. */
  predicate Notified(v: View, w: View, f: Feedback)
    requires f.QuotaFailure?
  {
    var q, q' := v.quota, w.quota;
    if v.project.cluster == f.cluster && q.status == QuotaStatus.Pending && q.updatedAt < f.at then
      && w.ns == v.ns && q'.cluster == q.cluster && q'.figures == q.figures && q'.status == QuotaStatus.Failed
      && q'.updatedAt == f.at && q'.reason == (if f.reason.Some? then f.reason else q.reason) && Follows(v, w)
    else w == v
  }

  lemma FailureNotifies(f: Feedback, pid: ProjectId, v: View, now: Time)
    requires f.QuotaFailure?
    ensures !Ends(f, pid, v, now) && Notified(v, After(f, pid, v, now), f)
  {
  }

  /** A failure notice fails exactly the quotas of its cluster that are PENDING since before it. */
  lemma FailureOutcome(db: Db, f: Feedback, now: Time, pid: ProjectId)
    requires Structure(db) && f.QuotaFailure? && pid in db.projects
    ensures Handle(db, f, now).Ok? && Handle(db, f, now).value.1 == []
    ensures var db' := Handle(db, f, now).value.0;
            Structure(db') && pid in db'.projects && Notified(ViewOf(db, pid), ViewOf(db', pid), f)
  {
    HandleOutcome(db, f, now, pid);
    FailureNotifies(f, pid, ViewOf(db, pid), now);
  }

  /**
   * Besides the projects: a quota message leaves the nodes alone and adds no namespace;
   * those no project owns stay, and so do those of the projects that stay.
   */
  lemma QuotaMessageRest(db: Db, f: Feedback, now: Time, k: NamespaceKey)
    requires Structure(db) && (f.QuotaSnapshot? || f.QuotaFailure?)
    ensures var db' := Handle(db, f, now).value.0;
            && db'.nodes == db.nodes
            && (k in db'.namespaces <==>
                  k in db.namespaces
                  && (db.namespaces[k].owner.None? || db.namespaces[k].owner.value in db'.projects))
            && (k in db'.namespaces ==> db'.namespaces[k] == db.namespaces[k])
  {
    if k in db.namespaces && db.namespaces[k].owner.Some? {
      assert OwnerPresent(db, k);
    }
  }

  // ----- namespace reports

  /** What a report about its namespace makes of a project: the row takes the status, or the project ends. */
  predicate Reported(v: View, after: Option<View>, state: NamespaceStatus) {
    if v.project.status == ProjectStatus.Deleting && v.quota.status == QuotaStatus.Deleted
       && state == NamespaceStatus.Deleted
    then after.None?
    else after.Some? && after.value.ns == state && after.value.quota == v.quota && Follows(v, after.value)
  }

  lemma StateReports(f: Feedback, pid: ProjectId, v: View, now: Time)
    requires f.NamespaceState?
    ensures if f.project == pid && v.project.cluster == f.cluster then Reported(v, Outcome(f, pid, v, now), f.state)
            else Outcome(f, pid, v, now) == Some(v)
  {
  }

  /** A status report is for the project it carries, on the cluster that sent it; for any other it is refused. */
  lemma NamespaceStateOutcome(db: Db, f: Feedback, now: Time, pid: ProjectId)
    requires Structure(db) && f.NamespaceState? && pid in db.projects
    ensures Handle(db, f, now).Ok? <==> f.project in db.projects && db.projects[f.project].cluster == f.cluster
    ensures Handle(db, f, now).Err? ==> Handle(db, f, now).error == NotFound
    ensures Handle(db, f, now).Ok? ==>
              var db' := Handle(db, f, now).value.0;
              && Structure(db') && Handle(db, f, now).value.1 == []
              && if pid == f.project then Reported(ViewOf(db, pid), Found(db', pid), f.state)
                 else Found(db', pid) == Some(ViewOf(db, pid))
  {
    if Handle(db, f, now).Ok? {
      HandleOutcome(db, f, now, pid);
      StateReports(f, pid, ViewOf(db, pid), now);
    }
  }

  lemma GoneReports(f: Feedback, pid: ProjectId, v: View, now: Time)
    requires f.NamespaceGone?
    ensures if v.project.cluster == f.cluster && v.project.name == f.name
            then Reported(v, Outcome(f, pid, v, now), NamespaceStatus.Deleted)
            else Outcome(f, pid, v, now) == Some(v)
  {
  }

  /** A notice that a namespace is gone is for the project of that name on that cluster. */
  lemma NamespaceGoneOutcome(db: Db, f: Feedback, now: Time, pid: ProjectId)
    requires Structure(db) && f.NamespaceGone? && pid in db.projects
    ensures Handle(db, f, now).Ok? <==> NamespaceKey(f.cluster, f.name) in db.namespaces
    ensures Handle(db, f, now).Err? ==> Handle(db, f, now).error == NotFound
    ensures Handle(db, f, now).Ok? ==>
              var db' := Handle(db, f, now).value.0;
              && Structure(db') && Handle(db, f, now).value.1 == []
              && if db.projects[pid].cluster == f.cluster && db.projects[pid].name == f.name
                 then Reported(ViewOf(db, pid), Found(db', pid), NamespaceStatus.Deleted)
                 else Found(db', pid) == Some(ViewOf(db, pid))
  {
    if Handle(db, f, now).Ok? {
      HandleOutcome(db, f, now, pid);
      GoneReports(f, pid, ViewOf(db, pid), now);
    }
  }

  /** Namespaces that no project owns: recorded with their state, dropped when gone, and never a project's. */
  lemma UnownedOutcome(db: Db, c: ClusterId, name: string, state: NamespaceStatus, now: Time)
    requires Structure(db)
    ensures var k := NamespaceKey(c, name);
            var owned := k in db.namespaces && db.namespaces[k].owner.Some?;
            Handle(db, UnmanagedNamespace(c, name, state), now)
            == if owned then Ok((db, []))
               else Ok((db.(namespaces := db.namespaces[k := Namespace(None, state)]), []))
    ensures var k := NamespaceKey(c, name);
            k in db.namespaces && db.namespaces[k].owner.None? ==>
              Handle(db, NamespaceGone(c, name), now) == Ok((db.(namespaces := db.namespaces - {k}), []))
  {
  }

  // ----- requests

  /** What a request leaves alone: every project but one, the namespaces of the others and all nodes. */
  ghost predicate OnlyTouches(db: Db, db': Db, pid: ProjectId) {
    && (forall x :: x != pid ==> (x in db'.projects <==> x in db.projects) && (x in db'.quotas <==> x in db.quotas))
    && (forall x :: x != pid && x in db.projects ==> db'.projects[x] == db.projects[x])
    && (forall x :: x != pid && x in db.quotas ==> db'.quotas[x] == db.quotas[x])
    && db'.nodes == db.nodes
  }

  /**
   * A quota edit: changed figures are stored as PENDING and sent; unchanged ones make the
   * quota READY at once and nothing is sent. The reason stays, and the project row too.
   */
  lemma EditOutcome(db: Db, pid: ProjectId, figures: Resources, now: Time)
    requires Structure(db) && EditQuota(db, pid, figures, now).Ok?
    ensures pid in db.projects && pid in db.quotas
    ensures var (db', out) := EditQuota(db, pid, figures, now).value;
            && OnlyTouches(db, db', pid) && db'.projects == db.projects && db'.order == db.order
            && db'.namespaces == db.namespaces && pid in db'.quotas
            && var q, q' := db.quotas[pid], db'.quotas[pid];
               && q'.figures == figures && q'.updatedAt == now && q'.reason == q.reason && q'.cluster == q.cluster
               && if figures == q.figures then q'.status == QuotaStatus.Ready && out == []
                  else q'.status == QuotaStatus.Pending && out == [AllocationMessage(db', q.cluster)]
  {
    assert Owned(db, pid);
  }

  /** Every figure fits beside what is allocated to the others. */
  predicate Fits(held: Resources, figures: Resources, available: Resources) {
    && held.cpu + figures.cpu <= available.cpu && held.memory + figures.memory <= available.memory
    && held.storage + figures.storage <= available.storage && held.gpu + figures.gpu <= available.gpu
  }

  /** Exactly when an edit is accepted: the figures are unchanged, or fit once the old ones are subtracted. */
  lemma EditAccepted(db: Db, pid: ProjectId, figures: Resources, now: Time)
    requires Structure(db)
    ensures pid !in db.projects ==> EditQuota(db, pid, figures, now) == Err(NotFound)
    ensures pid in db.projects ==>
              var q, c := ViewOf(db, pid).quota, db.projects[pid].cluster;
              if figures == q.figures || Fits(Allocated(db, c).Minus(q.figures), figures, Available(db, c))
              then EditQuota(db, pid, figures, now).Ok? else EditQuota(db, pid, figures, now) == Err(QuotaExceeded)
  {
  }

  // ----- creation

  /** The projects of a cluster that are not under deletion. */
  function Living(db: Db, ids: seq<ProjectId>, c: ClusterId): set<ProjectId> {
    set pid | pid in ids && pid in db.projects && db.projects[pid].cluster == c
              && db.projects[pid].status != ProjectStatus.Deleting
  }

  lemma {:induction false} LivingCounted(db: Db, ids: seq<ProjectId>, c: ClusterId)
    requires Distinct(ids)
    ensures LiveProjects(db, ids, c) == |Living(db, ids, c)|
  {
    if ids != [] {
      DistinctTail(ids);
      LivingCounted(db, ids[1..], c);
      var rest := Living(db, ids[1..], c);
      assert Living(db, ids, c) == if ids[0] in Living(db, ids, c) then rest + {ids[0]} else rest;
    }
  }

  /** A name the request schema takes. */
  ghost predicate Acceptable(name: string) {
    && 2 <= |name| <= 41 && name[0] != '-' && name[|name| - 1] != '-'
    && (forall i :: 0 <= i < |name| ==> 'a' <= name[i] <= 'z' || '0' <= name[i] <= '9' || name[i] == '-')
    && name !in {"kaiwo", "minio-users", "platformadmins"}
  }

  lemma NameExactly(name: string)
    ensures ValidName(name) <==> Acceptable(name)
  {
  }

  /**
   * Exactly when a project is created, and which refusal comes first: a bad name, an
   * unhealthy cluster, a name or namespace that is taken, a cluster with 999 projects
   * outside deletion, figures that do not fit beside all that is allocated.
   */
  lemma CreateAccepted(db: Db, pid: ProjectId, c: ClusterId, healthy: bool, name: string, figures: Resources, now: Time)
    requires Structure(db)
    ensures var t := CreateProject(db, pid, c, healthy, name, figures, now);
            if !Acceptable(name) then t == Err(InvalidName)
            else if !healthy then t == Err(Unhealthy)
            else if (exists x :: x in db.projects && db.projects[x].name == name)
                 || NamespaceKey(c, name) in db.namespaces then t == Err(Conflict)
            else if |Living(db, db.order, c)| >= 999 then t == Err(TooManyProjects)
            else if !Fits(Allocated(db, c), figures, Available(db, c)) then t == Err(QuotaExceeded)
            else t.Ok?
  {
    NameExactly(name);
    LivingCounted(db, db.order, c);
  }

  /** A new project: three rows, all PENDING, and its two messages in order. */
  lemma CreateOutcome(db: Db, pid: ProjectId, c: ClusterId, healthy: bool, name: string, figures: Resources, now: Time)
    requires Structure(db) && pid !in db.projects && CreateProject(db, pid, c, healthy, name, figures, now).Ok?
    ensures var (db', out) := CreateProject(db, pid, c, healthy, name, figures, now).value;
            && OnlyTouches(db, db', pid) && db'.order == db.order + [pid]
            && pid in db'.projects && pid in db'.quotas
            && db'.projects[pid] == Project(name, c, ProjectStatus.Pending)
            && db'.quotas[pid] == Quota(c, figures, QuotaStatus.Pending, None, now)
            && db'.namespaces == db.namespaces[NamespaceKey(c, name) := Namespace(Some(pid), NamespaceStatus.Pending)]
            && out == [AllocationMessage(db', c), Outgoing.CreateNamespace(c, name, pid)]
  {
  }

  /** Without a ready node or a quota in force, a cluster takes no project that asks for anything. */
  lemma EmptyClusterRefuses(db: Db, pid: ProjectId, c: ClusterId, healthy: bool, name: string, figures: Resources,
                            now: Time, d: Dimension)
    requires Structure(db) && figures.Get(d) > 0
    requires forall n :: n in NodesOf(db, c) ==> !n.ready
    requires forall x :: x in db.projects && db.projects[x].cluster == c ==> !ViewOf(db, x).quota.status.Active()
    ensures CreateProject(db, pid, c, healthy, name, figures, now).Err?
  {
    NothingReady(NodesOf(db, c));
    forall x | x in db.order ensures Weight(db.quotas, x, c) == ZERO { assert Owned(db, x); }
    NothingHeld(db.quotas, db.order, c);
    NothingTaken(figures, d);
    CreateAccepted(db, pid, c, healthy, name, figures, now);
  }

  lemma NothingTaken(figures: Resources, d: Dimension)
    requires figures.Get(d) > 0
    ensures !Fits(ZERO, figures, ZERO)
  {
  }

  // ----- deletion

  /** A deletion: the three rows are marked, the figures kept, and the two orders sent. */
  lemma DeleteOutcome(db: Db, pid: ProjectId, now: Time)
    requires Structure(db)
    ensures pid !in db.projects ==> DeleteProject(db, pid, now) == Err(NotFound)
    ensures pid in db.projects && db.projects[pid].status == ProjectStatus.Deleting ==>
              DeleteProject(db, pid, now) == Err(Conflict)
    ensures pid in db.projects && db.projects[pid].status != ProjectStatus.Deleting ==>
              && DeleteProject(db, pid, now).Ok?
              && var (db', out) := DeleteProject(db, pid, now).value; var p := db.projects[pid];
                 && Marked(db, db', pid, now)
                 && out == [AllocationMessage(db', p.cluster), Outgoing.DeleteNamespace(p.cluster, p.name, pid)]
  {
    if pid in db.projects && db.projects[pid].status != ProjectStatus.Deleting {
      assert Owned(db, pid);
      Convergence.DeletedMessage(db, pid, now, db.projects[pid].cluster);
    }
  }

  ghost predicate Marked(db: Db, db': Db, pid: ProjectId, now: Time)
    requires pid in db.projects
  {
    var p := db.projects[pid];
    && OnlyTouches(db, db', pid) && db'.order == db.order && pid in db.quotas
    && db'.projects == db.projects[pid := Project(p.name, p.cluster, ProjectStatus.Deleting)]
    && (var q := db.quotas[pid];
        db'.quotas == db.quotas[pid := Quota(q.cluster, q.figures, QuotaStatus.Deleting, q.reason, now)])
    && db'.namespaces == db.namespaces[NamespaceKey(p.cluster, p.name) := Namespace(Some(pid),
                                                                                   NamespaceStatus.Terminating)]
  }

  // ----- nodes

  /** The other tables, and the nodes of other clusters, are left alone. */
  ghost predicate OnlyNodes(db: Db, db': Db, c: ClusterId) {
    && db' == db.(nodes := db'.nodes)
    && forall k: ClusterId :: k != c ==> NodesOf(db', k) == NodesOf(db, k)
  }

  /** One allocation is sent exactly when the rows of the cluster change, and nothing else is touched. */
  ghost predicate NodesWritten(db: Db, t: (Db, seq<Outgoing>), c: ClusterId) {
    && OnlyNodes(db, t.0, c)
    && t.1 == if NodesOf(t.0, c) == NodesOf(db, c) then [] else [AllocationMessage(t.0, c)]
  }

  lemma WriteNodes(db: Db, c: ClusterId, rows: seq<Node>)
    ensures NodesWritten(db, OnNodes(db, c, rows), c)
  {
  }

  /** So it is for every node message. */
  lemma NodesOutcome(db: Db, f: Feedback, now: Time)
    requires Structure(db) && (f.NodeList? || f.NodeUpdate? || f.NodeDelete?) && Handle(db, f, now).Ok?
    ensures NodesWritten(db, Handle(db, f, now).value, f.cluster)
  {
    match f
    case NodeList(c, at, reports) => WriteNodes(db, c, Nodes.Synced(NodesOf(db, c), reports, at));
    case NodeUpdate(c, at, report) => WriteNodes(db, c, Nodes.Updated(NodesOf(db, c), report, at).value);
    case NodeDelete(c, name) => WriteNodes(db, c, Nodes.Removed(NodesOf(db, c), name));
  }

  /** What the rows were, and are, for a row and a report of one name. */
  ghost predicate Names(rows: seq<Node>, i: nat, reports: seq<NodeReport>, j: nat) {
    i < |rows| && j < |reports| && Nodes.SameUpToCase(rows[i].name, reports[j].name)
  }

  /**
   * A node list: a row older than the message takes every field its report carries, and
   * the stamp; when it differed in any of them an allocation is sent. A row as fresh as
   * the message is kept.
   */
  lemma NodeListOutcome(db: Db, f: Feedback, now: Time, i: nat, j: nat) returns (row: Node)
    requires Structure(db) && f.NodeList? && Handle(db, f, now).Ok?
    requires Names(NodesOf(db, f.cluster), i, f.reports, j)
    ensures var (db', out) := Handle(db, f, now).value; var was := NodesOf(db, f.cluster)[i];
            && row in NodesOf(db', f.cluster)
            && (if was.updatedAt >= f.at then row == was else Nodes.Brought(was, row, f.reports[j], f.at))
            && (was.updatedAt < f.at && !Nodes.Carries(was, f.reports[j]) ==>
                  out == [AllocationMessage(db', f.cluster)])
  {
    var rows := NodesOf(db, f.cluster);
    Nodes.LowerExactly(rows[i].name, f.reports[j].name);
    row := Nodes.SyncBrings(rows, f.reports, f.at, i, j);
    NodesOutcome(db, f, now);
    assert NodesOf(Handle(db, f, now).value.0, f.cluster) == Nodes.Synced(rows, f.reports, f.at);
  }

  /** A report of a node list that names no row gets a new one, and an allocation is sent. */
  lemma NodeListCreates(db: Db, f: Feedback, now: Time, j: nat) returns (row: Node)
    requires Structure(db) && f.NodeList? && Handle(db, f, now).Ok? && j < |f.reports|
    requires forall i :: 0 <= i < |NodesOf(db, f.cluster)| ==> !Names(NodesOf(db, f.cluster), i, f.reports, j)
    ensures var (db', out) := Handle(db, f, now).value;
            && row in NodesOf(db', f.cluster) && Nodes.Fresh(row, f.reports[j], f.at)
            && out == [AllocationMessage(db', f.cluster)]
  {
    var rows := NodesOf(db, f.cluster);
    forall i | 0 <= i < |rows| ensures Lower(rows[i].name) != Lower(f.reports[j].name) {
      assert !Names(rows, i, f.reports, j);
      Nodes.LowerExactly(rows[i].name, f.reports[j].name);
    }
    row := Nodes.SyncCreates(rows, f.reports, f.at, j);
    NodesOutcome(db, f, now);
    assert NodesOf(Handle(db, f, now).value.0, f.cluster) == Nodes.Synced(rows, f.reports, f.at);
  }

  /** After a node list every row is named by a report. */
  lemma NodeListNames(db: Db, f: Feedback, now: Time, row: Node)
    requires Structure(db) && f.NodeList? && Handle(db, f, now).Ok?
    requires row in NodesOf(Handle(db, f, now).value.0, f.cluster)
    ensures exists j :: 0 <= j < |f.reports| && Nodes.SameUpToCase(row.name, f.reports[j].name)
  {
    var rows, next := NodesOf(db, f.cluster), NodesOf(Handle(db, f, now).value.0, f.cluster);
    assert next == Nodes.Synced(rows, f.reports, f.at);
    Nodes.SyncAchieves(rows, f.reports, f.at);
    assert Nodes.HasReport(f.reports, Lower(row.name));
    var j :| 0 <= j < |f.reports| && Lower(f.reports[j].name) == Lower(row.name);
    Nodes.LowerExactly(row.name, f.reports[j].name);
  }

  /** A node list that does not name a row drops it, and an allocation is sent. */
  lemma NodeListDrops(db: Db, f: Feedback, now: Time, row: Node)
    requires Structure(db) && f.NodeList? && Handle(db, f, now).Ok? && row in NodesOf(db, f.cluster)
    requires forall j :: 0 <= j < |f.reports| ==> !Nodes.SameUpToCase(row.name, f.reports[j].name)
    ensures var (db', out) := Handle(db, f, now).value;
            row !in NodesOf(db', f.cluster) && out == [AllocationMessage(db', f.cluster)]
  {
    var next := NodesOf(Handle(db, f, now).value.0, f.cluster);
    NodesOutcome(db, f, now);
    if row in next {
      NodeListNames(db, f, now, row);
    }
  }

  /** A node list is refused exactly when two of its reports have one name, whatever its case. */
  lemma NodeListRefused(db: Db, f: Feedback, now: Time)
    requires Structure(db) && f.NodeList?
    ensures Handle(db, f, now).Err? <==>
              exists i, j :: 0 <= i < j < |f.reports| && Nodes.SameUpToCase(f.reports[i].name, f.reports[j].name)
  {
    forall i, j | 0 <= i < j < |f.reports|
      ensures Lower(f.reports[i].name) == Lower(f.reports[j].name)
         <==> Nodes.SameUpToCase(f.reports[i].name, f.reports[j].name)
    {
      Nodes.LowerExactly(f.reports[i].name, f.reports[j].name);
    }
  }

  /**
   * A node update, which has no staleness check: the row of exactly this name takes every
   * field of the report, and when it differed in any the stamp, and an allocation is sent;
   * without such a row a new one is added. All other rows stay.
   */
  lemma NodeUpdateOutcome(db: Db, f: Feedback, now: Time, i: nat)
    requires Structure(db) && f.NodeUpdate? && Handle(db, f, now).Ok? && i < |NodesOf(db, f.cluster)|
    ensures var (db', out) := Handle(db, f, now).value; var was := NodesOf(db, f.cluster)[i];
            && i < |NodesOf(db', f.cluster)|
            && var row := NodesOf(db', f.cluster)[i];
               if was.name == f.report.name then
                 && Nodes.Brought(was, row, f.report, f.at)
                 && (!Nodes.Carries(was, f.report) ==> out == [AllocationMessage(db', f.cluster)])
               else row == was
  {
    var rows := NodesOf(db, f.cluster);
    Nodes.UpdateBrings(rows, f.report, f.at);
    NodesOutcome(db, f, now);
    assert NodesOf(Handle(db, f, now).value.0, f.cluster) == Nodes.Updated(rows, f.report, f.at).value;
  }

  lemma NodeUpdateCreates(db: Db, f: Feedback, now: Time)
    requires Structure(db) && f.NodeUpdate? && Handle(db, f, now).Ok?
    requires forall row :: row in NodesOf(db, f.cluster) ==> row.name != f.report.name
    ensures var (db', out) := Handle(db, f, now).value;
            var rows, rows' := NodesOf(db, f.cluster), NodesOf(db', f.cluster);
            && |rows'| == |rows| + 1 && rows'[..|rows|] == rows && Nodes.Fresh(rows'[|rows|], f.report, f.at)
            && out == [AllocationMessage(db', f.cluster)]
  {
    var rows := NodesOf(db, f.cluster);
    forall i | 0 <= i < |rows| ensures rows[i].name != f.report.name { assert rows[i] in rows; }
    Nodes.UpdateBrings(rows, f.report, f.at);
    NodesOutcome(db, f, now);
    assert NodesOf(Handle(db, f, now).value.0, f.cluster) == Nodes.Updated(rows, f.report, f.at).value;
  }

  /** A node deletion takes out the rows of exactly this name, and sends an allocation exactly when there was one. */
  lemma NodeDeleteOutcome(db: Db, f: Feedback, now: Time)
    requires Structure(db) && f.NodeDelete?
    ensures Handle(db, f, now).Ok?
    ensures var (db', out) := Handle(db, f, now).value;
            && (forall row :: row in NodesOf(db', f.cluster) <==> row in NodesOf(db, f.cluster) && row.name != f.name)
            && out == if (exists row :: row in NodesOf(db, f.cluster) && row.name == f.name)
                      then [AllocationMessage(db', f.cluster)] else []
  {
    var rows := NodesOf(db, f.cluster);
    Nodes.RemovedRows(rows, f.name);
    NodesOutcome(db, f, now);
    assert NodesOf(Handle(db, f, now).value.0, f.cluster) == Nodes.Removed(rows, f.name);
    if i :| 0 <= i < |rows| && rows[i].name == f.name {
      assert rows[i] in rows;
    }
  }
}
