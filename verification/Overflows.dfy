/** Each guard of capacity safety is needed: runs from the empty system that break just one and overflow a cluster. */
module Overflows {
  import opened Domain
  import opened Capacity
  import opened Lifecycle
  import opened Consumer
  import opened Protocol
  import opened Runs
  import opened CapacitySafety
  import opened Convergence
  import Nodes
  import QueueConfig

  /** Every event of the run respects the guard. */
  ghost predicate RespectsRun(s: System, es: seq<Event>, c: ClusterId, g: Guard)
    requires Inv(s)
    decreases es
  {
    es == [] || (
      StepInv(s, es[0]);
      Respects(s, es[0], c, g) && RespectsRun(Step(s, es[0]), es[1..], c, g))
  }

  /** The run leads from the empty system to `s`, and respects every guard but `g`. */
  ghost predicate Leads(es: seq<Event>, s: System, c: ClusterId, g: Guard) {
    Reached(es) == s && forall h: Guard :: h != g ==> RespectsRun(INIT, es, c, h)
  }

  /** The system can come to `s` with no guard but `g` broken. */
  ghost predicate OnlyBreaks(s: System, c: ClusterId, g: Guard) {
    exists es :: Leads(es, s, c, g)
  }

  ghost predicate RespectsOthers(s: System, e: Event, c: ClusterId, g: Guard)
    requires Structure(s.db)
  {
    forall h: Guard :: h != g ==> Respects(s, e, c, h)
  }

  lemma {:induction false} RespectsAppend(s: System, es: seq<Event>, e: Event, c: ClusterId, g: Guard)
    requires Inv(s) && RespectsRun(s, es, c, g) && Respects(Run(s, es), e, c, g)
    ensures RespectsRun(s, es + [e], c, g)
    decreases es
  {
    if es == [] {
      assert es + [e] == [e];
      RespectsOne(s, e, c, g);
    } else {
      StepInv(s, es[0]);
      assert (es + [e])[0] == es[0] && (es + [e])[1..] == es[1..] + [e];
      RespectsAppend(Step(s, es[0]), es[1..], e, c, g);
    }
  }

  lemma RespectsOne(s: System, e: Event, c: ClusterId, g: Guard)
    requires Inv(s) && Respects(s, e, c, g)
    ensures RespectsRun(s, [e], c, g)
  {
    StepInv(s, e);
    assert [e][1..] == [];
  }

  lemma Advance(s: System, e: Event, c: ClusterId, g: Guard) returns (s': System)
    requires OnlyBreaks(s, c, g) && Inv(s) && RespectsOthers(s, e, c, g)
    ensures s' == Step(s, e) && Inv(s') && OnlyBreaks(s', c, g)
  {
    var es :| Leads(es, s, c, g);
    s' := Step(s, e);
    StepInv(s, e);
    LeadsOn(es, s, e, c, g);
  }

  lemma LeadsOn(es: seq<Event>, s: System, e: Event, c: ClusterId, g: Guard)
    requires Leads(es, s, c, g) && Inv(s) && RespectsOthers(s, e, c, g)
    ensures Leads(es + [e], Step(s, e), c, g)
  {
    InitInv();
    ReachedNext(es, s, e);
    forall h: Guard | h != g ensures RespectsRun(INIT, es + [e], c, h) {
      RespectsAppend(INIT, es, e, c, h);
    }
  }

  lemma Start(c: ClusterId, g: Guard)
    ensures Inv(INIT) && OnlyBreaks(INIT, c, g)
  {
    InitInv();
    assert Leads([], INIT, c, g);
  }

  /** An event in a cluster respects every guard. */
  lemma ClusterNext(s: System, e: Event, c: ClusterId, g: Guard) returns (s': System)
    requires OnlyBreaks(s, c, g) && Inv(s) && !e.OnTables()
    ensures s' == ClusterStep(s, e) && s'.db == s.db && Inv(s') && OnlyBreaks(s', c, g)
  {
    s' := Advance(s, e, c, g);
    ClusterInv(s, e);
  }

  lemma DeliverNext(s: System, f: Feedback, c: ClusterId, g: Guard) returns (s': System)
    requires OnlyBreaks(s, c, g) && Inv(s) && RespectsOthers(s, Deliver(f), c, g)
    requires f in s.feedback && Handle(s.db, f, s.now).Ok?
    ensures s'.db == Handle(s.db, f, s.now).value.0 && Inv(s') && OnlyBreaks(s', c, g)
  {
    s' := Advance(s, Deliver(f), c, g);
    DeliverStep(s, f);
  }

  lemma EditNext(s: System, pid: ProjectId, figures: Resources, c: ClusterId, g: Guard) returns (s': System)
    requires OnlyBreaks(s, c, g) && Inv(s) && RespectsOthers(s, RequestEdit(pid, figures), c, g)
    requires EditQuota(s.db, pid, figures, s.now).Ok?
    ensures s'.db == EditQuota(s.db, pid, figures, s.now).value.0 && Inv(s') && OnlyBreaks(s', c, g)
  {
    s' := Advance(s, RequestEdit(pid, figures), c, g);
    EditStep(s, pid, figures);
  }

  lemma EditStep(s: System, pid: ProjectId, figures: Resources)
    requires Structure(s.db) && EditQuota(s.db, pid, figures, s.now).Ok?
    ensures Step(s, RequestEdit(pid, figures)).db == EditQuota(s.db, pid, figures, s.now).value.0
  {
  }

  lemma DeleteNext(s: System, pid: ProjectId, c: ClusterId, g: Guard) returns (s': System)
    requires OnlyBreaks(s, c, g) && Inv(s) && DeleteProject(s.db, pid, s.now).Ok?
    ensures s'.db == DeleteProject(s.db, pid, s.now).value.0 && Inv(s') && OnlyBreaks(s', c, g)
    ensures s'.nextId == s.nextId && SameClusters(s, s')
  {
    DeleteRespects(s, pid, c, g);
    s' := Advance(s, RequestDelete(pid), c, g);
    DeleteStep(s, pid);
    TablesKeepCluster(s, RequestDelete(pid));
  }

  lemma DeleteRespects(s: System, pid: ProjectId, c: ClusterId, g: Guard)
    requires Structure(s.db)
    ensures RespectsOthers(s, RequestDelete(pid), c, g)
  {
  }

  lemma NodesReported(s: System, f: Feedback, c: ClusterId, g: Guard) returns (s': System)
    requires OnlyBreaks(s, c, g) && Inv(s) && (f.NodeUpdate? || f.NodeDelete?)
    ensures OnlyBreaks(s', c, g) && Inv(s') && s' == s.(feedback := s.feedback + {f})
  {
    s' := ClusterNext(s, ReportNodes(f), c, g);
  }

  // ----- the steps the runs are made of

  const NODE := "n"

  function Machine(cap: Resources): NodeReport {
    NodeReport(NODE, cap.cpu, cap.memory, cap.storage, None, "Ready", true)
  }

  function Rows(cap: Resources): seq<Node> {
    [Nodes.Written(Nodes.BLANK, Machine(cap), 0)]
  }

  function Furnished(c: ClusterId, cap: Resources): Db {
    EMPTY_DB.(nodes := map[c := Rows(cap)])
  }

  lemma FirstNode(c: ClusterId, cap: Resources, now: Time)
    ensures Structure(EMPTY_DB) && Handle(EMPTY_DB, NodeUpdate(c, 0, Machine(cap)), now).Ok?
    ensures Handle(EMPTY_DB, NodeUpdate(c, 0, Machine(cap)), now).value.0 == Furnished(c, cap)
  {
    assert NodesOf(EMPTY_DB, c) == [];
    NewRow(Machine(cap), 0);
    assert EMPTY_DB.nodes[c := Rows(cap)] == map[c := Rows(cap)];
  }

  lemma NewRow(r: NodeReport, at: Time)
    ensures Nodes.Updated([], r, at) == Ok([Nodes.Written(Nodes.BLANK, r, at)])
  {
    assert !Nodes.Named([], r.name) && !Nodes.HasRow([], Lower(r.name));
    assert [] + [Nodes.Written(Nodes.BLANK, r, at)] == [Nodes.Written(Nodes.BLANK, r, at)];
  }

  lemma FurnishedTotals(c: ClusterId, cap: Resources)
    requires cap.gpu == 0
    ensures Available(Furnished(c, cap), c) == cap && Allocated(Furnished(c, cap), c) == ZERO
    ensures Available(EMPTY_DB, c) == ZERO
  {
    var rows := Rows(cap);
    assert rows[1..] == [];
    assert rows[0].figures == cap && rows[0].ready;
    ZeroPlus(cap);
    assert SumReady(rows) == cap.Plus(SumReady([]));
  }

  /** A node with these resources joins the cluster of the empty system. */
  lemma Furnish(c: ClusterId, g: Guard, cap: Resources) returns (s: System)
    requires ZERO.Within(cap) && cap.gpu == 0
    ensures OnlyBreaks(s, c, g) && Inv(s) && s.db == Furnished(c, cap) && s.nextId == 0
    ensures s.configs == map[] && s.limit.None?
    ensures Available(s.db, c) == cap && Allocated(s.db, c) == ZERO
  {
    var f := NodeUpdate(c, 0, Machine(cap));
    Start(c, g);
    var s1 := NodesReported(INIT, f, c, g);
    FirstNode(c, cap, s1.now);
    FurnishedTotals(c, cap);
    s := Advance(s1, Deliver(f), c, g);
    TablesKeepCluster(s1, Deliver(f));
  }

  lemma {:induction false} LiveBound(db: Db, ids: seq<ProjectId>, c: ClusterId)
    ensures LiveProjects(db, ids, c) <= |ids|
  {
    if ids != [] {
      LiveBound(db, ids[1..], c);
    }
  }

  /** Room for a project of this name. */
  ghost predicate Free(db: Db, c: ClusterId, name: string) {
    ValidName(name) && !NameTaken(db, name) && NamespaceKey(c, name) !in db.namespaces && |db.order| < 10
  }

  lemma Accepted(db: Db, pid: ProjectId, c: ClusterId, name: string, figures: Resources, now: Time)
    requires Free(db, c, name) && Allocated(db, c).Plus(figures).Within(Available(db, c))
    ensures var t := CreateProject(db, pid, c, true, name, figures, now);
            && t.Ok? && t.value.0 == WithProject(db, pid, c, name, figures, now)
            && t.value.1 == [AllocationMessage(t.value.0, c), Outgoing.CreateNamespace(c, name, pid)]
  {
    LiveBound(db, db.order, c);
  }

  /** A project is created. */
  lemma Admit(s: System, c: ClusterId, g: Guard, name: string, figures: Resources) returns (s': System)
    requires OnlyBreaks(s, c, g) && Inv(s) && Free(s.db, c, name) && (g == Sign || ZERO.Within(figures))
    requires Allocated(s.db, c).Plus(figures).Within(Available(s.db, c))
    ensures OnlyBreaks(s', c, g) && Inv(s') && s'.db == WithProject(s.db, s.nextId, c, name, figures, s.now)
    ensures s'.nextId == s.nextId + 1 && SameClusters(s, s') && s.nextId !in s.db.projects
    ensures s.limit.None? ==> AllocationMessage(s'.db, c) in s'.sent
    ensures Allocated(s'.db, c) == Allocated(s.db, c).Plus(figures) && Available(s'.db, c) == Available(s.db, c)
  {
    var e := RequestCreate(c, true, name, figures);
    AdmitRespects(s, c, g, name, figures);
    s' := Advance(s, e, c, g);
    TablesKeepCluster(s, e);
    AdmitStep(s, c, name, figures);
    FreshId(s);
    AdmitTotals(s.db, s.nextId, c, name, figures, s.now);
  }

  lemma AdmitStep(s: System, c: ClusterId, name: string, figures: Resources)
    requires Inv(s) && Free(s.db, c, name) && Allocated(s.db, c).Plus(figures).Within(Available(s.db, c))
    ensures var s' := Step(s, RequestCreate(c, true, name, figures));
            && s'.db == WithProject(s.db, s.nextId, c, name, figures, s.now) && s'.nextId == s.nextId + 1
            && (s.limit.None? ==> AllocationMessage(s'.db, c) in s'.sent)
  {
    var e := RequestCreate(c, true, name, figures);
    Accepted(s.db, s.nextId, c, name, figures, s.now);
    CreateStep(s, e);
    var out := Enqueued(s, e);
    assert out[0] in out;
    if s.limit.None? {
      NothingLost(s, e, out[0]);
    }
  }

  lemma AdmitRespects(s: System, c: ClusterId, g: Guard, name: string, figures: Resources)
    requires Structure(s.db) && (g == Sign || ZERO.Within(figures))
    ensures RespectsOthers(s, RequestCreate(c, true, name, figures), c, g)
  {
  }

  lemma AdmitTotals(db: Db, pid: ProjectId, c: ClusterId, name: string, figures: Resources, now: Time)
    requires Structure(db) && pid !in db.projects
    ensures var db' := WithProject(db, pid, c, name, figures, now);
            Allocated(db', c) == Allocated(db, c).Plus(figures) && Available(db', c) == Available(db, c)
  {
    assert pid !in db.order;
    var q := Quota(c, figures, QuotaStatus.Pending, None, now);
    AddedTotals(db, WithProject(db, pid, c, name, figures, now), pid, q, c);
  }

  lemma AddedTotals(db: Db, db': Db, pid: ProjectId, q: Quota, c: ClusterId)
    requires pid !in db.order && db'.quotas == db.quotas[pid := q] && db'.order == db.order + [pid]
    requires db'.nodes == db.nodes
    requires q.cluster == c && q.status.Active()
    ensures Allocated(db', c) == Allocated(db, c).Plus(q.figures) && Available(db', c) == Available(db, c)
  {
    CreatedTotals(db, db', pid, c);
    SameNodes(db, db', c);
  }

  /** Deletion of a project is requested. */
  lemma Withdraw(s: System, c: ClusterId, g: Guard, pid: ProjectId) returns (s': System)
    requires OnlyBreaks(s, c, g) && Inv(s) && pid in s.db.projects
    requires s.db.projects[pid].status != ProjectStatus.Deleting
    ensures OnlyBreaks(s', c, g) && Inv(s') && s'.db == DeleteProject(s.db, pid, s.now).value.0
    ensures s'.nextId == s.nextId && SameClusters(s, s')
    ensures Allocated(s'.db, c) == Allocated(s.db, c).Minus(Weight(s.db.quotas, pid, c))
    ensures Available(s'.db, c) == Available(s.db, c)
  {
    assert DeleteProject(s.db, pid, s.now).Ok?;
    DeleteAllocated(s.db, pid, s.now, c);
    s' := DeleteNext(s, pid, c, g);
  }

  // ----- two projects

  function Cores(n: int): Resources {
    Resources(n, 0, 0, 0)
  }

  lemma FurnishedFree(c: ClusterId, cap: Resources, name: string)
    requires ValidName(name)
    ensures Free(Furnished(c, cap), c, name)
  {
  }

  /** The first project of a furnished cluster, seen in the tables. */
  ghost predicate FirstHere(db: Db, c: ClusterId, cap: Resources, a: string, figures: Resources, now: Time) {
    && Structure(db) && 0 in db.projects && db.order == [0] && NodesOf(db, c) == Rows(cap)
    && ViewOf(db, 0) == View(Project(a, c, ProjectStatus.Pending),
                             Quota(c, figures, QuotaStatus.Pending, None, now), NamespaceStatus.Pending)
    && Weight(db.quotas, 0, c) == figures
    && forall name :: ValidName(name) && name != a ==> Free(db, c, name)
  }

  lemma FirstInTables(c: ClusterId, cap: Resources, a: string, figures: Resources, now: Time)
    requires ValidName(a)
    ensures FirstHere(WithProject(Furnished(c, cap), 0, c, a, figures, now), c, cap, a, figures, now)
  {
    FurnishedFree(c, cap, a);
    CreateViews(Furnished(c, cap), 0, c, a, figures, now);
    forall name | ValidName(name) && name != a
      ensures Free(WithProject(Furnished(c, cap), 0, c, a, figures, now), c, name)
    {
      SecondFree(c, cap, a, figures, now, name);
    }
  }

  lemma SecondFree(c: ClusterId, cap: Resources, a: string, figures: Resources, now: Time, name: string)
    requires ValidName(name) && name != a
    ensures Free(WithProject(Furnished(c, cap), 0, c, a, figures, now), c, name)
  {
  }

  /** A cluster of ten cores, and a first project on it. */
  lemma OneOfTen(c: ClusterId, g: Guard, a: string, n: int) returns (s: System)
    requires ValidName(a) && n <= 10 && (g == Sign || 0 <= n)
    ensures OnlyBreaks(s, c, g) && Inv(s) && s.nextId == 1 && 0 in s.db.projects && s.db.order == [0]
    ensures s.configs == map[]
    ensures ViewOf(s.db, 0) == View(Project(a, c, ProjectStatus.Pending),
                                    Quota(c, Cores(n), QuotaStatus.Pending, None, s.now), NamespaceStatus.Pending)
    ensures Weight(s.db.quotas, 0, c) == Cores(n) && AllocationMessage(s.db, c) in s.sent
    ensures Available(s.db, c) == Cores(10) && Allocated(s.db, c) == Cores(n) && NodesOf(s.db, c) == Rows(Cores(10))
    ensures forall name :: ValidName(name) && name != a ==> Free(s.db, c, name)
  {
    s := FirstOn(c, g, a, Cores(10), Cores(n));
  }

  lemma FirstOn(c: ClusterId, g: Guard, a: string, cap: Resources, figures: Resources) returns (s: System)
    requires ValidName(a) && ZERO.Within(cap) && cap.gpu == 0 && figures.Within(cap)
    requires (g == Sign || ZERO.Within(figures))
    ensures OnlyBreaks(s, c, g) && Inv(s) && s.nextId == 1 && s.configs == map[]
    ensures FirstHere(s.db, c, cap, a, figures, s.now) && AllocationMessage(s.db, c) in s.sent
    ensures Available(s.db, c) == cap && Allocated(s.db, c) == figures
  {
    var s0 := Furnish(c, g, cap);
    FurnishedFree(c, cap, a);
    FirstFits(Allocated(s0.db, c), figures, cap);
    s := Admit(s0, c, g, a, figures);
    FirstInTables(c, cap, a, figures, s0.now);
  }

  lemma FirstFits(held: Resources, figures: Resources, cap: Resources)
    requires held == ZERO && figures.Within(cap)
    ensures held.Plus(figures) == figures && held.Plus(figures).Within(cap)
  {
  }

  lemma WithdrawnFree(db: Db, pid: ProjectId, now: Time, c: ClusterId, name: string)
    requires Structure(db) && DeleteProject(db, pid, now).Ok? && Free(db, c, name)
    ensures Free(DeleteProject(db, pid, now).value.0, c, name)
  {
    assert Owned(db, pid);
  }

  /** The first project is deleted, and its figures are free again. */
  lemma FirstWithdrawn(s: System, c: ClusterId, g: Guard, a: string, n: int) returns (s': System)
    requires OnlyBreaks(s, c, g) && Inv(s) && 0 in s.db.projects && s.db.order == [0]
    requires ViewOf(s.db, 0) == View(Project(a, c, ProjectStatus.Pending),
                                     Quota(c, Cores(n), QuotaStatus.Pending, None, s.now), NamespaceStatus.Pending)
    requires Weight(s.db.quotas, 0, c) == Cores(n) && Available(s.db, c) == Cores(10) && Allocated(s.db, c) == Cores(n)
    requires forall name :: ValidName(name) && name != a ==> Free(s.db, c, name)
    ensures OnlyBreaks(s', c, g) && Inv(s') && s'.nextId == s.nextId && 0 in s'.db.projects && s'.db.order == [0]
    ensures s'.now == s.now && s'.configs == s.configs && s'.feedback == s.feedback
    ensures ViewOf(s'.db, 0) == View(Project(a, c, ProjectStatus.Deleting),
                                     Quota(c, Cores(n), QuotaStatus.Deleting, None, s.now), NamespaceStatus.Terminating)
    ensures Available(s'.db, c) == Cores(10) && Allocated(s'.db, c) == ZERO
    ensures forall name :: ValidName(name) && name != a ==> Free(s'.db, c, name)
  {
    s' := Withdraw(s, c, g, 0);
    DeleteViews(s.db, 0, s.now);
    forall name | ValidName(name) && name != a ensures Free(s'.db, c, name) {
      WithdrawnFree(s.db, 0, s.now, c, name);
    }
  }

  /** The second project takes all there is. */
  lemma SecondProject(s: System, c: ClusterId, g: Guard, b: string, cap: Resources) returns (s': System)
    requires OnlyBreaks(s, c, g) && Inv(s) && 0 in s.db.projects && s.nextId !in s.db.projects && Free(s.db, c, b)
    requires Available(s.db, c) == cap && Allocated(s.db, c) == ZERO && ZERO.Within(cap)
    ensures OnlyBreaks(s', c, g) && Inv(s') && 0 in s'.db.projects && s.nextId in s'.db.projects
    ensures s'.db.order == s.db.order + [s.nextId] && s'.feedback == s.feedback
    ensures ViewOf(s'.db, 0) == ViewOf(s.db, 0)
    ensures ViewOf(s'.db, s.nextId).quota == Quota(c, cap, QuotaStatus.Pending, None, s.now)
    ensures Available(s'.db, c) == cap && Allocated(s'.db, c) == cap
  {
    FirstFits(Allocated(s.db, c), cap, cap);
    s' := Admit(s, c, g, b, cap);
    CreateViews(s.db, s.nextId, c, b, cap, s.now);
  }

  // ----- one run for each guard

  /** An edit that passes the check because figures that were not counted are subtracted. */
  lemma EditTaken(db: Db, c: ClusterId, pid: ProjectId, now: Time, held: Resources, was: Resources, figures: Resources)
    requires Structure(db) && pid in db.projects && db.projects[pid].cluster == c
    requires ViewOf(db, pid).quota.figures == was && !ViewOf(db, pid).quota.status.Active()
    requires Available(db, c) == held && Allocated(db, c) == held
    requires figures != was && held.Minus(was).Plus(figures).Within(held) && !held.Plus(figures).Within(held)
    ensures EditQuota(db, pid, figures, now).Ok? && !WithinCapacity(EditQuota(db, pid, figures, now).value.0, c)
  {
    assert Owned(db, pid);
    assert Prospective(held, Some(was), figures) == held.Minus(was).Plus(figures);
    EditWithinExactly(db, pid, figures, now);
  }

  lemma EditRespects(s: System, pid: ProjectId, figures: Resources, c: ClusterId)
    requires Structure(s.db) && ZERO.Within(figures)
    ensures RespectsOthers(s, RequestEdit(pid, figures), c, Activity)
  {
  }

  lemma DeliverRespects(s: System, f: Feedback, c: ClusterId, g: Guard)
    requires Structure(s.db) && (g == ReadyNodes || g == Revival)
    requires g == ReadyNodes ==> !f.QuotaSnapshot?
    requires g == Revival && Handle(s.db, f, s.now).Ok? ==>
               Available(s.db, c).Within(Available(Handle(s.db, f, s.now).value.0, c))
    ensures RespectsOthers(s, Deliver(f), c, g)
  {
  }

  /** Activity: six cores under deletion are taken again by a second project, and then edited down to five. */
  lemma EditOfDeletingOverflows(c: ClusterId, a: string, b: string)
    requires ValidName(a) && ValidName(b) && a != b
    ensures exists s :: OnlyBreaks(s, c, Activity) && !WithinCapacity(s.db, c)
  {
    var s1 := OneOfTen(c, Activity, a, 6);
    var s2 := FirstWithdrawn(s1, c, Activity, a, 6);
    FreshId(s2);
    var s3 := SecondProject(s2, c, Activity, b, Cores(10));
    EditTaken(s3.db, c, 0, s3.now, Cores(10), Cores(6), Cores(5));
    EditRespects(s3, 0, Cores(5), c);
    var s4 := EditNext(s3, 0, Cores(5), c, Activity);
    assert !WithinCapacity(s4.db, c);
  }

  /** Sign: a project of minus five cores makes room for one of fifteen, and is deleted. */
  lemma NegativeFiguresOverflow(c: ClusterId, a: string, b: string)
    requires ValidName(a) && ValidName(b) && a != b
    ensures exists s :: OnlyBreaks(s, c, Sign) && !WithinCapacity(s.db, c)
  {
    var s1 := OneOfTen(c, Sign, a, -5);
    var s2 := Admit(s1, c, Sign, b, Cores(15));
    CreateViews(s1.db, 1, c, b, Cores(15), s1.now);
    assert ViewOf(s2.db, 0) == ViewOf(s1.db, 0);
    var s3 := Withdraw(s2, c, Sign, 0);
    assert Allocated(s3.db, c) == Cores(15);
    assert !WithinCapacity(s3.db, c);
  }

  /** Ready nodes: the only node leaves. */
  lemma NodeLossOverflows(c: ClusterId, a: string)
    requires ValidName(a)
    ensures exists s :: OnlyBreaks(s, c, ReadyNodes) && !WithinCapacity(s.db, c)
  {
    var s1 := OneOfTen(c, ReadyNodes, a, 10);
    var f := NodeDelete(c, NODE);
    var s2 := NodesReported(s1, f, c, ReadyNodes);
    NodeGone(s2.db, c, s2.now);
    DeliverRespects(s2, f, c, ReadyNodes);
    var s3 := DeliverNext(s2, f, c, ReadyNodes);
    assert !WithinCapacity(s3.db, c);
  }

  lemma NodeGone(db: Db, c: ClusterId, now: Time)
    requires Structure(db) && NodesOf(db, c) == Rows(Cores(10)) && Allocated(db, c) == Cores(10)
    ensures Handle(db, NodeDelete(c, NODE), now).Ok?
    ensures !WithinCapacity(Handle(db, NodeDelete(c, NODE), now).value.0, c)
  {
    EmptyCluster(db, c, now);
    FeedbackAllocated(db, NodeDelete(c, NODE), now, c);
    NothingMoves(db, NodeDelete(c, NODE), c);
  }

  lemma EmptyCluster(db: Db, c: ClusterId, now: Time)
    requires Structure(db) && NodesOf(db, c) == Rows(Cores(10))
    ensures Handle(db, NodeDelete(c, NODE), now).Ok?
    ensures Available(Handle(db, NodeDelete(c, NODE), now).value.0, c) == ZERO
  {
    var rows := Rows(Cores(10));
    assert rows[0].name == NODE && rows[1..] == [];
    assert Nodes.Removed(rows, NODE) == [];
  }

  lemma NothingMoves(db: Db, f: Feedback, c: ClusterId)
    requires Structure(db) && !f.QuotaSnapshot?
    ensures Allocated(db, c).Plus(SumChosen(db.quotas, db.order, Revived(db, f, c)))
                            .Minus(SumChosen(db.quotas, db.order, Emptied(db, f, c))) == Allocated(db, c)
  {
    assert Revived(db, f, c) == {} && Emptied(db, f, c) == {};
    ChosenElsewhere(db.quotas, db.order, {});
    ZeroPlus(Allocated(db, c));
    ZeroMinus(Allocated(db, c));
  }

  // ----- revival

  lemma ConfigNext(s: System, c: ClusterId, g: Guard) returns (s': System)
    requires OnlyBreaks(s, c, g) && Inv(s)
    ensures OnlyBreaks(s', c, g) && Inv(s') && s' == Configure(s, c, [])
  {
    s' := ClusterNext(s, OutsideConfig(c, []), c, g);
  }

  /** The cluster gets a configuration and applies the message that names the first project. */
  lemma AppliedFirst(s: System, c: ClusterId, g: Guard) returns (s': System)
    requires OnlyBreaks(s, c, g) && Inv(s) && AllocationMessage(s.db, c) in s.sent
    ensures OnlyBreaks(s', c, g) && Inv(s') && s'.db == s.db && s'.now == s.now && s'.nextId == s.nextId
    ensures c in s'.configs && s'.configs[c] == Applying(s.db, c)
  {
    var s1 := ConfigNext(s, c, g);
    s' := ClusterNext(s1, ApplyAllocation(AllocationMessage(s.db, c)), c, g);
    AppliedNow(s1, c);
  }

  lemma AppliedNow(s: System, c: ClusterId)
    requires c in s.configs && AllocationMessage(s.db, c) in s.sent
    ensures ClusterStep(s, ApplyAllocation(AllocationMessage(s.db, c))) == Configure(s, c, Applying(s.db, c))
  {
  }

  /** It publishes what it still has, and time passes. */
  lemma PublishedLate(s: System, c: ClusterId, g: Guard) returns (s': System)
    requires OnlyBreaks(s, c, g) && Inv(s) && c in s.configs && s.configs[c] != []
    ensures OnlyBreaks(s', c, g) && Inv(s') && s'.db == s.db && s'.now == s.now + 1 && s'.nextId == s.nextId
    ensures QuotaSnapshot(c, s.now, QueueConfig.ReadBack(s.configs[c])) in s'.feedback
  {
    var s1 := ClusterNext(s, PublishSnapshot(c), c, g);
    SnapshotNow(s, c);
    s' := ClusterNext(s1, Tick, c, g);
  }

  /** What a late snapshot does to the two projects: the first is revived, the second is too young to be judged. */
  lemma RevivedFirst(db: Db, f: Feedback, c: ClusterId, x: ProjectId, y: ProjectId)
    requires Structure(db) && f.QuotaSnapshot? && f.cluster == c && db.order == [x] + [y] && x != y
    requires x in db.projects && y in db.projects && db.projects[x].cluster == c
    requires Revives(f, ViewOf(db, x)) && ViewOf(db, y).quota.updatedAt > f.at
    ensures SumChosen(db.quotas, db.order, Revived(db, f, c)) == ViewOf(db, x).quota.figures
    ensures SumChosen(db.quotas, db.order, Emptied(db, f, c)) == ZERO
  {
    forall pid | pid in db.projects ensures pid == x || pid == y { assert pid in db.order; }
    assert Revived(db, f, c) == {x} && Emptied(db, f, c) == {};
    ChosenElsewhere(db.quotas, db.order, {});
    ChosenOne(db.quotas, db.order, Revived(db, f, c), x);
  }

  lemma {:induction false} ChosenElsewhere(quotas: map<ProjectId, Quota>, ids: seq<ProjectId>, chosen: set<ProjectId>)
    requires forall pid :: pid in ids ==> pid !in chosen
    ensures SumChosen(quotas, ids, chosen) == ZERO
  {
    if ids != [] {
      assert ids[0] in ids;
      ChosenElsewhere(quotas, ids[1..], chosen);
      SumOfTwo(Chosen(quotas, ids[0], chosen), SumChosen(quotas, ids[1..], chosen), ZERO);
    }
  }

  lemma {:induction false} ChosenOne(quotas: map<ProjectId, Quota>, ids: seq<ProjectId>, chosen: set<ProjectId>,
                                     x: ProjectId)
    requires x in quotas && Distinct(ids) && x in ids && x in chosen
    requires forall pid :: pid in ids && pid in chosen ==> pid == x
    ensures SumChosen(quotas, ids, chosen) == quotas[x].figures
  {
    DistinctTail(ids);
    var first, rest := Chosen(quotas, ids[0], chosen), SumChosen(quotas, ids[1..], chosen);
    if ids[0] == x {
      ChosenElsewhere(quotas, ids[1..], chosen);
    } else {
      ChosenOne(quotas, ids[1..], chosen, x);
    }
    SumOfTwo(first, rest, quotas[x].figures);
  }

  lemma SumOfTwo(a: Resources, b: Resources, r: Resources)
    requires (a == r && b == ZERO) || (a == ZERO && b == r)
    ensures a.Plus(b) == r
  {
  }

  lemma RevivalOverflows(db: Db, f: Feedback, c: ClusterId, x: ProjectId, y: ProjectId, now: Time, cap: Resources)
    requires Structure(db) && f.QuotaSnapshot? && f.cluster == c && db.order == [x] + [y] && x != y
    requires x in db.projects && y in db.projects && db.projects[x].cluster == c
    requires Revives(f, ViewOf(db, x)) && ViewOf(db, y).quota.updatedAt > f.at
    requires ViewOf(db, x).quota.figures == cap && Available(db, c) == cap && Allocated(db, c) == cap && cap.cpu > 0
    ensures !WithinCapacity(Handle(db, f, now).value.0, c)
    ensures Available(Handle(db, f, now).value.0, c) == Available(db, c)
  {
    RevivedFirst(db, f, c, x, y);
    SnapshotWithinExactly(db, f, now, c);
    SnapshotKeepsNodes(db, f, now);
    SameNodes(db, Handle(db, f, now).value.0, c);
    assert !cap.Plus(cap).Minus(ZERO).Within(cap);
  }

  /** Until the second project exists: a snapshot that names the first is on its way. */
  lemma BeforeRevival(c: ClusterId, a: string) returns (s: System, f: Feedback)
    requires ValidName(a)
    ensures OnlyBreaks(s, c, Revival) && Inv(s) && s.nextId == 1 && 0 in s.db.projects && s.db.order == [0]
    ensures ViewOf(s.db, 0).project == Project(a, c, ProjectStatus.Deleting)
    ensures f in s.feedback && f.QuotaSnapshot? && f.cluster == c && f.at < s.now && FirstNamed(f.allocations, a).Some?
    ensures ViewOf(s.db, 0).quota == Quota(c, Cores(10), QuotaStatus.Deleting, None, f.at)
    ensures Available(s.db, c) == Cores(10) && Allocated(s.db, c) == ZERO
    ensures forall name :: ValidName(name) && name != a ==> Free(s.db, c, name)
  {
    var s1 := OneOfTen(c, Revival, a, 10);
    ShareShown(s1, 0, c);
    var s2 := AppliedFirst(s1, c, Revival);
    var s3 := FirstWithdrawn(s2, c, Revival, a, 10);
    s := PublishedLate(s3, c, Revival);
    f := QuotaSnapshot(c, s3.now, QueueConfig.ReadBack(s3.configs[c]));
  }

  /** Revival: ten cores under deletion are taken again by a second project, and a snapshot still names the first. */
  lemma NamingSnapshotOverflows(c: ClusterId, a: string, b: string)
    requires ValidName(a) && ValidName(b) && a != b
    ensures exists s :: OnlyBreaks(s, c, Revival) && !WithinCapacity(s.db, c)
  {
    var s1, f := BeforeRevival(c, a);
    FreshId(s1);
    var s2 := SecondProject(s1, c, Revival, b, Cores(10));
    RevivalOverflows(s2.db, f, c, 0, 1, s2.now, Cores(10));
    DeliverRespects(s2, f, c, Revival);
    var s3 := DeliverNext(s2, f, c, Revival);
    assert !WithinCapacity(s3.db, c);
  }

  /** So none of the guards can be dropped: without it, some run from the empty system overflows. */
  lemma EachGuardNeeded(c: ClusterId, g: Guard, a: string, b: string)
    requires ValidName(a) && ValidName(b) && a != b
    ensures exists s :: OnlyBreaks(s, c, g) && !WithinCapacity(s.db, c)
  {
    match g
    case Sign => NegativeFiguresOverflow(c, a, b);
    case Activity => EditOfDeletingOverflows(c, a, b);
    case Revival => NamingSnapshotOverflows(c, a, b);
    case ReadyNodes => NodeLossOverflows(c, a);
  }
}
