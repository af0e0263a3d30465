/** What can go wrong with a deletion, shown to happen in runs from the empty system. */
module Races {
  import opened Domain
  import opened Capacity
  import opened Lifecycle
  import opened Consumer
  import opened Protocol
  import opened Runs
  import opened Removal
  import opened AgentRemoval
  import opened Convergence
  import QueueConfig

  ghost predicate Reachable(s: System) {
    exists es :: Reached(es) == s
  }

  lemma ReachStep(s: System, e: Event)
    requires Reachable(s)
    ensures Inv(s) && Inv(Step(s, e)) && Reachable(Step(s, e))
  {
    var es :| Reached(es) == s;
    ReachedNext(es, s, e);
  }

  /** The first project of an empty control plane is accepted with an empty quota. */
  lemma FirstAccepted(db: Db, c: ClusterId, name: string, now: Time)
    requires ValidName(name) && db.order == [] && db.projects == map[] && db.namespaces == map[] && db.nodes == map[]
    ensures var t := CreateProject(db, 0, c, true, name, ZERO, now);
            && t.Ok? && t.value.0 == WithProject(db, 0, c, name, ZERO, now)
            && t.value.1 == [AllocationMessage(t.value.0, c), Outgoing.CreateNamespace(c, name, 0)]
  {
    assert Prospective(Allocated(db, c), None, ZERO).Within(Available(db, c)) by {
      EmptyTotals(db, c);
    }
    assert LiveProjects(db, db.order, c) == 0;
  }

  lemma EmptyTotals(db: Db, c: ClusterId)
    requires db.order == [] && db.nodes == map[]
    ensures Prospective(Allocated(db, c), None, ZERO).Within(Available(db, c))
  {
    NothingAllocated(db, c);
    NothingFits(Allocated(db, c), Available(db, c));
  }

  lemma NothingAllocated(db: Db, c: ClusterId)
    requires db.order == [] && db.nodes == map[]
    ensures Allocated(db, c) == ZERO && Available(db, c) == ZERO
  {
  }

  lemma NothingFits(a: Resources, b: Resources)
    requires a == ZERO && b == ZERO
    ensures Prospective(a, None, ZERO).Within(b)
  {
  }

  lemma FirstProject(s: System, c: ClusterId, name: string) returns (s': System)
    requires Reachable(s) && s.db == EMPTY_DB && s.nextId == 0 && s.limit.None? && ValidName(name)
    ensures Reachable(s') && Inv(s') && SameClusters(s, s')
    ensures s'.db == WithProject(EMPTY_DB, 0, c, name, ZERO, s.now) && 0 in s'.db.projects
    ensures ViewOf(s'.db, 0) == NewView(RequestCreate(c, true, name, ZERO), s.now)
    ensures AllocationMessage(s'.db, c) in s'.sent && Outgoing.CreateNamespace(c, name, 0) in s'.sent
  {
    var e := RequestCreate(c, true, name, ZERO);
    ReachStep(s, e);
    FirstAccepted(s.db, c, name, s.now);
    CreateViews(EMPTY_DB, 0, c, name, ZERO, s.now);
    s' := Step(s, e);
    TablesKeepCluster(s, e);
    FirstSent(s, c, name);
  }

  lemma FirstSent(s: System, c: ClusterId, name: string)
    requires Inv(s) && s.db == EMPTY_DB && s.nextId == 0 && s.limit.None? && ValidName(name)
    ensures var s' := Step(s, RequestCreate(c, true, name, ZERO));
            && s'.db == WithProject(EMPTY_DB, 0, c, name, ZERO, s.now)
            && AllocationMessage(s'.db, c) in s'.sent && Outgoing.CreateNamespace(c, name, 0) in s'.sent
  {
    var e := RequestCreate(c, true, name, ZERO);
    FirstAccepted(s.db, c, name, s.now);
    StepSends(s, e);
    var out := Enqueued(s, e);
    assert out[0] in out && out[1] in out;
    NothingLost(s, e, out[0]);
    NothingLost(s, e, out[1]);
  }

  /** Deletion is requested for a project that is not under deletion. */
  lemma RequestDeletion(s: System, pid: ProjectId) returns (s': System)
    requires Reachable(s) && Inv(s) && DeleteProject(s.db, pid, s.now).Ok?
    ensures s' == Step(s, RequestDelete(pid)) && Reachable(s') && Inv(s') && SameClusters(s, s')
    ensures pid in s'.db.projects && pid in s'.marks && s'.marks[pid] == s.now
    ensures var v := ViewOf(s.db, pid);
            ViewOf(s'.db, pid) == View(v.project.(status := ProjectStatus.Deleting),
                                       Restated(v.quota, QuotaStatus.Deleting, None, s.now),
                                       NamespaceStatus.Terminating)
  {
    ReachStep(s, RequestDelete(pid));
    s' := Step(s, RequestDelete(pid));
    TablesKeepCluster(s, RequestDelete(pid));
    DeleteStep(s, pid);
    DeleteViews(s.db, pid, s.now);
  }

  /** A step in a cluster leaves the tables alone. */
  lemma InCluster(s: System, e: Event) returns (s': System)
    requires Reachable(s) && Inv(s) && !e.OnTables()
    ensures s' == ClusterStep(s, e) && Reachable(s') && Inv(s') && s'.db == s.db
  {
    ReachStep(s, e);
    ClusterInv(s, e);
    s' := ClusterStep(s, e);
  }

  /** Someone gives a cluster an empty configuration. */
  lemma Configured(s: System, c: ClusterId) returns (s': System)
    requires Reachable(s) && Inv(s)
    ensures Reachable(s') && Inv(s') && s' == Configure(s, c, [])
  {
    s' := InCluster(s, OutsideConfig(c, []));
  }

  /** The cluster applies an allocation that was sent. */
  lemma Applied(s: System, m: Outgoing) returns (s': System)
    requires Reachable(s) && Inv(s) && m in s.sent && m.Allocate? && m.cluster in s.configs
    ensures Reachable(s') && Inv(s') && s' == Configure(s, m.cluster, QueueConfig.Build(m.vendor, m.allocations))
  {
    s' := InCluster(s, ApplyAllocation(m));
  }

  /** The project exists, and the cluster has applied its allocation. */
  lemma WithShare(c: ClusterId, name: string) returns (s: System)
    requires ValidName(name)
    ensures Reachable(s) && Inv(s) && DeleteProject(s.db, 0, s.now).Ok?
    ensures ViewOf(s.db, 0) == NewView(RequestCreate(c, true, name, ZERO), s.now)
    ensures c in s.configs && s.configs[c] == Applying(s.db, c)
    ensures s.configs[c] != [] && name in NamesIn(QueueConfig.ReadBack(s.configs[c]))
  {
    assert Reached([]) == INIT;
    var s1 := FirstProject(INIT, c, name);
    var s2 := Configured(s1, c);
    s := Applied(s2, AllocationMessage(s2.db, c));
    ShareShown(s, 0, c);
  }

  /** Deletion was requested, and the cluster publishes what it still has applied. */
  lemma BeforeTrap(c: ClusterId, name: string) returns (s: System, f: Feedback)
    requires ValidName(name)
    ensures Reachable(s) && Inv(s) && f in s.feedback && f.QuotaSnapshot? && f.cluster == c && 0 in s.db.projects
    ensures name in NamesIn(f.allocations)
    ensures var v := ViewOf(s.db, 0);
            && v.project == Project(name, c, ProjectStatus.Deleting)
            && !v.quota.status.Active() && v.quota.updatedAt < f.at
  {
    var s1 := WithShare(c, name);
    var s2 := RequestDeletion(s1, 0);
    s, f := Published(s2, c);
  }

  /** Some time passes and the cluster publishes its configuration. */
  lemma Published(s: System, c: ClusterId) returns (s': System, f: Feedback)
    requires Reachable(s) && Inv(s) && c in s.configs && s.configs[c] != []
    ensures Reachable(s') && Inv(s') && s'.db == s.db && f in s'.feedback
    ensures f == QuotaSnapshot(c, s.now + 1, QueueConfig.ReadBack(s.configs[c]))
  {
    var later := InCluster(s, Tick);
    s' := InCluster(later, PublishSnapshot(c));
    SnapshotNow(later, c);
    f := QuotaSnapshot(c, s.now + 1, QueueConfig.ReadBack(s.configs[c]));
  }

  /**
   * The trap happens: the cluster applies the allocation, deletion is requested, and the
   * agent publishes its still unchanged configuration before it applies the new one.
   * From then on no run removes the project.
   */
  lemma TrapReachable(c: ClusterId, name: string)
    requires ValidName(name)
    ensures exists s :: Reachable(s) && Inv(s) && Trapped(s, 0) && forall es :: 0 in Run(s, es).db.projects
  {
    var s, f := BeforeTrap(c, name);
    NamingSnapshotTraps(s, 0, f);
    ReachStep(s, Deliver(f));
    var s' := Step(s, Deliver(f));
    forall es ensures 0 in Run(s', es).db.projects {
      TrappedForever(s', es, 0);
    }
  }

  // ----- a stale absence

  /** A namespace of that name was there, has left, and was reported gone. */
  lemma OldAbsence(key: NamespaceKey) returns (s: System)
    ensures Reachable(s) && Inv(s) && s.db == EMPTY_DB && s.nextId == 0 && s.limit.None?
    ensures key !in s.live && NamespaceGone(key.cluster, key.name) in s.feedback
  {
    InitInv();
    var es := PublishAbsence(INIT, key);
    s := Reached(es);
  }

  /** A project under deletion whose namespace is alive, and a notice older than all of it. */
  lemma BeforeStaleNotice(c: ClusterId, name: string) returns (s: System)
    requires ValidName(name)
    ensures Reachable(s) && Inv(s) && NamespaceGone(c, name) in s.feedback
    ensures 0 in s.db.projects && s.db.projects[0] == Project(name, c, ProjectStatus.Deleting)
    ensures !ViewOf(s.db, 0).quota.status.Active() && Alive(s, NamespaceKey(c, name), 0)
  {
    var s1 := OldAbsence(NamespaceKey(c, name));
    var s2 := FirstProject(s1, c, name);
    var s3 := MadeLive(s2, NamespaceKey(c, name), 0);
    s := RequestDeletion(s3, 0);
  }

  /** The agent creates the namespace of a project. */
  lemma MadeLive(s: System, key: NamespaceKey, pid: ProjectId) returns (s': System)
    requires Reachable(s) && Inv(s) && Creation(key, pid) in s.sent && key !in s.live
    ensures Reachable(s') && Inv(s')
    ensures s' == s.(live := s.live[key := ClusterNamespace(Some(pid), "Active", false, false)])
  {
    Made(s, key, pid);
    s' := InCluster(s, MakeNamespace(Creation(key, pid), true));
  }

  /**
   * Namespace notices carry no timestamp: a notice published before the project was even
   * created lets a run remove the project while its namespace stays alive and labelled
   * with it throughout.
   */
  lemma StaleAbsenceReleases(c: ClusterId, name: string)
    requires ValidName(name)
    ensures exists s, es ::
              && Reachable(s) && Inv(s) && 0 in s.db.projects
              && StaysAlive(s, es, NamespaceKey(c, name), 0) && 0 !in Run(s, es).db.projects
  {
    var s := BeforeStaleNotice(c, name);
    RemovableWhileAliveExactly(s, 0);
    var es :| StaysAlive(s, es, NamespaceKey(c, name), 0) && 0 !in Run(s, es).db.projects;
  }

  // ----- a lost flush

  /** The project and its namespace are there, and the cluster has a configuration. */
  lemma BeforeLoss(c: ClusterId, name: string) returns (s: System)
    requires ValidName(name)
    ensures Reachable(s) && Inv(s) && 0 in s.db.projects
    ensures ViewOf(s.db, 0) == NewView(RequestCreate(c, true, name, ZERO), s.now)
    ensures c in s.configs && Untouched(s, NamespaceKey(c, name), 0)
  {
    assert Reached([]) == INIT;
    var s1 := FirstProject(INIT, c, name);
    var s2 := MadeLive(s1, NamespaceKey(c, name), 0);
    s := Configured(s2, c);
    QuietSoFar(s1, s2, s, NamespaceKey(c, name), 0, c);
  }

  lemma QuietSoFar(s1: System, s2: System, s: System, key: NamespaceKey, pid: ProjectId, c: ClusterId)
    requires s1.feedback == {} && key !in s1.left
    requires s2 == s1.(live := s1.live[key := ClusterNamespace(Some(pid), "Active", false, false)])
    requires s == Configure(s2, c, [])
    ensures s.db == s1.db && c in s.configs && Untouched(s, key, pid)
  {
  }

  /** From here on the broker takes only so much of each flush. */
  lemma BrokerLimited(s: System, limit: nat) returns (s': System)
    requires Reachable(s) && Inv(s)
    ensures Reachable(s') && Inv(s') && s' == s.(limit := Some(limit))
  {
    s' := InCluster(s, Broker(Some(limit)));
  }

  /**
   * A broker that fails while the orders of a deletion are flushed, before it took both,
   * strands the project: its deletion is accepted and its quota is in deletion, and yet
   * nothing the agents do by themselves removes it, even when the broker recovers.
   */
  lemma LostFlushStrands(c: ClusterId, name: string, limit: nat)
    requires ValidName(name) && limit < 2
    ensures exists s :: Reachable(s) && Lost(s, 0, limit)
  {
    var s1 := BeforeLoss(c, name);
    var s2 := BrokerLimited(s1, limit);
    var s3 := RequestDeletion(s2, 0);
    LostOrdersStrand(s2, s3, 0, limit);
  }
}
