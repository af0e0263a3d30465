/**
 * The closed loop between the tables and a cluster: when the last allocation message
 * speaks for the tables, and what one trip of it through the cluster achieves.
 */
module Convergence {
  import opened Domain
  import opened Capacity
  import opened Lifecycle
  import opened Consumer
  import opened Outbox
  import opened Protocol
  import opened Runs
  import QueueConfig

  // ----- what a cluster reads back

  function Share(db: Db, pid: ProjectId, c: ClusterId): Option<Allocation> {
    if Listed(db, pid, c) then
      Some(Allocation(db.projects[pid].name, db.quotas[pid].figures, [db.projects[pid].name]))
    else None
  }

  /** The configuration of a cluster that has applied the tables' allocation message. */
  function Applying(db: Db, c: ClusterId): seq<QueueConfig.ClusterQueue> {
    QueueConfig.Build(VendorOf(NodesOf(db, c)), Allocations(db, c))
  }

  /** The snapshot it then publishes. */
  function Echo(db: Db, c: ClusterId): seq<Allocation> {
    QueueConfig.ReadBack(Applying(db, c))
  }

  lemma AllocationOf(db: Db, pid: ProjectId, c: ClusterId) returns (i: nat)
    requires pid in db.order && Listed(db, pid, c)
    ensures i < |Allocations(db, c)| && Allocations(db, c)[i] == Share(db, pid, c).value
  {
    AllocationsMembers(db, db.order, c);
    var ps := ProjectAllocations(db, db.order, c);
    assert Share(db, pid, c).value in ps;
    i :| 0 <= i < |ps| && ps[i] == Share(db, pid, c).value;
  }

  lemma NamedByListed(db: Db, name: string, i: nat, c: ClusterId) returns (pid: ProjectId)
    requires i < |Allocations(db, c)| && Allocations(db, c)[i].name == name != CATCH_ALL
    ensures pid in db.order && Listed(db, pid, c) && db.projects[pid].name == name
  {
    AllocationsMembers(db, db.order, c);
    var ps := ProjectAllocations(db, db.order, c);
    var a := ps[i];
    assert a in ps;
    pid :| pid in db.order && Listed(db, pid, c)
           && a == Allocation(db.projects[pid].name, db.quotas[pid].figures, [db.projects[pid].name]);
  }

  /** What the published snapshot says of each project of the cluster. */
  lemma EchoNames(db: Db, pid: ProjectId, c: ClusterId)
    requires RowsMatch(db, db.order) && Distinct(db.order) && NamesDiffer(db) && pid in db.order && pid in db.projects
    requires forall x :: x in db.projects ==> ValidName(db.projects[x].name)
    ensures var v := VendorOf(NodesOf(db, c));
            FirstNamed(Echo(db, c), db.projects[pid].name)
            == if Listed(db, pid, c) then Some(QueueConfig.Survives(v, Share(db, pid, c).value)) else None
  {
    var v, all, name := VendorOf(NodesOf(db, c)), Allocations(db, c), db.projects[pid].name;
    var back, found := Echo(db, c), FirstNamed(Echo(db, c), name);
    QueueConfig.RoundTrip(v, all);
    AllocationConserves(db, c, Cpu);
    FirstNamedFound(back, name);
    if Listed(db, pid, c) {
      var i := AllocationOf(db, pid, c);
      assert back[i] in back && back[i].name == name;
      var j :| 0 <= j < |back| && back[j] == found.value;
      assert all[j].name == name;
    } else if found.Some? {
      var j :| 0 <= j < |back| && back[j] == found.value;
      var other := NamedByListed(db, name, j, c);
    }
  }

  lemma EchoReady(db: Db, s: System)
    requires Inv(s) && db == s.db
    ensures RowsMatch(db, db.order) && Distinct(db.order) && NamesDiffer(db)
    ensures forall x :: x in db.projects ==> x in db.order && ValidName(db.projects[x].name)
  {
    forall x | x in db.projects
      ensures ValidName(db.projects[x].name) && db.quotas[x].cluster == db.projects[x].cluster
    {
      assert Owned(db, x) && Sound(s, x, ViewOf(db, x));
    }
  }

  /** So it names every project that has a share. */
  lemma ShareShown(s: System, pid: ProjectId, c: ClusterId)
    requires Inv(s) && pid in s.db.projects && Listed(s.db, pid, c)
    ensures Allocations(s.db, c) != [] && FirstNamed(Echo(s.db, c), s.db.projects[pid].name).Some?
    ensures s.db.projects[pid].name in NamesIn(Echo(s.db, c))
  {
    EchoReady(s.db, s);
    EchoNames(s.db, pid, c);
    FirstNamedFound(Echo(s.db, c), s.db.projects[pid].name);
  }

  // ----- one snapshot

  /** The snapshot gives the project's share as it stands, up to GPUs without a vendor. */
  predicate Speaks(allocations: seq<Allocation>, vendor: Option<Vendor>, v: View) {
    var own := Allocation(v.project.name, v.quota.figures, [v.project.name]);
    FirstNamed(allocations, v.project.name)
    == if v.quota.status.Active() then Some(QueueConfig.Survives(vendor, own)) else None
  }

  lemma EchoVerdict(v: View, vendor: Option<Vendor>, at: Time, allocations: seq<Allocation>, now: Time)
    requires v.quota.updatedAt <= at && Speaks(allocations, vendor, v)
    ensures var q := Verdict(v.quota, v.project.name, at, allocations, now);
            && q.figures == v.quota.figures
            && q.status == if !v.quota.status.Active() then QuotaStatus.Deleted
                           else if vendor.Some? || v.quota.figures.gpu == 0 then QuotaStatus.Ready
                           else QuotaStatus.Failed
  {
  }

  /** What a project becomes when the cluster has applied the last allocation and its snapshot is handled. */
  predicate Settles(v: View, vendor: Option<Vendor>, after: Option<View>) {
    && (v.quota.status.Active() ==>
          && after.Some? && after.value.quota.figures == v.quota.figures
          && after.value.quota.status ==
               if vendor.Some? || v.quota.figures.gpu == 0 then QuotaStatus.Ready else QuotaStatus.Failed)
    && (!v.quota.status.Active() ==>
          && (after.None? <==> v.ns == NamespaceStatus.Deleted)
          && (after.Some? ==> after.value.quota.status == QuotaStatus.Deleted))
  }

  lemma EchoSettles(v: View, pid: ProjectId, vendor: Option<Vendor>, f: Feedback, now: Time)
    requires f.QuotaSnapshot? && v.project.cluster == f.cluster && v.quota.updatedAt <= f.at
    requires !v.quota.status.Active() ==> v.project.status == ProjectStatus.Deleting
    requires !v.Finished() && Speaks(f.allocations, vendor, v)
    ensures Settles(v, vendor, Outcome(f, pid, v, now))
  {
    EchoVerdict(v, vendor, f.at, f.allocations, now);
  }

  /**
   * Convergence: let any snapshot be handled, however late, that gives a project's share
   * as it stands and is no older than the last write of its quota. An active quota keeps
   * its figures and is READY when a GPU vendor is known or it asks for no GPU, and FAILED
   * otherwise; a quota under deletion is DELETED, or its project is gone, which happens
   * exactly when its namespace was already DELETED.
   */
  lemma Converges(s: System, f: Feedback, pid: ProjectId, vendor: Option<Vendor>)
    requires Inv(s) && f in s.feedback && f.QuotaSnapshot? && pid in s.db.projects
    requires s.db.projects[pid].cluster == f.cluster && ViewOf(s.db, pid).quota.updatedAt <= f.at
    requires Speaks(f.allocations, vendor, ViewOf(s.db, pid))
    ensures Inv(Step(s, Deliver(f)))
    ensures Settles(ViewOf(s.db, pid), vendor, Found(Step(s, Deliver(f)).db, pid))
  {
    var v := ViewOf(s.db, pid);
    DeliverOne(s, Step(s, Deliver(f)), pid, v, f);
    assert !v.Finished() by { assert Projects(s); }
    EchoSettles(v, pid, vendor, f, s.now);
  }

  /** A quota of the cluster that holds resources. */
  ghost predicate Holds(db: Db, c: ClusterId, pid: ProjectId)
    requires Complete(db)
  {
    pid in db.projects && db.projects[pid].cluster == c && ViewOf(db, pid).quota.status.Active()
  }

  /** Every quota that holds resources is READY afterwards, with the same figures. */
  ghost predicate AllReady(db: Db, c: ClusterId, db': Db)
    requires Complete(db) && Complete(db')
  {
    forall pid :: Holds(db, c, pid) ==>
      && pid in db'.projects && ViewOf(db', pid).quota.figures == ViewOf(db, pid).quota.figures
      && ViewOf(db', pid).quota.status == QuotaStatus.Ready
  }

  /** So the whole cluster converges exactly when a vendor was known or no quota asks for GPUs. */
  lemma ConvergesExactly(s: System, f: Feedback, vendor: Option<Vendor>)
    requires Inv(s) && f in s.feedback && f.QuotaSnapshot?
    requires forall pid :: Holds(s.db, f.cluster, pid) ==>
               ViewOf(s.db, pid).quota.updatedAt <= f.at && Speaks(f.allocations, vendor, ViewOf(s.db, pid))
    ensures Inv(Step(s, Deliver(f)))
    ensures AllReady(s.db, f.cluster, Step(s, Deliver(f)).db)
       <==> vendor.Some? || forall pid :: Holds(s.db, f.cluster, pid) ==> ViewOf(s.db, pid).quota.figures.gpu == 0
  {
    StepInv(s, Deliver(f));
    var db' := Step(s, Deliver(f)).db;
    forall pid | Holds(s.db, f.cluster, pid) ensures Settles(ViewOf(s.db, pid), vendor, Found(db', pid)) {
      Converges(s, f, pid, vendor);
    }
    AllReadyExactly(s.db, f.cluster, db', vendor);
  }

  lemma AllReadyExactly(db: Db, c: ClusterId, db': Db, vendor: Option<Vendor>)
    requires Complete(db) && Complete(db')
    requires forall pid :: Holds(db, c, pid) ==> Settles(ViewOf(db, pid), vendor, Found(db', pid))
    ensures AllReady(db, c, db')
       <==> vendor.Some? || forall pid :: Holds(db, c, pid) ==> ViewOf(db, pid).quota.figures.gpu == 0
  {
    forall pid | Holds(db, c, pid)
      ensures pid in db'.projects && ViewOf(db', pid).quota.figures == ViewOf(db, pid).quota.figures
      ensures ViewOf(db', pid).quota.status == QuotaStatus.Ready
         <==> vendor.Some? || ViewOf(db, pid).quota.figures.gpu == 0
    {
      assert Settles(ViewOf(db, pid), vendor, Found(db', pid));
    }
  }

  // ----- apply, publish and deliver, with anything in between

  /** The state in which the snapshot was published: the message was applied, then `a` happened. */
  ghost function Publishing(s: System, c: ClusterId, a: seq<Event>): (s': System)
    requires Inv(s)
    ensures Inv(s')
  {
    StepInv(s, ApplyAllocation(AllocationMessage(s.db, c)));
    Run(Step(s, ApplyAllocation(AllocationMessage(s.db, c))), a)
  }

  /** The state in which the snapshot is delivered: it was published, then `b` happened. */
  ghost function Delivering(s: System, c: ClusterId, a: seq<Event>, b: seq<Event>): (s': System)
    requires Inv(s)
    ensures Inv(s')
  {
    StepInv(Publishing(s, c, a), PublishSnapshot(c));
    Run(Step(Publishing(s, c, a), PublishSnapshot(c)), b)
  }

  /** The snapshot of a configuration still as the tables of `s` called for. */
  function Snapped(s: System, c: ClusterId, at: Time): Feedback {
    QuotaSnapshot(c, at, Echo(s.db, c))
  }

  /** Those two states are states of one run. */
  lemma ScheduleRun(s: System, c: ClusterId, a: seq<Event>, b: seq<Event>)
    requires Inv(s)
    ensures Delivering(s, c, a, b)
         == Run(s, [ApplyAllocation(AllocationMessage(s.db, c))] + a + [PublishSnapshot(c)] + b)
  {
    var m := ApplyAllocation(AllocationMessage(s.db, c));
    var p := Publishing(s, c, a);
    RunOne(s, m);
    RunAppend(s, [m], a);
    RunOne(p, PublishSnapshot(c));
    RunAppend(s, [m] + a, [PublishSnapshot(c)]);
    RunAppend(s, [m] + a + [PublishSnapshot(c)], b);
  }

  /** At publication the cluster still has the configuration it applied. */
  ghost predicate StillApplied(s: System, c: ClusterId, a: seq<Event>)
    requires Inv(s)
  {
    && c in Publishing(s, c, a).configs
    && Publishing(s, c, a).configs[c] == Applying(s.db, c)
  }

  lemma SnapshotOnItsWay(s: System, c: ClusterId, a: seq<Event>, b: seq<Event>)
    requires Inv(s) && StillApplied(s, c, a)
    ensures Extends(s, Delivering(s, c, a, b))
    ensures Snapped(s, c, Publishing(s, c, a).now) in Delivering(s, c, a, b).feedback
  {
    var p := Publishing(s, c, a);
    var p' := Step(p, PublishSnapshot(c));
    assert |Allocations(s.db, c)| > 0;
    PublishesExactly(p, c);
    StepInv(p, PublishSnapshot(c));
    RunKeepsMessages(p', b);
    ScheduleRun(s, c, a, b);
    RunExtends(s, [ApplyAllocation(AllocationMessage(s.db, c))] + a + [PublishSnapshot(c)] + b);
  }

  /**
   * Between the message and the delivery the project kept its share, and its quota was not
   * written after publication.
   */
  ghost predicate KeptShare(s: System, c: ClusterId, a: seq<Event>, b: seq<Event>, pid: ProjectId)
    requires Inv(s)
  {
    var d := Delivering(s, c, a, b);
    && pid in s.db.projects && s.db.projects[pid].cluster == c && pid in d.db.projects
    && Share(d.db, pid, c) == Share(s.db, pid, c)
    && ViewOf(d.db, pid).quota.updatedAt <= Publishing(s, c, a).now
  }

  lemma EchoSpeaks(s: System, d: System, pid: ProjectId, c: ClusterId)
    requires Inv(s) && Inv(d) && Extends(s, d) && pid in s.db.projects && s.db.projects[pid].cluster == c
    requires pid in d.db.projects && Share(d.db, pid, c) == Share(s.db, pid, c)
    ensures d.db.projects[pid].cluster == c && Speaks(Echo(s.db, c), VendorOf(NodesOf(s.db, c)), ViewOf(d.db, pid))
  {
    SameKey(s, d, pid);
    EchoReady(s.db, s);
    EchoNames(s.db, pid, c);
  }

  /**
   * End to end: the tables call for a message, the cluster applies it, anything happens,
   * it publishes, anything happens, and the snapshot is delivered. As long as the cluster
   * still had that configuration when it published, every project that kept its share, and
   * whose quota was not written since, is settled.
   */
  lemma ScheduleConverges(s: System, c: ClusterId, a: seq<Event>, b: seq<Event>, pid: ProjectId)
    requires Inv(s) && StillApplied(s, c, a) && KeptShare(s, c, a, b, pid)
    ensures var d, f := Delivering(s, c, a, b), Snapped(s, c, Publishing(s, c, a).now);
            && f in d.feedback && Inv(Step(d, Deliver(f)))
            && Settles(ViewOf(d.db, pid), VendorOf(NodesOf(s.db, c)), Found(Step(d, Deliver(f)).db, pid))
  {
    var d := Delivering(s, c, a, b);
    SnapshotOnItsWay(s, c, a, b);
    EchoSpeaks(s, d, pid, c);
    Converges(d, Snapped(s, c, Publishing(s, c, a).now), pid, VendorOf(NodesOf(s.db, c)));
  }

  /** And when all that hold resources kept theirs: exactly when a vendor was known or none asks for GPUs. */
  lemma ScheduleConvergesExactly(s: System, c: ClusterId, a: seq<Event>, b: seq<Event>)
    requires Inv(s) && StillApplied(s, c, a)
    requires forall pid :: Holds(Delivering(s, c, a, b).db, c, pid) ==> KeptShare(s, c, a, b, pid)
    ensures var d, f := Delivering(s, c, a, b), Snapped(s, c, Publishing(s, c, a).now);
            && f in d.feedback && Inv(Step(d, Deliver(f)))
            && (AllReady(d.db, c, Step(d, Deliver(f)).db)
                <==> || VendorOf(NodesOf(s.db, c)).Some?
                     || forall pid :: Holds(d.db, c, pid) ==> ViewOf(d.db, pid).quota.figures.gpu == 0)
  {
    var d, f := Delivering(s, c, a, b), Snapped(s, c, Publishing(s, c, a).now);
    SnapshotOnItsWay(s, c, a, b);
    forall pid | Holds(d.db, c, pid)
      ensures ViewOf(d.db, pid).quota.updatedAt <= f.at
           && Speaks(f.allocations, VendorOf(NodesOf(s.db, c)), ViewOf(d.db, pid))
    {
      EchoSpeaks(s, d, pid, c);
    }
    ConvergesExactly(d, f, VendorOf(NodesOf(s.db, c)));
  }

  // ----- when the last message speaks for the tables

  /** The tables' allocation message was sent, unless the cluster has neither projects nor anything to allocate. */
  ghost predicate Current(s: System, c: ClusterId) {
    || AllocationMessage(s.db, c) in s.sent
    || (AllocationMessage(s.db, c) == AllocationMessage(EMPTY_DB, c) && NoProjects(s.db, c))
  }

  ghost predicate NoProjects(db: Db, c: ClusterId) {
    forall pid :: pid in db.projects ==> db.projects[pid].cluster != c
  }

  /** The tables call for the same message, and have no new project on the cluster. */
  ghost predicate MessageStays(db: Db, db': Db, c: ClusterId) {
    AllocationMessage(db', c) == AllocationMessage(db, c) && (NoProjects(db, c) ==> NoProjects(db', c))
  }

  /** An allocation message for the cluster. */
  predicate Allocates(m: Outgoing, c: ClusterId) {
    m.Allocate? && m.cluster == c
  }

  /** The event commits a transaction that enqueues one. */
  ghost predicate Enqueues(s: System, e: Event, c: ClusterId)
    requires Structure(s.db)
  {
    exists m :: m in Enqueued(s, e) && Allocates(m, c)
  }

  /** The flush that follows gets it through. */
  ghost predicate Completes(s: System, e: Event, c: ClusterId)
    requires Structure(s.db)
  {
    exists m :: m in Flushed(Enqueued(s, e), s.limit) && Allocates(m, c)
  }

  /** An accepted snapshot that empties an active quota it does not name, or revives a quota under deletion. */
  predicate Disturbs(f: Feedback, v: View) {
    && f.QuotaSnapshot? && v.project.cluster == f.cluster && v.quota.updatedAt <= f.at
    && (v.quota.status.Active() <==> FirstNamed(f.allocations, v.project.name).None?)
    && (v.quota.status.Active() ==> v.quota.figures != ZERO)
  }

  lemma UndisturbedShare(f: Feedback, pid: ProjectId, v: View, now: Time)
    requires !Disturbs(f, v)
    ensures Ends(f, pid, v, now) ==> !v.quota.status.Active()
    ensures !Ends(f, pid, v, now) ==> var q := After(f, pid, v, now).quota;
              (q.status.Active() <==> v.quota.status.Active()) && (q.status.Active() ==> q.figures == v.quota.figures)
    ensures After(f, pid, v, now).project == v.project.(status := After(f, pid, v, now).project.status)
  {
  }

  lemma {:induction false} SameShares(db: Db, db': Db, ids: seq<ProjectId>, gone: set<ProjectId>, c: ClusterId)
    requires forall pid :: pid in ids ==> Share(db, pid, c) == if pid in gone then None else Share(db', pid, c)
    ensures ProjectAllocations(db', Without(ids, gone), c) == ProjectAllocations(db, ids, c)
  {
    if ids != [] {
      assert ids[0] in ids;
      SameShares(db, db', ids[1..], gone, c);
      if ids[0] !in gone {
        assert ([ids[0]] + Without(ids[1..], gone))[1..] == Without(ids[1..], gone);
      }
    }
  }

  lemma StructureRows(db: Db)
    requires Structure(db)
    ensures RowsMatch(db, db.order)
  {
    forall pid | pid in db.order ensures db.quotas[pid].cluster == db.projects[pid].cluster {
      assert Owned(db, pid);
    }
  }

  /** Equal shares and equal nodes make an equal message: the totals follow from the entries. */
  lemma SameMessage(db: Db, db': Db, c: ClusterId)
    requires RowsMatch(db, db.order) && RowsMatch(db', db'.order) && NodesOf(db, c) == NodesOf(db', c)
    requires ProjectAllocations(db', db'.order, c) == ProjectAllocations(db, db.order, c)
    ensures AllocationMessage(db', c) == AllocationMessage(db, c)
  {
    AllocationsSum(db, db.order, c);
    AllocationsSum(db', db'.order, c);
  }

  /** Feedback that disturbs no quota of the cluster changes the message only with its nodes, and then sends it. */
  lemma FeedbackKeepsMessage(db: Db, f: Feedback, now: Time, db': Db, c: ClusterId)
    requires Structure(db) && Effect(db, f, now, db') && NodesOf(db', c) == NodesOf(db, c)
    requires forall pid :: pid in db.projects && db.projects[pid].cluster == c ==> !Disturbs(f, ViewOf(db, pid))
    ensures AllocationMessage(db', c) == AllocationMessage(db, c)
  {
    forall pid | pid in db.order
      ensures Share(db, pid, c) == if pid in Ended(db, f, now) then None else Share(db', pid, c)
    {
      if db.projects[pid].cluster == c {
        UndisturbedShare(f, pid, ViewOf(db, pid), now);
      }
      SameProject(f, pid, ViewOf(db, pid), now);
    }
    SameShares(db, db', db.order, Ended(db, f, now), c);
    StructureRows(db);
    StructureRows(db');
    SameMessage(db, db', c);
  }

  lemma SameProject(f: Feedback, pid: ProjectId, v: View, now: Time)
    ensures After(f, pid, v, now).project == v.project.(status := After(f, pid, v, now).project.status)
  {
  }

  lemma HandleNodes(db: Db, f: Feedback, now: Time, c: ClusterId)
    requires Structure(db) && Handle(db, f, now).Ok?
    ensures var (db', out) := Handle(db, f, now).value;
            NodesOf(db', c) == NodesOf(db, c) || AllocationMessage(db', c) in out
  {
  }

  /** Nothing disturbs the shares of cluster `c`: no such snapshot, and no unchanged edit of a quota under deletion. */
  ghost predicate Undisturbed(s: System, e: Event, c: ClusterId)
    requires Structure(s.db)
  {
    match e
    case Deliver(f) =>
      f in s.feedback ==>
        forall pid :: pid in s.db.projects && s.db.projects[pid].cluster == c ==> !Disturbs(f, ViewOf(s.db, pid))
    case RequestEdit(pid, figures) =>
      pid in s.db.projects && s.db.projects[pid].cluster == c ==>
        ViewOf(s.db, pid).quota.status.Active() || figures != ViewOf(s.db, pid).quota.figures
    case _ => true
  }

  lemma NoneArrive(db: Db, f: Feedback, now: Time, db': Db, c: ClusterId)
    requires Structure(db) && Effect(db, f, now, db') && NoProjects(db, c)
    ensures NoProjects(db', c)
  {
    forall pid | pid in db'.projects ensures db'.projects[pid].cluster != c {
      assert ViewOf(db', pid) == After(f, pid, ViewOf(db, pid), now);
      SameProject(f, pid, ViewOf(db, pid), now);
    }
  }

  lemma DeliverStays(s: System, f: Feedback, c: ClusterId)
    requires Inv(s) && Undisturbed(s, Deliver(f), c) && !Enqueues(s, Deliver(f), c)
    ensures MessageStays(s.db, Step(s, Deliver(f)).db, c)
  {
    StepSends(s, Deliver(f));
    if f in s.feedback && Handle(s.db, f, s.now).Ok? {
      var (db', out) := Handle(s.db, f, s.now).value;
      HandleEffect(s.db, f, s.now);
      HandleNodes(s.db, f, s.now, c);
      FeedbackKeepsMessage(s.db, f, s.now, db', c);
      if NoProjects(s.db, c) {
        NoneArrive(s.db, f, s.now, db', c);
      }
    }
  }

  /** A project on another cluster, or one whose share is the same, leaves the message alone. */
  lemma OneShare(db: Db, db': Db, pid: ProjectId, c: ClusterId)
    requires Structure(db) && Structure(db') && db'.order == db.order && db'.nodes == db.nodes
    requires forall x :: x in db.projects && x != pid ==> x in db'.projects && ViewOf(db', x) == ViewOf(db, x)
    requires Share(db', pid, c) == Share(db, pid, c)
    ensures AllocationMessage(db', c) == AllocationMessage(db, c)
  {
    forall x | x in db.order ensures Share(db, x, c) == Share(db', x, c) {
      assert x in db'.order;
      if x != pid { assert ViewOf(db', x) == ViewOf(db, x); }
    }
    SameShares(db, db', db.order, {}, c);
    WithoutNothing(db.order);
    StructureRows(db);
    StructureRows(db');
    SameMessage(db, db', c);
  }

  lemma EditedShare(db: Db, db': Db, pid: ProjectId, q: Quota, figures: Resources, now: Time, c: ClusterId)
    requires pid in db.projects && pid in db.quotas && db.quotas[pid] == q && db'.projects == db.projects
    requires pid in db'.quotas && db'.quotas[pid] == Edited(q, figures, now)
    requires db.projects[pid].cluster != c || (figures == q.figures && q.status.Active())
    ensures Share(db', pid, c) == Share(db, pid, c)
  {
  }

  lemma EditStays(s: System, pid: ProjectId, figures: Resources, c: ClusterId)
    requires Inv(s) && Undisturbed(s, RequestEdit(pid, figures), c) && !Enqueues(s, RequestEdit(pid, figures), c)
    ensures MessageStays(s.db, Step(s, RequestEdit(pid, figures)).db, c)
  {
    StepSends(s, RequestEdit(pid, figures));
    if EditQuota(s.db, pid, figures, s.now).Ok? {
      if figures != ViewOf(s.db, pid).quota.figures {
        LoudEdit(s.db, pid, figures, s.now);
      }
      QuietEdit(s.db, pid, figures, s.now, c);
    }
  }

  lemma LoudEdit(db: Db, pid: ProjectId, figures: Resources, now: Time)
    requires Structure(db) && EditQuota(db, pid, figures, now).Ok? && figures != ViewOf(db, pid).quota.figures
    ensures var t := EditQuota(db, pid, figures, now).value; AllocationMessage(t.0, db.projects[pid].cluster) in t.1
  {
  }

  /** An edit elsewhere, or one that only marks an active quota READY, leaves the message alone. */
  lemma QuietEdit(db: Db, pid: ProjectId, figures: Resources, now: Time, c: ClusterId)
    requires Structure(db) && EditQuota(db, pid, figures, now).Ok?
    requires db.projects[pid].cluster == c ==>
               figures == ViewOf(db, pid).quota.figures && ViewOf(db, pid).quota.status.Active()
    ensures MessageStays(db, EditQuota(db, pid, figures, now).value.0, c)
  {
    var db' := EditQuota(db, pid, figures, now).value.0;
    EditViews(db, pid, figures, now);
    EditedShare(db, db', pid, ViewOf(db, pid).quota, figures, now, c);
    OneShare(db, db', pid, c);
  }

  /** The message sent with a deletion is the one the tables call for after it. */
  lemma DeletedMessage(db: Db, pid: ProjectId, now: Time, c: ClusterId)
    requires Structure(db) && DeleteProject(db, pid, now).Ok? && db.projects[pid].cluster == c
    ensures var t := DeleteProject(db, pid, now).value; AllocationMessage(t.0, c) in t.1
  {
    var t := DeleteProject(db, pid, now).value;
    var db1 := db.(quotas := t.0.quotas);
    assert t.1[0] == AllocationMessage(db1, c);
    assert Owned(db, pid);
    forall x | x in db.order ensures Share(db1, x, c) == Share(t.0, x, c) {}
    SameShares(db1, t.0, db.order, {}, c);
    WithoutNothing(db.order);
    SameQuotas(db1, t.0, c);
  }

  lemma SameQuotas(db: Db, db': Db, c: ClusterId)
    requires db.order == db'.order && db.quotas == db'.quotas && db.nodes == db'.nodes
    requires ProjectAllocations(db', db'.order, c) == ProjectAllocations(db, db.order, c)
    ensures AllocationMessage(db', c) == AllocationMessage(db, c)
  {
  }

  lemma DeleteStays(s: System, pid: ProjectId, c: ClusterId)
    requires Inv(s) && !Enqueues(s, RequestDelete(pid), c)
    ensures MessageStays(s.db, Step(s, RequestDelete(pid)).db, c)
  {
    StepSends(s, RequestDelete(pid));
    if DeleteProject(s.db, pid, s.now).Ok? {
      DeletedMessage(s.db, pid, s.now, s.db.projects[pid].cluster);
      DeletedElsewhere(s.db, pid, s.now, c);
    }
  }

  lemma DeletedElsewhere(db: Db, pid: ProjectId, now: Time, c: ClusterId)
    requires Structure(db) && DeleteProject(db, pid, now).Ok? && db.projects[pid].cluster != c
    ensures MessageStays(db, DeleteProject(db, pid, now).value.0, c)
  {
    DeleteViews(db, pid, now);
    OneShare(db, DeleteProject(db, pid, now).value.0, pid, c);
  }

  lemma {:induction false} SharesAppend(db: Db, ids: seq<ProjectId>, pid: ProjectId, c: ClusterId)
    ensures ProjectAllocations(db, ids + [pid], c)
         == ProjectAllocations(db, ids, c) + if Listed(db, pid, c) then [Share(db, pid, c).value] else []
  {
    if ids == [] {
      assert [pid][1..] == [];
    } else {
      assert (ids + [pid])[1..] == ids[1..] + [pid];
      SharesAppend(db, ids[1..], pid, c);
    }
  }

  /** A project added elsewhere. */
  lemma AddedShare(db: Db, db': Db, pid: ProjectId, c: ClusterId)
    requires Structure(db) && Structure(db') && db'.order == db.order + [pid] && db'.nodes == db.nodes
    requires pid !in db.projects && Share(db', pid, c) == None
    requires forall x :: x in db.projects ==> x in db'.projects && ViewOf(db', x) == ViewOf(db, x)
    ensures AllocationMessage(db', c) == AllocationMessage(db, c)
  {
    forall x | x in db.order ensures Share(db, x, c) == Share(db', x, c) {
      assert ViewOf(db', x) == ViewOf(db, x);
    }
    SharesAppend(db', db.order, pid, c);
    WithoutNothing(db.order);
    SameShares(db, db', db.order, {}, c);
    StructureRows(db);
    StructureRows(db');
    SameMessage(db, db', c);
  }

  lemma CreatedElsewhere(db: Db, pid: ProjectId, other: ClusterId, name: string, figures: Resources, now: Time,
                         c: ClusterId)
    requires Structure(db) && pid !in db.projects && other != c
    requires ValidName(name) && !NameTaken(db, name) && NamespaceKey(other, name) !in db.namespaces
    ensures MessageStays(db, WithProject(db, pid, other, name, figures, now), c)
  {
    CreateViews(db, pid, other, name, figures, now);
    AddedShare(db, WithProject(db, pid, other, name, figures, now), pid, c);
  }

  lemma CreateStays(s: System, e: Event, c: ClusterId)
    requires Inv(s) && e.RequestCreate? && !Enqueues(s, e, c)
    ensures MessageStays(s.db, Step(s, e).db, c)
  {
    StepSends(s, e);
    var t := CreateProject(s.db, s.nextId, e.cluster, e.healthy, e.name, e.figures, s.now);
    if t.Ok? {
      FreshId(s);
      assert t.value.1[0] in t.value.1;
      CreatedElsewhere(s.db, s.nextId, e.cluster, e.name, e.figures, s.now, c);
    }
  }

  /** An event that enqueues no allocation for the cluster and disturbs no share leaves the message alone. */
  lemma QuietKeepsMessage(s: System, e: Event, c: ClusterId)
    requires Inv(s) && Undisturbed(s, e, c) && !Enqueues(s, e, c)
    ensures MessageStays(s.db, Step(s, e).db, c)
  {
    if e.RequestCreate? {
      CreateStays(s, e, c);
    } else if e.RequestEdit? {
      EditStays(s, e.project, e.figures, c);
    } else if e.RequestDelete? {
      DeleteStays(s, e.project, c);
    } else if e.Deliver? {
      DeliverStays(s, e.f, c);
    } else {
      ClusterInv(s, e);
    }
  }

  // ----- what each message says

  lemma HandleSends(db: Db, f: Feedback, now: Time, m: Outgoing)
    requires Structure(db) && Handle(db, f, now).Ok? && m in Handle(db, f, now).value.1
    ensures m == AllocationMessage(Handle(db, f, now).value.0, m.cluster)
  {
  }

  lemma DeleteSends(db: Db, pid: ProjectId, now: Time, m: Outgoing)
    requires Structure(db) && DeleteProject(db, pid, now).Ok? && m in DeleteProject(db, pid, now).value.1 && m.Allocate?
    ensures m == AllocationMessage(DeleteProject(db, pid, now).value.0, m.cluster)
  {
    DeletedMessage(db, pid, now, db.projects[pid].cluster);
  }

  lemma CreateSends(s: System, e: Event)
    requires Structure(s.db) && e.RequestCreate? && Transaction(s, e).Ok?
    ensures var t := Transaction(s, e).value;
            t.1 == [AllocationMessage(t.0, e.cluster), Outgoing.CreateNamespace(e.cluster, e.name, s.nextId)]
  {
  }

  lemma EditSends(s: System, e: Event)
    requires Structure(s.db) && e.RequestEdit? && Transaction(s, e).Ok?
    ensures var t := Transaction(s, e).value;
            t.1 == [] || t.1 == [AllocationMessage(t.0, s.db.projects[e.project].cluster)]
  {
  }

  /** An allocation message is enqueued only together with the tables it speaks for. */
  lemma EnqueuedWithTables(s: System, e: Event, m: Outgoing)
    requires Inv(s) && m in Enqueued(s, e) && m.Allocate?
    ensures m == AllocationMessage(Step(s, e).db, m.cluster)
  {
    StepSends(s, e);
    if e.RequestCreate? {
      CreateSends(s, e);
    } else if e.RequestEdit? {
      EditSends(s, e);
    } else if e.RequestDelete? {
      DeleteSends(s.db, e.project, s.now, m);
    } else if e.Deliver? {
      HandleSends(s.db, e.f, s.now, m);
    }
  }

  /** So is each that is sent. */
  lemma SentWithTables(s: System, e: Event, m: Outgoing)
    requires Inv(s) && m !in s.sent && m in Step(s, e).sent && m.Allocate?
    ensures m == AllocationMessage(Step(s, e).db, m.cluster)
  {
    StepSends(s, e);
    EnqueuedWithTables(s, e, m);
  }

  /** A flush that gets an allocation through repairs whatever was lost before. */
  lemma SendRepairs(s: System, e: Event, c: ClusterId)
    requires Inv(s) && Completes(s, e, c)
    ensures AllocationMessage(Step(s, e).db, c) in Step(s, e).sent
  {
    var m :| m in Flushed(Enqueued(s, e), s.limit) && Allocates(m, c);
    StepSends(s, e);
    EnqueuedWithTables(s, e, m);
  }

  /** An allocation is the first message of its transaction: it is lost exactly when the broker takes nothing at all. */
  lemma CompletesExactly(s: System, e: Event, c: ClusterId)
    requires Inv(s) && Enqueues(s, e, c)
    ensures Completes(s, e, c) <==> s.limit != Some(0)
  {
    var out := Enqueued(s, e);
    FirstAllocates(s, e, c);
    if s.limit != Some(0) {
      assert Flushed(out, s.limit)[0] == out[0];
    }
  }

  lemma FirstAllocates(s: System, e: Event, c: ClusterId)
    requires Inv(s) && Enqueues(s, e, c)
    ensures Enqueued(s, e) != [] && Allocates(Enqueued(s, e)[0], c)
  {
    var m :| m in Enqueued(s, e) && Allocates(m, c);
    if e.Deliver? {
      HandledAlone(s.db, e.f, s.now, m);
    } else if e.RequestCreate? {
      CreateSends(s, e);
    } else if e.RequestEdit? {
      EditSends(s, e);
    } else {
      DeletionFirst(s, e, m);
    }
  }

  lemma DeletionFirst(s: System, e: Event, m: Outgoing)
    requires Structure(s.db) && e.RequestDelete? && Transaction(s, e).Ok? && m in Transaction(s, e).value.1
    requires m.Allocate?
    ensures Transaction(s, e).value.1 != [] && Transaction(s, e).value.1[0] == m
  {
  }

  lemma HandledAlone(db: Db, f: Feedback, now: Time, m: Outgoing)
    requires Structure(db) && Handle(db, f, now).Ok? && m in Handle(db, f, now).value.1
    ensures Handle(db, f, now).value.1 == [m]
  {
  }

  /**
   * Conservation in every run: whatever allocation message a step sends, its figures add
   * up in each dimension to the larger of what the cluster has ready and what its quotas
   * hold, its catch-all entry is not negative, and no two entries share a name.
   */
  lemma SentConserves(s: System, e: Event, m: Outgoing, d: Dimension)
    requires Inv(s) && m !in s.sent && m in Step(s, e).sent && m.Allocate?
    ensures var db' := Step(s, e).db;
            var available, held := Available(db', m.cluster).Get(d), Allocated(db', m.cluster).Get(d);
            SumAllocations(m.allocations).Get(d) == if available > held then available else held
    ensures m.allocations != [] && m.allocations[|m.allocations| - 1].name == CATCH_ALL
    ensures ZERO.Within(m.allocations[|m.allocations| - 1].figures)
    ensures forall i, j :: 0 <= i < j < |m.allocations| ==> m.allocations[i].name != m.allocations[j].name
  {
    StepInv(s, e);
    SentWithTables(s, e, m);
    EchoReady(Step(s, e).db, Step(s, e));
    AllocationConserves(Step(s, e).db, m.cluster, d);
  }

  // ----- runs whose last allocation was flushed

  /**
   * The last allocation the run enqueued for the cluster was flushed, and nothing has
   * disturbed the shares since; `current` says so of what came before the run.
   */
  ghost predicate LastFlushed(s: System, es: seq<Event>, c: ClusterId, current: bool)
    requires Inv(s)
    decreases es
  {
    if es == [] then current
    else
      StepInv(s, es[0]);
      LastFlushed(Step(s, es[0]), es[1..], c,
                  if Enqueues(s, es[0], c) then Completes(s, es[0], c) else current && Undisturbed(s, es[0], c))
  }

  lemma CurrentStep(s: System, e: Event, c: ClusterId)
    requires Inv(s) && Current(s, c) && Undisturbed(s, e, c) && !Enqueues(s, e, c)
    ensures Inv(Step(s, e)) && Current(Step(s, e), c)
  {
    StepInv(s, e);
    MessagesKept(s, e);
    QuietKeepsMessage(s, e, c);
  }

  /**
   * When the last allocation a run enqueued for the cluster was flushed, and nothing has
   * disturbed the shares since, the control plane has sent the message its tables call
   * for, whatever was lost before; unless the cluster has neither projects nor anything
   * to allocate.
   */
  lemma {:induction false} CurrentOverRuns(s: System, es: seq<Event>, c: ClusterId, current: bool)
    requires Inv(s) && (current ==> Current(s, c)) && LastFlushed(s, es, c, current)
    ensures Current(Run(s, es), c)
    decreases es
  {
    if es != [] {
      var e := es[0];
      StepInv(s, e);
      if Enqueues(s, e, c) {
        if Completes(s, e, c) { SendRepairs(s, e, c); }
        CurrentOverRuns(Step(s, e), es[1..], c, Completes(s, e, c));
      } else {
        if current && Undisturbed(s, e, c) { CurrentStep(s, e, c); }
        CurrentOverRuns(Step(s, e), es[1..], c, current && Undisturbed(s, e, c));
      }
    }
  }

  /** So it is of a run from the empty system, where nothing was to be sent. */
  ghost predicate FlushedRun(es: seq<Event>, c: ClusterId) {
    InitInv();
    LastFlushed(INIT, es, c, true)
  }

  lemma AppliedAtOnce(s: System, c: ClusterId)
    requires Inv(s) && c in s.configs && AllocationMessage(s.db, c) in s.sent
    ensures StillApplied(s, c, [])
  {
    StepInv(s, ApplyAllocation(AllocationMessage(s.db, c)));
  }

  lemma CurrentSent(s: System, c: ClusterId, pid: ProjectId)
    requires Current(s, c) && pid in s.db.projects && s.db.projects[pid].cluster == c
    ensures AllocationMessage(s.db, c) in s.sent
  {
  }

  lemma CurrentApplies(s: System, c: ClusterId, pid: ProjectId)
    requires Inv(s) && c in s.configs && Current(s, c) && pid in s.db.projects && s.db.projects[pid].cluster == c
    ensures StillApplied(s, c, [])
  {
    CurrentSent(s, c, pid);
    AppliedAtOnce(s, c);
  }

  /**
   * Together: after any run from the empty system whose last allocation for the cluster
   * was flushed, a cluster that has both a configuration and a project can apply the
   * message its tables call for.
   */
  lemma ReachableApplies(es: seq<Event>, c: ClusterId, pid: ProjectId)
    requires FlushedRun(es, c) && c in Reached(es).configs
    requires pid in Reached(es).db.projects && Reached(es).db.projects[pid].cluster == c
    ensures StillApplied(Reached(es), c, [])
  {
    InitInv();
    CurrentOverRuns(INIT, es, c, true);
    CurrentApplies(Reached(es), c, pid);
  }

  /**
   * So it does, applies it, and as long as its configuration is then left alone until it
   * publishes, every project that kept its share is settled, whatever else happens.
   */
  lemma ReachableConverges(es: seq<Event>, c: ClusterId, a: seq<Event>, b: seq<Event>, pid: ProjectId)
    requires FlushedRun(es, c) && c in Reached(es).configs && KeptShare(Reached(es), c, a, b, pid)
    requires var s := Reached(es);
             && c in Publishing(s, c, []).configs && c in Publishing(s, c, a).configs
             && Publishing(s, c, a).configs[c] == Publishing(s, c, []).configs[c]
    ensures var s := Reached(es);
            var d, f := Delivering(s, c, a, b), Snapped(s, c, Publishing(s, c, a).now);
            && f in d.feedback && Inv(Step(d, Deliver(f)))
            && Settles(ViewOf(d.db, pid), VendorOf(NodesOf(s.db, c)), Found(Step(d, Deliver(f)).db, pid))
  {
    ReachableApplies(es, c, pid);
    ScheduleConverges(Reached(es), c, a, b, pid);
  }

  // ----- which events leave a share alone

  /** No request for the project, and no message that empties, revives or ends it. */
  predicate LeavesAlone(s: System, e: Event, pid: ProjectId)
    requires Structure(s.db)
  {
    match e
    case RequestEdit(p, _) => p != pid
    case RequestDelete(p) => p != pid
    case Deliver(f) =>
      f in s.feedback && pid in s.db.projects ==>
        !Disturbs(f, ViewOf(s.db, pid)) && !Ends(f, pid, ViewOf(s.db, pid), s.now)
    case _ => true
  }

  lemma ShareMove(s: System, e: Event, pid: ProjectId, v: View)
    requires Structure(s.db) && pid in s.db.projects && ViewOf(s.db, pid) == v && LeavesAlone(s, e, pid)
    ensures !Closes(s, e, pid, v)
    ensures var w := Moved(s, e, pid, v);
            && KeyOf(w.project) == KeyOf(v.project) && (w.quota.status.Active() <==> v.quota.status.Active())
            && (v.quota.status.Active() ==> w.quota.figures == v.quota.figures)
  {
    if e.Deliver? && e.f in s.feedback {
      UndisturbedShare(e.f, pid, v, s.now);
      SameProject(e.f, pid, v, s.now);
    }
  }

  lemma ShareStep(s: System, e: Event, c: ClusterId, pid: ProjectId)
    requires Inv(s) && pid in s.db.projects && LeavesAlone(s, e, pid)
    ensures Inv(Step(s, e)) && pid in Step(s, e).db.projects
    ensures Share(Step(s, e).db, pid, c) == Share(s.db, pid, c)
  {
    StepOne(s, e, pid, ViewOf(s.db, pid));
    ShareMove(s, e, pid, ViewOf(s.db, pid));
    SameShare(s.db, Step(s, e).db, c, pid);
  }

  lemma SameShare(db: Db, db': Db, c: ClusterId, pid: ProjectId)
    requires Complete(db) && Complete(db') && pid in db.projects && pid in db'.projects
    requires var v, w := ViewOf(db, pid), ViewOf(db', pid);
             && KeyOf(w.project) == KeyOf(v.project) && (w.quota.status.Active() <==> v.quota.status.Active())
             && (v.quota.status.Active() ==> w.quota.figures == v.quota.figures)
    ensures Share(db', pid, c) == Share(db, pid, c)
  {
  }

  ghost predicate LeftAlone(s: System, es: seq<Event>, pid: ProjectId)
    requires Inv(s)
    decreases es
  {
    es == [] || (
      StepInv(s, es[0]);
      LeavesAlone(s, es[0], pid) && LeftAlone(Step(s, es[0]), es[1..], pid))
  }

  /** A run that leaves a project alone keeps it, and keeps its share. */
  lemma {:induction false} LeftAloneKeepsShare(s: System, es: seq<Event>, c: ClusterId, pid: ProjectId)
    requires Inv(s) && pid in s.db.projects && LeftAlone(s, es, pid)
    ensures pid in Run(s, es).db.projects && Share(Run(s, es).db, pid, c) == Share(s.db, pid, c)
    decreases es
  {
    if es != [] {
      ShareStep(s, es[0], c, pid);
      LeftAloneKeepsShare(Step(s, es[0]), es[1..], c, pid);
    }
  }
}
