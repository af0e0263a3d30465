/**
 * The exact condition under which the agents' own steps remove a project: nobody else
 * acts in the clusters, no request arrives and no node is reported, while the broker may
 * fail and recover.
 */
module AgentRemoval {
  import opened Domain
  import opened Capacity
  import opened Lifecycle
  import opened Consumer
  import opened Outbox
  import opened Protocol
  import opened Runs
  import opened Removal
  import QueueConfig

  // ----- what can still confirm the quota's deletion

  /** The snapshot is accepted for the project and does not name it. */
  predicate Confirms(f: Feedback, v: View) {
    && f.QuotaSnapshot? && f.cluster == v.project.cluster && v.quota.updatedAt <= f.at
    && FirstNamed(f.allocations, v.project.name).None?
  }

  /** A configuration that is reported, and does not name the quota. */
  predicate Omits(queues: seq<QueueConfig.ClusterQueue>, name: string) {
    queues != [] && FirstNamed(QueueConfig.ReadBack(queues), name).None?
  }

  /** The cluster has such a configuration, or a lagging cache may still show one it had. */
  ghost predicate MayOmit(s: System, c: ClusterId, name: string) {
    (c in s.configs && Omits(s.configs[c], name)) || exists queues :: (c, queues) in s.had && Omits(queues, name)
  }

  /** A node message that would change the rows of its cluster, and so send its allocations again. */
  predicate News(db: Db, f: Feedback)
    requires Structure(db)
  {
    && (f.NodeList? || f.NodeUpdate? || f.NodeDelete?)
    && Handle(db, f, 0).Ok? && Handle(db, f, 0).value.1 != []
  }

  ghost predicate NewsComing(s: System, c: ClusterId)
    requires Structure(s.db)
  {
    exists f :: f in s.feedback && f.cluster == c && News(s.db, f)
  }

  ghost predicate Dismissal(s: System, p: Project) {
    exists m :: m in s.sent && Dismisses(m, p)
  }

  ghost predicate Pending(s: System, v: View) {
    exists f :: f in s.feedback && Confirms(f, v)
  }

  /**
   * Something can still confirm the quota: it is DELETED; or a snapshot that does so is on
   * the way; or the cluster may publish one; or it has a configuration to replace, and an
   * allocation without the project was sent, or will be sent when pending node news are
   * handled.
   */
  ghost predicate Confirmable(s: System, v: View)
    requires Structure(s.db)
  {
    var c := v.project.cluster;
    || v.quota.status == QuotaStatus.Deleted || Pending(s, v) || MayOmit(s, c, v.project.name)
    || (c in s.configs && (Dismissal(s, v.project) || NewsComing(s, c)))
  }

  ghost predicate QuotaSide(s: System, pid: ProjectId)
    requires Structure(s.db) && pid in s.db.projects
  {
    Confirmable(s, ViewOf(s.db, pid))
  }

  lemma PendingConfirms(s: System, pid: ProjectId, f: Feedback) returns (es: seq<Event>)
    requires Inv(s) && Deletable(s, pid) && f in s.feedback && Confirms(f, ViewOf(s.db, pid))
    ensures AllOrdinary(es) && QuotaConfirmed(s, Run(s, es), pid)
  {
    RunOne(s, Deliver(f));
    DeliverSnapshot(s, Step(s, Deliver(f)), pid, ViewOf(s.db, pid), f);
    es := [Deliver(f)];
  }

  /** One step before it that leaves the project and its namespace alone. */
  lemma ConfirmedAfter(s: System, e: Event, rest: seq<Event>, pid: ProjectId)
    requires Inv(s) && Inv(Step(s, e)) && Ordinary(e) && AllOrdinary(rest) && Deletable(s, pid)
    requires var mid := Step(s, e);
             && Deletable(mid, pid) && ViewOf(mid.db, pid) == ViewOf(s.db, pid)
             && mid.live == s.live && mid.left == s.left && QuotaConfirmed(mid, Run(mid, rest), pid)
    ensures AllOrdinary([e] + rest) && QuotaConfirmed(s, Run(s, [e] + rest), pid)
  {
    MessagesKept(s, e);
    assert ([e] + rest)[1..] == rest;
  }

  lemma PublishedShown(s: System, c: ClusterId, queues: seq<QueueConfig.ClusterQueue>, e: Event)
    requires Inv(s) && queues != []
    requires (e == PublishSnapshot(c) && c in s.configs && s.configs[c] == queues)
          || (e == PublishLate(c, queues) && (c, queues) in s.had)
    ensures Inv(Step(s, e)) && Step(s, e).db == s.db && Step(s, e).live == s.live && Step(s, e).left == s.left
    ensures QuotaSnapshot(c, s.now, QueueConfig.ReadBack(queues)) in Step(s, e).feedback
  {
    StepInv(s, e);
  }

  /** A configuration that omits the quota, published now or late. */
  lemma ShownConfirms(s: System, pid: ProjectId, queues: seq<QueueConfig.ClusterQueue>, e: Event)
    returns (es: seq<Event>)
    requires Inv(s) && Deletable(s, pid) && Omits(queues, s.db.projects[pid].name)
    requires var c := s.db.projects[pid].cluster;
             || (e == PublishSnapshot(c) && c in s.configs && s.configs[c] == queues)
             || (e == PublishLate(c, queues) && (c, queues) in s.had)
    ensures AllOrdinary(es) && QuotaConfirmed(s, Run(s, es), pid)
  {
    var c := s.db.projects[pid].cluster;
    PublishedShown(s, c, queues, e);
    assert Sound(s, pid, ViewOf(s.db, pid));
    var rest := PendingConfirms(Step(s, e), pid, QuotaSnapshot(c, s.now, QueueConfig.ReadBack(queues)));
    ConfirmedAfter(s, e, rest, pid);
    es := [e] + rest;
  }

  lemma MayOmitConfirms(s: System, pid: ProjectId) returns (es: seq<Event>)
    requires Inv(s) && Deletable(s, pid) && MayOmit(s, s.db.projects[pid].cluster, s.db.projects[pid].name)
    ensures AllOrdinary(es) && QuotaConfirmed(s, Run(s, es), pid)
  {
    var c, name := s.db.projects[pid].cluster, s.db.projects[pid].name;
    if c in s.configs && Omits(s.configs[c], name) {
      es := ShownConfirms(s, pid, s.configs[c], PublishSnapshot(c));
    } else {
      var queues :| (c, queues) in s.had && Omits(queues, name);
      es := ShownConfirms(s, pid, queues, PublishLate(c, queues));
    }
  }

  /** Node messages do not depend on the time at which they are handled. */
  lemma NewsAnyTime(db: Db, f: Feedback, now: Time)
    requires Structure(db) && (f.NodeList? || f.NodeUpdate? || f.NodeDelete?)
    ensures Handle(db, f, now) == Handle(db, f, 0)
  {
  }

  lemma NewsSends(db: Db, f: Feedback)
    requires Structure(db) && News(db, f)
    ensures Handle(db, f, 0).value.1 == [AllocationMessage(Handle(db, f, 0).value.0, f.cluster)]
  {
  }

  /** Handling node news sends an allocation without the project, and leaves the project alone. */
  lemma NewsDismisses(s: System, pid: ProjectId, f: Feedback)
    requires Inv(s) && Deletable(s, pid) && f in s.feedback && News(s.db, f) && s.limit.None?
    requires f.cluster == s.db.projects[pid].cluster
    ensures var s' := Step(s, Deliver(f));
            && Inv(s') && Deletable(s', pid) && ViewOf(s'.db, pid) == ViewOf(s.db, pid)
            && Dismissal(s', s'.db.projects[pid])
  {
    var v, s' := ViewOf(s.db, pid), Step(s, Deliver(f));
    DeliverOne(s, s', pid, v, f);
    BystanderView(f, pid, v, s.now);
    NewsSent(s, f);
    InactiveUnnamed(s'.db, pid);
  }

  lemma NewsSent(s: System, f: Feedback)
    requires Structure(s.db) && f in s.feedback && News(s.db, f) && s.limit.None?
    ensures AllocationMessage(Step(s, Deliver(f)).db, f.cluster) in Step(s, Deliver(f)).sent
  {
    NewsAnyTime(s.db, f, s.now);
    NewsSends(s.db, f);
    StepSends(s, Deliver(f));
    var m := AllocationMessage(Step(s, Deliver(f)).db, f.cluster);
    assert Enqueued(s, Deliver(f)) == [m];
    NothingLost(s, Deliver(f), m);
  }

  lemma NewsConfirmsNow(s: System, pid: ProjectId) returns (es: seq<Event>)
    requires Inv(s) && Deletable(s, pid) && s.limit.None?
    requires s.db.projects[pid].cluster in s.configs && NewsComing(s, s.db.projects[pid].cluster)
    ensures AllOrdinary(es) && QuotaConfirmed(s, Run(s, es), pid)
  {
    var f :| f in s.feedback && f.cluster == s.db.projects[pid].cluster && News(s.db, f);
    NewsDismisses(s, pid, f);
    TablesKeepCluster(s, Deliver(f));
    var s1 := Step(s, Deliver(f));
    var m :| m in s1.sent && Dismisses(m, s1.db.projects[pid]);
    var rest := AgentConfirmsQuota(s1, pid, m);
    ConfirmedAfter(s, Deliver(f), rest, pid);
    es := [Deliver(f)] + rest;
  }

  /** The broker recovers first. */
  lemma NewsConfirms(s: System, pid: ProjectId) returns (es: seq<Event>)
    requires Inv(s) && Deletable(s, pid)
    requires s.db.projects[pid].cluster in s.configs && NewsComing(s, s.db.projects[pid].cluster)
    ensures AllOrdinary(es) && QuotaConfirmed(s, Run(s, es), pid)
  {
    var s1 := Recovered(s, pid);
    var rest := NewsConfirmsNow(s1, pid);
    ConfirmedAfter(s, Broker(None), rest, pid);
    es := [Broker(None)] + rest;
  }

  lemma Recovered(s: System, pid: ProjectId) returns (s': System)
    requires Inv(s) && Deletable(s, pid)
    ensures s' == Step(s, Broker(None)) && s' == s.(limit := None) && Inv(s') && Deletable(s', pid)
    ensures ViewOf(s'.db, pid) == ViewOf(s.db, pid)
    ensures NewsComing(s, s.db.projects[pid].cluster) ==> NewsComing(s', s.db.projects[pid].cluster)
  {
    s' := s.(limit := None);
    QuietStep(s, s');
  }

  /** Whatever can still confirm the quota does so by the agents' own steps. */
  lemma SideConfirmsQuota(s: System, pid: ProjectId) returns (es: seq<Event>)
    requires Inv(s) && Deletable(s, pid) && QuotaSide(s, pid)
    ensures AllOrdinary(es) && QuotaConfirmed(s, Run(s, es), pid)
  {
    var v := ViewOf(s.db, pid);
    if v.quota.status == QuotaStatus.Deleted {
      es := [];
      assert !v.Finished() by { assert Projects(s); }
    } else if Pending(s, v) {
      var f :| f in s.feedback && Confirms(f, v);
      es := PendingConfirms(s, pid, f);
    } else if MayOmit(s, v.project.cluster, v.project.name) {
      es := MayOmitConfirms(s, pid);
    } else if Dismissal(s, v.project) {
      var m :| m in s.sent && Dismisses(m, v.project);
      es := AgentConfirmsQuota(s, pid, m);
    } else {
      es := NewsConfirms(s, pid);
    }
  }

  // ----- what can still confirm that the namespace is gone

  function Order(key: NamespaceKey, q: ProjectId): Outgoing {
    Outgoing.DeleteNamespace(key.cluster, key.name, q)
  }

  function Creation(key: NamespaceKey, q: ProjectId): Outgoing {
    Outgoing.CreateNamespace(key.cluster, key.name, q)
  }

  /** An order is out for whatever project the namespace is labelled with. */
  ghost predicate Doomed(s: System, key: NamespaceKey) {
    exists q :: Alive(s, key, q) && Order(key, q) in s.sent
  }

  /** The namespace is not there, and both its creation and its deletion for some project are out. */
  ghost predicate DoomedLater(s: System, key: NamespaceKey) {
    key !in s.live && exists q :: Creation(key, q) in s.sent && Order(key, q) in s.sent
  }

  /** Something in the cluster or on the way can still report that the namespace is gone. */
  ghost predicate CanReport(s: System, key: NamespaceKey, pid: ProjectId) {
    || Noticed(s, key, pid) || key in s.left || (key in s.live && s.live[key].terminating)
    || Order(key, pid) in s.sent || Doomed(s, key) || DoomedLater(s, key)
  }

  ghost predicate NamespaceSide(s: System, pid: ProjectId)
    requires Structure(s.db) && pid in s.db.projects
  {
    ViewOf(s.db, pid).ns == NamespaceStatus.Deleted || CanReport(s, KeyOf(s.db.projects[pid]), pid)
  }

  lemma NoticeOfMake(s: System, pid: ProjectId, key: NamespaceKey) returns (es: seq<Event>, f: Feedback)
    requires Inv(s) && DoomedLater(s, key)
    ensures EndsInNotice(s, es, key, pid, f)
  {
    var q :| Creation(key, q) in s.sent && Order(key, q) in s.sent;
    var e := MakeNamespace(Creation(key, q), true);
    StepInv(s, e);
    Made(s, key, q);
    var rest;
    rest, f := NoticeOfDrop(Step(s, e), pid, q, Order(key, q), key);
    NoticeAfter(s, e, rest, key, pid, f);
    es := [e] + rest;
  }

  lemma Made(s: System, key: NamespaceKey, q: ProjectId)
    requires Inv(s) && key !in s.live && Creation(key, q) in s.sent
    ensures var s' := Step(s, MakeNamespace(Creation(key, q), true));
            s' == s.(live := s.live[key := ClusterNamespace(Some(q), "Active", false, false)])
  {
    assert NamespaceKey(key.cluster, key.name) == key;
  }

  lemma ReportComes(s: System, pid: ProjectId, key: NamespaceKey) returns (es: seq<Event>, f: Feedback)
    requires Inv(s) && CanReport(s, key, pid)
    ensures EndsInNotice(s, es, key, pid, f)
  {
    if Noticed(s, key, pid) {
      f := PendingNotice(s, s, pid, key);
      NoticeNow(s, key, pid, f);
      es := [];
    } else if key in s.left {
      es, f := NoticeOfLeft(s, pid, key);
    } else if key in s.live && s.live[key].terminating {
      es, f := NoticeOfTerminating(s, pid, key);
    } else if Doomed(s, key) {
      var q :| Alive(s, key, q) && Order(key, q) in s.sent;
      es, f := NoticeOfDrop(s, pid, q, Order(key, q), key);
    } else if DoomedLater(s, key) {
      es, f := NoticeOfMake(s, pid, key);
    } else {
      es, f := NoticeAtOnce(s, pid, Order(key, pid), key);
    }
  }

  /** Whatever can still confirm that the namespace is gone ends a project whose quota is deleted. */
  lemma SideConfirmsNamespace(s: System, pid: ProjectId) returns (es: seq<Event>)
    requires Inv(s) && Deletable(s, pid) && ViewOf(s.db, pid).quota.status == QuotaStatus.Deleted
    requires CanReport(s, KeyOf(s.db.projects[pid]), pid)
    ensures AllOrdinary(es) && pid !in Run(s, es).db.projects
  {
    var key := KeyOf(s.db.projects[pid]);
    var first, f := ReportComes(s, pid, key);
    DeliverAtEnd(s, first, pid, key, f);
    es := first + [Deliver(f)];
  }

  lemma ReportStaysPossible(s: System, s': System, key: NamespaceKey, pid: ProjectId)
    requires CanReport(s, key, pid) && s'.live == s.live && s'.left == s.left
    requires s.sent <= s'.sent && s.feedback <= s'.feedback
    ensures CanReport(s', key, pid)
  {
    if Doomed(s, key) {
      var q :| Alive(s, key, q) && Order(key, q) in s.sent;
      assert Alive(s', key, q) && Order(key, q) in s'.sent;
    } else if DoomedLater(s, key) {
      var q :| Creation(key, q) in s.sent && Order(key, q) in s.sent;
      assert Creation(key, q) in s'.sent && Order(key, q) in s'.sent;
    }
  }

  lemma BothSidesRemove(s: System, pid: ProjectId) returns (es: seq<Event>)
    requires Inv(s) && Deletable(s, pid) && QuotaSide(s, pid) && NamespaceSide(s, pid)
    ensures AllOrdinary(es) && pid !in Run(s, es).db.projects
  {
    es := SideConfirmsQuota(s, pid);
    var s1 := Run(s, es);
    if pid in s1.db.projects {
      ReportStaysPossible(s, s1, KeyOf(s.db.projects[pid]), pid);
      var rest := SideConfirmsNamespace(s1, pid);
      RunAppend(s, es, rest);
      es := es + rest;
    }
  }

  // ----- when nothing can confirm the quota, nothing ever will

  /** The quota left deletion for good, or nothing can confirm its deletion. */
  ghost predicate QuotaStuck(s: System, pid: ProjectId)
    requires Structure(s.db)
  {
    && pid in s.db.projects && s.db.projects[pid].status == ProjectStatus.Deleting
    && (ViewOf(s.db, pid).quota.status.Active() || !QuotaSide(s, pid))
  }

  lemma NotConfirmed(f: Feedback, pid: ProjectId, v: View, now: Time)
    requires v.project.status == ProjectStatus.Deleting && v.quota.status == QuotaStatus.Deleting && !Confirms(f, v)
    ensures !Ends(f, pid, v, now)
    ensures After(f, pid, v, now).quota == v.quota || After(f, pid, v, now).quota.status.Active()
  {
  }

  /** What an ordinary step publishes: reports on namespaces, and snapshots. */
  lemma NewFeedback(s: System, e: Event, f: Feedback)
    requires Structure(s.db) && Ordinary(e) && f in Step(s, e).feedback && f !in s.feedback
    ensures OnNamespace(f) || f.QuotaSnapshot?
    ensures f.QuotaSnapshot? ==> e.PublishSnapshot? || e.PublishLate?
  {
    if e.OnTables() {
      TablesKeepCluster(s, e);
    } else if e.DropNamespace? && e.order in s.sent && e.order.DeleteNamespace? {
      DropSays(s, NamespaceKey(e.order.cluster, e.order.name), e.order.project, e.outcome, f);
    } else if e.Reconcile? {
      ReconcileSays(s, e.key, e.patched, f);
    }
  }

  /** A snapshot an ordinary step publishes gives a configuration the cluster has or had. */
  lemma NewSnapshots(s: System, e: Event, f: Feedback)
    requires Structure(s.db) && Ordinary(e) && f in Step(s, e).feedback && f !in s.feedback && f.QuotaSnapshot?
    ensures exists queues :: queues != [] && f.allocations == QueueConfig.ReadBack(queues)
              && ((f.cluster in s.configs && s.configs[f.cluster] == queues) || (f.cluster, queues) in s.had)
  {
    NewFeedback(s, e, f);
    if e.PublishSnapshot? {
      assert f.allocations == QueueConfig.ReadBack(s.configs[e.cluster]);
    } else {
      assert f.allocations == QueueConfig.ReadBack(e.queues);
    }
  }

  lemma PendingBefore(s: System, e: Event, v: View)
    requires Structure(s.db) && Ordinary(e) && Pending(Step(s, e), v)
    ensures Pending(s, v) || MayOmit(s, v.project.cluster, v.project.name)
  {
    var f :| f in Step(s, e).feedback && Confirms(f, v);
    if f !in s.feedback {
      NewSnapshots(s, e, f);
      var queues :| queues != [] && f.allocations == QueueConfig.ReadBack(queues)
        && ((f.cluster in s.configs && s.configs[f.cluster] == queues) || (f.cluster, queues) in s.had);
      assert Omits(queues, v.project.name);
    }
  }

  lemma BuiltOmits(m: Outgoing, p: Project)
    requires m.Allocate? && m.cluster == p.cluster && ValidName(p.name)
    requires Omits(QueueConfig.Build(m.vendor, m.allocations), p.name)
    ensures Dismisses(m, p)
  {
    QueueConfig.RoundTrip(m.vendor, m.allocations);
    var back := Reported(m);
    FirstNamedFound(back, p.name);
    forall a | a in m.allocations ensures a.name != p.name {
      var i :| 0 <= i < |m.allocations| && m.allocations[i] == a;
      assert back[i] in back;
    }
  }

  /** An ordinary step configures a cluster only with a message that was sent. */
  lemma NewConfigs(s: System, e: Event, c: ClusterId)
    requires Structure(s.db) && Ordinary(e)
    ensures c in Step(s, e).configs <==> c in s.configs
    ensures Step(s, e).configs != s.configs || Step(s, e).had != s.had ==>
              && e.ApplyAllocation? && e.order in s.sent && e.order.Allocate? && e.order.cluster in s.configs
              && Step(s, e) == Configure(s, e.order.cluster, QueueConfig.Build(e.order.vendor, e.order.allocations))
  {
    if e.OnTables() {
      TablesKeepCluster(s, e);
    } else {
      ConfigsInCluster(s, e, c);
    }
  }

  lemma ConfigsInCluster(s: System, e: Event, c: ClusterId)
    requires Ordinary(e) && !e.OnTables()
    ensures var s' := ClusterStep(s, e);
            && (c in s'.configs <==> c in s.configs)
            && (s'.configs != s.configs || s'.had != s.had ==>
                  && e.ApplyAllocation? && e.order in s.sent && e.order.Allocate? && e.order.cluster in s.configs
                  && s' == Configure(s, e.order.cluster, QueueConfig.Build(e.order.vendor, e.order.allocations)))
  {
    if e.DropNamespace? && e.order in s.sent && e.order.DeleteNamespace? {
      DropConfigs(s, NamespaceKey(e.order.cluster, e.order.name), e.order.project, e.outcome);
    } else if e.Reconcile? {
      ReconcileConfigs(s, e.key, e.patched);
    } else if !e.ApplyAllocation? && !e.DropNamespace? {
      OtherConfigs(s, e);
    }
  }

  lemma DropConfigs(s: System, key: NamespaceKey, q: ProjectId, outcome: DeleteOutcome)
    ensures DropStep(s, key, q, outcome).configs == s.configs && DropStep(s, key, q, outcome).had == s.had
  {
  }

  lemma ReconcileConfigs(s: System, key: NamespaceKey, patched: bool)
    ensures ReconcileStep(s, key, patched).configs == s.configs && ReconcileStep(s, key, patched).had == s.had
  {
  }

  lemma OtherConfigs(s: System, e: Event)
    requires Ordinary(e) && !e.OnTables() && !e.ApplyAllocation? && !e.DropNamespace? && !e.Reconcile?
    ensures ClusterStep(s, e).configs == s.configs && ClusterStep(s, e).had == s.had
  {
  }

  lemma OmissionBefore(s: System, e: Event, p: Project)
    requires Structure(s.db) && Ordinary(e) && ValidName(p.name) && MayOmit(Step(s, e), p.cluster, p.name)
    ensures MayOmit(s, p.cluster, p.name) || (p.cluster in s.configs && Dismissal(s, p))
  {
    NewConfigs(s, e, p.cluster);
    if !MayOmit(s, p.cluster, p.name) {
      assert e.ApplyAllocation? && e.order.cluster == p.cluster;
      BuiltOmits(e.order, p);
    }
  }

  /** What an ordinary step sends: allocations, when node news are handled. */
  lemma NewOrders(s: System, e: Event, m: Outgoing)
    requires Inv(s) && Ordinary(e) && m in Step(s, e).sent && m !in s.sent
    ensures m.Allocate?
    ensures e.Deliver? && e.f in s.feedback && e.f.cluster == m.cluster && News(s.db, e.f)
  {
    StepSends(s, e);
    assert m in Flushed(Enqueued(s, e), s.limit);
    assert e.Deliver? && e.f in s.feedback && Handle(s.db, e.f, s.now).Ok?;
    HandledNews(s.db, e.f, s.now, m);
  }

  lemma HandledNews(db: Db, f: Feedback, now: Time, m: Outgoing)
    requires Structure(db) && Handle(db, f, now).Ok? && m in Handle(db, f, now).value.1
    ensures m.Allocate? && f.cluster == m.cluster && News(db, f)
  {
    NewsAnyTime(db, f, now);
  }

  lemma DismissalBefore(s: System, e: Event, p: Project)
    requires Inv(s) && Ordinary(e) && Dismissal(Step(s, e), p)
    ensures Dismissal(s, p) || NewsComing(s, p.cluster)
  {
    var m :| m in Step(s, e).sent && Dismisses(m, p);
    if m !in s.sent {
      NewOrders(s, e, m);
    }
  }

  /** Node messages see nothing but the rows of their cluster. */
  lemma SameNews(db: Db, db': Db, f: Feedback)
    requires Structure(db) && Structure(db') && NodesOf(db, f.cluster) == NodesOf(db', f.cluster)
    ensures News(db, f) <==> News(db', f)
  {
  }

  lemma RowsChange(db: Db, f: Feedback, now: Time, c: ClusterId)
    requires Structure(db) && Handle(db, f, now).Ok? && NodesOf(Handle(db, f, now).value.0, c) != NodesOf(db, c)
    ensures f.cluster == c && News(db, f)
  {
    if f.NodeList? || f.NodeUpdate? || f.NodeDelete? {
      NewsAnyTime(db, f, now);
    }
  }

  lemma NewsBefore(s: System, e: Event, c: ClusterId)
    requires Inv(s) && Inv(Step(s, e)) && Ordinary(e) && NewsComing(Step(s, e), c)
    ensures NewsComing(s, c)
  {
    var s' := Step(s, e);
    var f :| f in s'.feedback && f.cluster == c && News(s'.db, f);
    NoNewNodes(s, e, f);
    StepSends(s, e);
    if NodesOf(s'.db, c) == NodesOf(s.db, c) {
      SameNews(s.db, s'.db, f);
    } else {
      assert e.Deliver? && e.f in s.feedback;
      RowsChange(s.db, e.f, s.now, c);
    }
  }

  lemma NoNewNodes(s: System, e: Event, f: Feedback)
    requires Structure(s.db) && Ordinary(e) && f in Step(s, e).feedback
    ensures (f.NodeList? || f.NodeUpdate? || f.NodeDelete?) ==> f in s.feedback
  {
    if f !in s.feedback {
      NewFeedback(s, e, f);
    }
  }

  /** Only the quota and the project's name and cluster matter. */
  lemma SameSide(s: System, v: View, v': View)
    requires Structure(s.db) && v'.quota == v.quota && KeyOf(v'.project) == KeyOf(v.project)
    ensures Confirmable(s, v') ==> Confirmable(s, v)
  {
    if Pending(s, v') {
      var f :| f in s.feedback && Confirms(f, v');
      assert Confirms(f, v);
    } else if Dismissal(s, v'.project) {
      var m :| m in s.sent && Dismisses(m, v'.project);
      assert Dismisses(m, v.project);
    }
  }

  lemma ConfirmableBefore(s: System, e: Event, v: View)
    requires Inv(s) && Inv(Step(s, e)) && Ordinary(e) && ValidName(v.project.name) && Confirmable(Step(s, e), v)
    ensures Confirmable(s, v)
  {
    var s' := Step(s, e);
    NewConfigs(s, e, v.project.cluster);
    if Pending(s', v) {
      PendingBefore(s, e, v);
    } else if MayOmit(s', v.project.cluster, v.project.name) {
      OmissionBefore(s, e, v.project);
    } else if Dismissal(s', v.project) {
      DismissalBefore(s, e, v.project);
    } else if v.quota.status != QuotaStatus.Deleted {
      NewsBefore(s, e, v.project.cluster);
    }
  }

  lemma QuotaSideBefore(s: System, e: Event, pid: ProjectId, v: View)
    requires Inv(s) && Inv(Step(s, e)) && Ordinary(e) && pid in s.db.projects && ViewOf(s.db, pid) == v
    requires pid in Step(s, e).db.projects && KeyOf(Step(s, e).db.projects[pid]) == KeyOf(v.project)
    requires ViewOf(Step(s, e).db, pid).quota == v.quota && QuotaSide(Step(s, e), pid)
    ensures QuotaSide(s, pid)
  {
    assert Sound(s, pid, v);
    SameSide(Step(s, e), v, ViewOf(Step(s, e).db, pid));
    ConfirmableBefore(s, e, v);
  }

  lemma QuotaStuckStep(s: System, e: Event, pid: ProjectId)
    requires Inv(s) && Ordinary(e) && QuotaStuck(s, pid)
    ensures Inv(Step(s, e)) && QuotaStuck(Step(s, e), pid)
  {
    var v := ViewOf(s.db, pid);
    if v.quota.status.Active() {
      TrapStep(s, e, pid);
    } else {
      StepOne(s, e, pid, v);
      StuckMove(s, e, pid, v);
      if ViewOf(Step(s, e).db, pid).quota == v.quota && QuotaSide(Step(s, e), pid) {
        QuotaSideBefore(s, e, pid, v);
      }
    }
  }

  lemma StuckMove(s: System, e: Event, pid: ProjectId, v: View)
    requires Structure(s.db) && Ordinary(e) && v.project.status == ProjectStatus.Deleting
    requires v.quota.status == QuotaStatus.Deleting && !Pending(s, v)
    ensures !Closes(s, e, pid, v)
    ensures var w := Moved(s, e, pid, v);
            && KeyOf(w.project) == KeyOf(v.project) && w.project.status == ProjectStatus.Deleting
            && (w.quota == v.quota || w.quota.status.Active())
  {
    MovedProject(s, e, pid, v);
    if e.Deliver? && e.f in s.feedback {
      NotConfirmed(e.f, pid, v, s.now);
    }
  }

  lemma {:induction false} QuotaStuckRun(s: System, es: seq<Event>, pid: ProjectId)
    requires Inv(s) && AllOrdinary(es) && QuotaStuck(s, pid)
    ensures QuotaStuck(Run(s, es), pid)
    decreases es
  {
    if es != [] {
      assert es[0] in es;
      QuotaStuckStep(s, es[0], pid);
      QuotaStuckRun(Step(s, es[0]), es[1..], pid);
    }
  }

  // ----- when nothing can report the namespace gone, nothing ever will

  ghost predicate NamespaceStuck(s: System, pid: ProjectId)
    requires Structure(s.db)
  {
    && pid in s.db.projects && s.db.projects[pid].status == ProjectStatus.Deleting
    && !NamespaceSide(s, pid)
  }

  lemma NoticedBefore(s: System, e: Event, key: NamespaceKey, pid: ProjectId)
    requires Inv(s) && Ordinary(e) && pid in s.born && s.born[pid] == key && Noticed(Step(s, e), key, pid)
    ensures CanReport(s, key, pid)
  {
    if !Noticed(s, key, pid) {
      NewNotice(s, e, key, pid);
      if key !in s.left {
        assert Ordered(s, e.order);
        assert e.order == Order(key, pid);
      }
    }
  }

  /** The namespace is there or not, labelled and under deletion or not, as before, and has not left. */
  ghost predicate Steady(s: System, s': System, key: NamespaceKey) {
    && (key in s'.left ==> key in s.left) && (key in s'.live <==> key in s.live)
    && (key in s.live ==>
          s'.live[key].tag == s.live[key].tag && s'.live[key].terminating == s.live[key].terminating)
  }

  /** The namespace was just created, on an order that was sent. */
  ghost predicate JustMade(s: System, s': System, key: NamespaceKey) {
    && key !in s.live && (key in s'.left ==> key in s.left) && key in s'.live && !s'.live[key].terminating
    && s'.live[key].tag.Some? && Creation(key, s'.live[key].tag.value) in s.sent
  }

  lemma DropSteady(s: System, k: NamespaceKey, q: ProjectId, outcome: DeleteOutcome, key: NamespaceKey)
    requires Order(k, q) in s.sent
    ensures Doomed(s, key) || Steady(s, DropStep(s, k, q, outcome), key)
  {
    if Alive(s, k, q) && k == key {
      assert Doomed(s, key);
    }
  }

  lemma ReconcileSteady(s: System, k: NamespaceKey, patched: bool, key: NamespaceKey)
    ensures Steady(s, ReconcileStep(s, k, patched), key)
  {
  }

  lemma MakeSteady(s: System, m: Outgoing, created: bool, key: NamespaceKey)
    requires Structure(s.db) && m in s.sent && m.CreateNamespace?
    ensures var s' := Step(s, MakeNamespace(m, created)); Steady(s, s', key) || JustMade(s, s', key)
  {
    assert NamespaceKey(m.cluster, m.name) == key ==> m == Creation(key, m.project);
  }

  /** What an ordinary step can do to a namespace that no order is out for. */
  lemma NamespaceStep(s: System, e: Event, key: NamespaceKey)
    requires Structure(s.db) && Ordinary(e)
    ensures var s' := Step(s, e);
            Doomed(s, key) || (key in s.live && s.live[key].terminating) || Steady(s, s', key) || JustMade(s, s', key)
  {
    if e.OnTables() {
      TablesKeepCluster(s, e);
    } else if e.DropNamespace? {
      if e.order in s.sent && e.order.DeleteNamespace? {
        DropSteady(s, NamespaceKey(e.order.cluster, e.order.name), e.order.project, e.outcome, key);
      }
    } else if e.Reconcile? {
      ReconcileSteady(s, e.key, e.patched, key);
    } else if e.MakeNamespace? {
      if e.order in s.sent && e.order.CreateNamespace? {
        MakeSteady(s, e.order, e.created, key);
      }
    } else {
      OtherSteady(s, e, key);
    }
  }

  lemma OtherSteady(s: System, e: Event, key: NamespaceKey)
    requires Ordinary(e) && !e.OnTables() && !e.DropNamespace? && !e.Reconcile? && !e.MakeNamespace?
    ensures (key in s.live && s.live[key].terminating) || Steady(s, ClusterStep(s, e), key)
  {
  }

  lemma OrderBefore(s: System, e: Event, m: Outgoing)
    requires Inv(s) && Ordinary(e) && m in Step(s, e).sent && !m.Allocate?
    ensures m in s.sent
  {
    if m !in s.sent {
      NewOrders(s, e, m);
    }
  }

  lemma DoomedBefore(s: System, e: Event, key: NamespaceKey, pid: ProjectId)
    requires Inv(s) && Ordinary(e) && Doomed(Step(s, e), key)
    requires Steady(s, Step(s, e), key) || JustMade(s, Step(s, e), key)
    ensures CanReport(s, key, pid)
  {
    var q :| Alive(Step(s, e), key, q) && Order(key, q) in Step(s, e).sent;
    OrderBefore(s, e, Order(key, q));
    if Steady(s, Step(s, e), key) {
      assert Alive(s, key, q);
    }
  }

  lemma DoomedLaterBefore(s: System, e: Event, key: NamespaceKey, pid: ProjectId)
    requires Inv(s) && Ordinary(e) && DoomedLater(Step(s, e), key)
    requires Steady(s, Step(s, e), key) || JustMade(s, Step(s, e), key)
    ensures CanReport(s, key, pid)
  {
    var q :| Creation(key, q) in Step(s, e).sent && Order(key, q) in Step(s, e).sent;
    OrderBefore(s, e, Order(key, q));
    OrderBefore(s, e, Creation(key, q));
  }

  lemma CanReportBefore(s: System, e: Event, key: NamespaceKey, pid: ProjectId)
    requires Inv(s) && Ordinary(e) && pid in s.born && s.born[pid] == key && CanReport(Step(s, e), key, pid)
    ensures CanReport(s, key, pid)
  {
    var s' := Step(s, e);
    NamespaceStep(s, e, key);
    if Noticed(s', key, pid) {
      NoticedBefore(s, e, key, pid);
    } else if Order(key, pid) in s'.sent {
      OrderBefore(s, e, Order(key, pid));
    } else if Steady(s, s', key) || JustMade(s, s', key) {
      if Doomed(s', key) {
        DoomedBefore(s, e, key, pid);
      } else if DoomedLater(s', key) {
        DoomedLaterBefore(s, e, key, pid);
      }
    }
  }

  lemma NamespaceStuckStep(s: System, e: Event, pid: ProjectId)
    requires Inv(s) && Ordinary(e) && NamespaceStuck(s, pid)
    ensures Inv(Step(s, e)) && NamespaceStuck(Step(s, e), pid)
  {
    var v, key := ViewOf(s.db, pid), KeyOf(s.db.projects[pid]);
    StepOne(s, e, pid, v);
    PinnedMove(s, e, pid, v, key);
    MovedProject(s, e, pid, v);
    if CanReport(Step(s, e), key, pid) {
      CanReportBefore(s, e, key, pid);
    }
  }

  lemma {:induction false} NamespaceStuckRun(s: System, es: seq<Event>, pid: ProjectId)
    requires Inv(s) && AllOrdinary(es) && NamespaceStuck(s, pid)
    ensures NamespaceStuck(Run(s, es), pid)
    decreases es
  {
    if es != [] {
      assert es[0] in es;
      NamespaceStuckStep(s, es[0], pid);
      NamespaceStuckRun(Step(s, es[0]), es[1..], pid);
    }
  }

  // ----- the exact condition

  /**
   * From any state the agents' own steps can remove a project under deletion if and only
   * if its quota is in deletion, something can still confirm that, and something can still
   * report its namespace gone. Besides the trap, a project is stuck where a flush lost what
   * its deletion had to say.
   */
  lemma AgentRemovesExactly(s: System, pid: ProjectId)
    requires Inv(s) && pid in s.db.projects && s.db.projects[pid].status == ProjectStatus.Deleting
    ensures (exists es :: AllOrdinary(es) && pid !in Run(s, es).db.projects)
       <==> !ViewOf(s.db, pid).quota.status.Active() && QuotaSide(s, pid) && NamespaceSide(s, pid)
  {
    if ViewOf(s.db, pid).quota.status.Active() || !QuotaSide(s, pid) {
      forall es | AllOrdinary(es) ensures pid in Run(s, es).db.projects {
        QuotaStuckRun(s, es, pid);
      }
    } else if !NamespaceSide(s, pid) {
      forall es | AllOrdinary(es) ensures pid in Run(s, es).db.projects {
        NamespaceStuckRun(s, es, pid);
      }
    } else {
      var es := BothSidesRemove(s, pid);
      assert AllOrdinary(es) && pid !in Run(s, es).db.projects;
    }
  }

  // ----- what a lost flush does to a deletion

  /** The namespace is there, labelled with the project and not under deletion, and nothing has ever shown it gone. */
  predicate Untouched(s: System, key: NamespaceKey, pid: ProjectId) {
    Alive(s, key, pid) && !s.live[key].terminating && !Noticed(s, key, pid) && key !in s.left
  }

  lemma DeletionStarts(s: System, pid: ProjectId)
    requires Inv(s) && DeleteProject(s.db, pid, s.now).Ok?
    ensures var s' := Step(s, RequestDelete(pid));
            && Inv(s') && SameClusters(s, s') && Deletable(s', pid)
            && KeyOf(s'.db.projects[pid]) == KeyOf(s.db.projects[pid])
            && ViewOf(s'.db, pid).ns == NamespaceStatus.Terminating
  {
    StepInv(s, RequestDelete(pid));
    TablesKeepCluster(s, RequestDelete(pid));
    StepSends(s, RequestDelete(pid));
    DeleteViews(s.db, pid, s.now);
  }

  lemma UntouchedReports(s: System, key: NamespaceKey, pid: ProjectId)
    requires Untouched(s, key, pid)
    ensures CanReport(s, key, pid) <==> Order(key, pid) in s.sent
  {
    if Doomed(s, key) {
      var q :| Alive(s, key, q) && Order(key, q) in s.sent;
      assert q == pid;
    }
  }

  /**
   * A deletion is accepted in a cluster that has a configuration, while the project's
   * namespace is there and was never seen gone: the agents' own steps can complete it if
   * and only if the flush of that request got both messages through.
   */
  lemma DeletionCompletesExactly(s: System, pid: ProjectId)
    requires Inv(s) && DeleteProject(s.db, pid, s.now).Ok?
    requires Untouched(s, KeyOf(s.db.projects[pid]), pid) && s.db.projects[pid].cluster in s.configs
    ensures Inv(Step(s, RequestDelete(pid)))
    ensures (exists es :: AllOrdinary(es) && pid !in Run(Step(s, RequestDelete(pid)), es).db.projects)
       <==> FlushesBoth(s)
  {
    var s', key := Step(s, RequestDelete(pid)), KeyOf(s.db.projects[pid]);
    DeletionStarts(s, pid);
    FlushedDeletion(s, pid);
    UntouchedReports(s', key, pid);
    AgentRemovesExactly(s', pid);
    if FlushesBoth(s) {
      DismissedGrows(s'.sent, s'.sent, pid, s.db.projects[pid], s'.db.projects[pid]);
    }
  }

  /** Nothing the agents do by themselves removes the project. */
  ghost predicate Stranded(s: System, pid: ProjectId)
    requires Inv(s)
  {
    forall es :: AllOrdinary(es) ==> pid in Run(s, es).db.projects
  }

  lemma NeverRemoved(s: System, pid: ProjectId)
    requires Inv(s) && !exists es :: AllOrdinary(es) && pid !in Run(s, es).db.projects
    ensures Stranded(s, pid)
  {
  }

  /** Deletion was accepted, its orders were lost, and the project is stranded. */
  ghost predicate Lost(s: System, pid: ProjectId, limit: nat) {
    Inv(s) && s.limit == Some(limit) && Deletable(s, pid) && Stranded(s, pid)
  }

  lemma LostOrdersStrand(s: System, s': System, pid: ProjectId, limit: nat)
    requires Inv(s) && DeleteProject(s.db, pid, s.now).Ok? && limit < 2 && s.limit == Some(limit)
    requires Untouched(s, KeyOf(s.db.projects[pid]), pid) && s.db.projects[pid].cluster in s.configs
    requires s' == Step(s, RequestDelete(pid))
    ensures Lost(s', pid, limit)
  {
    assert Inv(s') && s'.limit == Some(limit) && Deletable(s', pid) by {
      DeletionStarts(s, pid);
    }
    DeletionCompletesExactly(s, pid);
    NeverRemoved(s', pid);
  }
}
