/**
 * The orders a deletion sends and what they achieve, and which projects under deletion
 * can still be removed: by anyone, and while their namespace is alive.
 */
module Removal {
  import opened Domain
  import opened Capacity
  import opened Lifecycle
  import opened Consumer
  import opened Outbox
  import opened Protocol
  import opened Runs
  import QueueConfig

  // ----- what a deletion leaves on the way to the cluster

  /** An allocation message that tells the cluster to drop the project's quota. */
  predicate Dismisses(m: Outgoing, p: Project) {
    m.Allocate? && m.cluster == p.cluster && m.allocations != [] && p.name !in NamesIn(m.allocations)
  }

  /** The order to delete the project's namespace. */
  function OrderOf(pid: ProjectId, p: Project): Outgoing {
    Outgoing.DeleteNamespace(p.cluster, p.name, pid)
  }

  /** Both orders were sent: to drop the quota and to delete the namespace. */
  ghost predicate Dismissed(sent: set<Outgoing>, pid: ProjectId, p: Project) {
    OrderOf(pid, p) in sent && exists m :: m in sent && Dismisses(m, p)
  }

  lemma DismissedGrows(sent: set<Outgoing>, sent': set<Outgoing>, pid: ProjectId, p: Project, p': Project)
    requires Dismissed(sent, pid, p) && sent <= sent' && KeyOf(p') == KeyOf(p)
    ensures Dismissed(sent', pid, p')
  {
    var m :| m in sent && Dismisses(m, p);
    assert Dismisses(m, p');
  }

  /** A project whose quota is in deletion is in no allocation message its tables call for. */
  lemma InactiveUnnamed(db: Db, pid: ProjectId)
    requires NamesDiffer(db) && pid in db.projects && pid in db.quotas && !db.quotas[pid].status.Active()
    requires ValidName(db.projects[pid].name)
    ensures Dismisses(AllocationMessage(db, db.projects[pid].cluster), db.projects[pid])
  {
    AllocationsMembers(db, db.order, db.projects[pid].cluster);
  }

  /** What a deletion enqueues no longer names the project. */
  lemma DeletionDismisses(db: Db, pid: ProjectId, now: Time)
    requires Structure(db) && DeleteProject(db, pid, now).Ok? && ValidName(db.projects[pid].name)
    ensures var out := DeleteProject(db, pid, now).value.1;
            |out| == 2 && Dismisses(out[0], db.projects[pid]) && out[1] == OrderOf(pid, db.projects[pid])
  {
    var q := Restated(ViewOf(db, pid).quota, QuotaStatus.Deleting, None, now);
    InactiveUnnamed(db.(quotas := db.quotas[pid := q]), pid);
  }

  /** The flush of a deletion gets both its messages through. */
  predicate FlushesBoth(s: System) {
    s.limit.None? || s.limit.value >= 2
  }

  /** Until its deletion is requested, no order for a project is out. */
  lemma NoOrderYet(s: System, pid: ProjectId)
    requires Inv(s) && DeleteProject(s.db, pid, s.now).Ok?
    ensures OrderOf(pid, s.db.projects[pid]) !in s.sent && ValidName(s.db.projects[pid].name)
  {
    assert Sound(s, pid, ViewOf(s.db, pid));
    forall m | m in s.sent ensures m.DeleteNamespace? ==> m.project in s.marks { assert Ordered(s, m); }
  }

  lemma FlushedOrders(sent: set<Outgoing>, out: seq<Outgoing>, limit: Option<nat>, pid: ProjectId, p: Project)
    requires |out| == 2 && Dismisses(out[0], p) && out[1] == OrderOf(pid, p) && OrderOf(pid, p) !in sent
    ensures var sent' := sent + SetOf(Flushed(out, limit));
            if limit.None? || limit.value >= 2 then Dismissed(sent', pid, p) else OrderOf(pid, p) !in sent'
  {
    if limit.None? || limit.value >= 2 {
      assert out[0] in out && out[1] in out;
    }
  }

  lemma FlushedDeletion(s: System, pid: ProjectId)
    requires Inv(s) && DeleteProject(s.db, pid, s.now).Ok?
    ensures FlushesBoth(s) ==> Dismissed(Step(s, RequestDelete(pid)).sent, pid, s.db.projects[pid])
    ensures !FlushesBoth(s) ==> OrderOf(pid, s.db.projects[pid]) !in Step(s, RequestDelete(pid)).sent
  {
    NoOrderYet(s, pid);
    DeletionDismisses(s.db, pid, s.now);
    FlushedOrders(s.sent, DeleteProject(s.db, pid, s.now).value.1, s.limit, pid, s.db.projects[pid]);
    DeleteStep(s, pid);
  }

  lemma MovedProject(s: System, e: Event, pid: ProjectId, v: View)
    requires Structure(s.db)
    ensures KeyOf(Moved(s, e, pid, v).project) == KeyOf(v.project)
    ensures Moved(s, e, pid, v).project.status == ProjectStatus.Deleting
       <==> v.project.status == ProjectStatus.Deleting || e == RequestDelete(pid)
  {
    if e.Deliver? {
      AfterProject(e.f, pid, v, s.now);
    }
  }

  lemma AfterProject(f: Feedback, pid: ProjectId, v: View, now: Time)
    ensures var p := After(f, pid, v, now).project;
            && KeyOf(p) == KeyOf(v.project)
            && (p.status == ProjectStatus.Deleting <==> v.project.status == ProjectStatus.Deleting)
  {
  }

  /** Only the request that starts a deletion enqueues its order. */
  lemma EnqueuesOrder(s: System, e: Event, m: Outgoing)
    requires Structure(s.db) && m in Enqueued(s, e) && m.DeleteNamespace?
    ensures e == RequestDelete(m.project) && DeleteProject(s.db, m.project, s.now).Ok?
  {
    if e.Deliver? && e.f in s.feedback && Handle(s.db, e.f, s.now).Ok? {
      HandleEffect(s.db, e.f, s.now);
    }
  }

  lemma OrderStep(s: System, e: Event, m: Outgoing)
    requires Inv(s) && m.DeleteNamespace? && m.project in s.marks && m !in s.sent
    ensures Inv(Step(s, e)) && m !in Step(s, e).sent && m.project in Step(s, e).marks
  {
    StepInv(s, e);
    StepHistory(s, e);
    StepSends(s, e);
    MarkedRefused(s, m.project);
    if m in Enqueued(s, e) {
      EnqueuesOrder(s, e, m);
    }
  }

  lemma MarkedRefused(s: System, pid: ProjectId)
    requires Inv(s) && pid in s.marks
    ensures DeleteProject(s.db, pid, s.now).Err?
  {
    if pid in s.db.projects {
      assert Sound(s, pid, ViewOf(s.db, pid));
    }
  }

  /** An order that a flush lost is never sent again: a second deletion is refused, and nothing else sends it. */
  lemma {:induction false} OrderNeverResent(s: System, es: seq<Event>, m: Outgoing)
    requires Inv(s) && m.DeleteNamespace? && m.project in s.marks && m !in s.sent
    ensures m !in Run(s, es).sent
    decreases es
  {
    if es != [] {
      OrderStep(s, es[0], m);
      OrderNeverResent(Step(s, es[0]), es[1..], m);
    }
  }

  /**
   * Exactly when the cluster is ever told to delete the namespace of a project whose
   * deletion was accepted: when the flush of that very request got both messages through.
   */
  lemma OrderSentExactly(s: System, pid: ProjectId, es: seq<Event>)
    requires Inv(s) && DeleteProject(s.db, pid, s.now).Ok?
    ensures Inv(Step(s, RequestDelete(pid)))
    ensures OrderOf(pid, s.db.projects[pid]) in Run(Step(s, RequestDelete(pid)), es).sent <==> FlushesBoth(s)
  {
    StepInv(s, RequestDelete(pid));
    FlushedDeletion(s, pid);
    DeletionMarks(s, pid);
    OrderKept(Step(s, RequestDelete(pid)), es, OrderOf(pid, s.db.projects[pid]));
  }

  lemma DeletionMarks(s: System, pid: ProjectId)
    requires Structure(s.db) && DeleteProject(s.db, pid, s.now).Ok?
    ensures pid in Step(s, RequestDelete(pid)).marks
  {
  }

  /** An order is out at the end of a run exactly when it was at the start. */
  lemma OrderKept(s: System, es: seq<Event>, m: Outgoing)
    requires Inv(s) && m.DeleteNamespace? && m.project in s.marks
    ensures m in Run(s, es).sent <==> m in s.sent
  {
    if m in s.sent {
      RunKeepsMessages(s, es);
    } else {
      OrderNeverResent(s, es, m);
    }
  }

  /**
   * Once a deletion's flush got both messages through, both orders are out for as long as
   * the project is there.
   */
  lemma InstructedRun(s: System, pid: ProjectId, es: seq<Event>)
    requires Inv(s) && DeleteProject(s.db, pid, s.now).Ok? && FlushesBoth(s)
    ensures Inv(Step(s, RequestDelete(pid)))
    ensures var s' := Run(Step(s, RequestDelete(pid)), es);
            pid in s'.db.projects ==> Dismissed(s'.sent, pid, s'.db.projects[pid])
  {
    var s1 := Step(s, RequestDelete(pid));
    StepInv(s, RequestDelete(pid));
    StepHistory(s, RequestDelete(pid));
    FlushedDeletion(s, pid);
    RunKeepsMessages(s1, es);
    var s' := Run(s1, es);
    if pid in s'.db.projects {
      RunExtends(s1, es);
      SameKey(s, s', pid);
      DismissedGrows(s1.sent, s'.sent, pid, s.db.projects[pid], s'.db.projects[pid]);
    }
  }

  /** A project under deletion whose quota is in deletion too. */
  ghost predicate Deletable(s: System, pid: ProjectId)
    requires Structure(s.db)
  {
    && pid in s.db.projects && s.db.projects[pid].status == ProjectStatus.Deleting
    && !ViewOf(s.db, pid).quota.status.Active()
  }

  /** The namespace is there and labelled with the project. */
  predicate Alive(s: System, key: NamespaceKey, pid: ProjectId) {
    key in s.live && s.live[key].tag == Some(pid)
  }

  // ----- the two confirmations, by the agent's own steps

  /** What agents, clusters and the broker do by themselves, and the deliveries of their messages. */
  predicate Ordinary(e: Event) {
    || e.Deliver? || e.Tick? || e.Broker? || e.ApplyAllocation? || e.PublishSnapshot? || e.PublishLate?
    || e.MakeNamespace? || e.DropNamespace? || e.Reconcile? || e.ReadLate? || e.Vanish?
  }

  ghost predicate AllOrdinary(es: seq<Event>) {
    forall e :: e in es ==> Ordinary(e)
  }

  /** The run confirmed the quota's deletion, and did nothing else to the project but end it. */
  ghost predicate QuotaConfirmed(s: System, s': System, pid: ProjectId)
    requires Structure(s.db) && Structure(s'.db) && pid in s.db.projects
  {
    && s'.live == s.live && s'.left == s.left && s.sent <= s'.sent && s.feedback <= s'.feedback
    && (pid in s'.db.projects <==> ViewOf(s.db, pid).ns != NamespaceStatus.Deleted)
    && (pid in s'.db.projects ==>
          && s'.db.projects[pid] == s.db.projects[pid]
          && ViewOf(s'.db, pid).ns == ViewOf(s.db, pid).ns
          && ViewOf(s'.db, pid).quota.status == QuotaStatus.Deleted)
  }

  /** The run confirmed that the namespace is gone, and did nothing else to the project but end it. */
  ghost predicate NamespaceConfirmed(s: System, s': System, pid: ProjectId)
    requires Structure(s.db) && Structure(s'.db) && pid in s.db.projects
  {
    && s'.configs == s.configs && s.sent <= s'.sent
    && (pid in s'.db.projects <==> ViewOf(s.db, pid).quota.status != QuotaStatus.Deleted)
    && (pid in s'.db.projects ==>
          && s'.db.projects[pid] == s.db.projects[pid]
          && ViewOf(s'.db, pid).quota == ViewOf(s.db, pid).quota
          && ViewOf(s'.db, pid).ns == NamespaceStatus.Deleted)
  }

  /** A snapshot that does not name a quota under deletion. */
  lemma SnapshotConfirms(f: Feedback, pid: ProjectId, v: View, now: Time)
    requires f.QuotaSnapshot? && v.project.cluster == f.cluster && v.quota.updatedAt <= f.at
    requires v.project.status == ProjectStatus.Deleting && !v.quota.status.Active()
    requires FirstNamed(f.allocations, v.project.name).None?
    ensures Ends(f, pid, v, now) <==> v.ns == NamespaceStatus.Deleted
    ensures var w := After(f, pid, v, now);
            w.project == v.project && w.ns == v.ns && w.quota.status == QuotaStatus.Deleted
  {
  }

  /** A notice that the namespace of a project under deletion is gone. */
  predicate Notice(f: Feedback, key: NamespaceKey, pid: ProjectId) {
    f == NamespaceGone(key.cluster, key.name) || f == NamespaceState(key.cluster, pid, NamespaceStatus.Deleted)
  }

  lemma NoticeConfirms(f: Feedback, pid: ProjectId, v: View, now: Time)
    requires Notice(f, KeyOf(v.project), pid) && v.project.status == ProjectStatus.Deleting
    ensures Ends(f, pid, v, now) <==> v.quota.status == QuotaStatus.Deleted
    ensures var w := After(f, pid, v, now);
            w.project == v.project && w.quota == v.quota && w.ns == NamespaceStatus.Deleted
  {
  }

  /** Steps before it that leave the tables and the namespaces alone do not matter. */
  lemma ConfirmedSince(s: System, mid: System, s': System, pid: ProjectId)
    requires Structure(s.db) && Structure(s'.db) && pid in s.db.projects && mid.db == s.db && mid.live == s.live
    requires mid.left == s.left && s.sent <= mid.sent && s.feedback <= mid.feedback && QuotaConfirmed(mid, s', pid)
    ensures QuotaConfirmed(s, s', pid)
  {
  }

  /** Delivering such a snapshot. */
  lemma DeliverSnapshot(s: System, s': System, pid: ProjectId, v: View, f: Feedback)
    requires Inv(s) && f in s.feedback && pid in s.db.projects && ViewOf(s.db, pid) == v && s' == Step(s, Deliver(f))
    requires f.QuotaSnapshot? && v.project.cluster == f.cluster && v.quota.updatedAt <= f.at
    requires v.project.status == ProjectStatus.Deleting && !v.quota.status.Active()
    requires FirstNamed(f.allocations, v.project.name).None?
    ensures Inv(s') && QuotaConfirmed(s, s', pid)
  {
    DeliverOne(s, s', pid, v, f);
    SnapshotConfirms(f, pid, v, s.now);
    TablesKeepCluster(s, Deliver(f));
  }

  /** Delivering a snapshot that was just published confirms the quota's deletion. */
  lemma ConfirmBy(s: System, mid: System, pid: ProjectId, f: Feedback)
    requires Inv(s) && Inv(mid) && Deletable(s, pid)
    requires mid.db == s.db && mid.live == s.live && mid.left == s.left
    requires s.sent <= mid.sent && mid.feedback == s.feedback + {f}
    requires f.QuotaSnapshot? && f.cluster == s.db.projects[pid].cluster && f.at == s.now
    requires FirstNamed(f.allocations, s.db.projects[pid].name).None?
    ensures Inv(Step(mid, Deliver(f))) && QuotaConfirmed(s, Step(mid, Deliver(f)), pid)
  {
    assert Sound(s, pid, ViewOf(s.db, pid));
    DeliverSnapshot(mid, Step(mid, Deliver(f)), pid, ViewOf(s.db, pid), f);
    ConfirmedSince(s, mid, Step(mid, Deliver(f)), pid);
  }

  /** Two steps in the clusters that publish `f` and leave the tables and the namespaces alone. */
  ghost predicate JustPublished(s: System, a: Event, b: Event, mid: System, f: Feedback)
    requires Inv(s)
  {
    && Inv(Step(s, a)) && mid == Step(Step(s, a), b) && Inv(mid)
    && mid.db == s.db && mid.live == s.live && mid.left == s.left
    && s.sent <= mid.sent && mid.feedback == s.feedback + {f}
  }

  lemma RunConfirms(s: System, mid: System, a: Event, b: Event, pid: ProjectId, f: Feedback)
    requires Inv(s) && JustPublished(s, a, b, mid, f)
    requires Deletable(s, pid)
    requires f.QuotaSnapshot? && f.cluster == s.db.projects[pid].cluster && f.at == s.now
    requires FirstNamed(f.allocations, s.db.projects[pid].name).None?
    ensures QuotaConfirmed(s, Run(s, [a, b, Deliver(f)]), pid)
  {
    ConfirmBy(s, mid, pid, f);
    RunThree(s, a, b, Deliver(f));
  }

  lemma DeliverNotice(s: System, s': System, pid: ProjectId, v: View, f: Feedback)
    requires Inv(s) && f in s.feedback && pid in s.db.projects && ViewOf(s.db, pid) == v && s' == Step(s, Deliver(f))
    requires Notice(f, KeyOf(v.project), pid) && v.project.status == ProjectStatus.Deleting
    ensures Inv(s') && NamespaceConfirmed(s, s', pid)
  {
    DeliverOne(s, s', pid, v, f);
    NoticeConfirms(f, pid, v, s.now);
    TablesKeepCluster(s, Deliver(f));
  }

  /** What the cluster reports after it applied a message. */
  function Reported(m: Outgoing): seq<Allocation>
    requires m.Allocate?
  {
    QueueConfig.ReadBack(QueueConfig.Build(m.vendor, m.allocations))
  }

  lemma ReportedNames(m: Outgoing, p: Project)
    requires Dismisses(m, p)
    ensures FirstNamed(Reported(m), p.name).None?
  {
    QueueConfig.RoundTrip(m.vendor, m.allocations);
    var back := Reported(m);
    forall a | a in back ensures a.name != p.name {
      var i :| 0 <= i < |back| && back[i] == a;
      assert m.allocations[i] in m.allocations;
    }
    FirstNamedFound(back, p.name);
  }

  /** Two steps: the agent applies a message and publishes what it applied. */
  lemma ApplyAndPublish(s: System, m: Outgoing) returns (a: Event, b: Event, s': System)
    requires Inv(s) && m in s.sent && m.Allocate? && m.allocations != [] && m.cluster in s.configs
    ensures JustPublished(s, a, b, s', QuotaSnapshot(m.cluster, s.now, Reported(m))) && Ordinary(a) && Ordinary(b)
  {
    a, b := ApplyAllocation(m), PublishSnapshot(m.cluster);
    StepInv(s, a);
    StepInv(Step(s, a), b);
    s' := Step(Step(s, a), b);
  }

  /** Three steps of the agent confirm the quota's deletion. */
  lemma AgentConfirmsQuota(s: System, pid: ProjectId, m: Outgoing) returns (es: seq<Event>)
    requires Inv(s) && Deletable(s, pid)
    requires m in s.sent && Dismisses(m, s.db.projects[pid]) && m.cluster in s.configs
    ensures AllOrdinary(es) && QuotaConfirmed(s, Run(s, es), pid)
  {
    var f := QuotaSnapshot(m.cluster, s.now, Reported(m));
    var a, b, s2 := ApplyAndPublish(s, m);
    ReportedNames(m, s.db.projects[pid]);
    RunConfirms(s, s2, a, b, pid, f);
    OrdinaryThree(a, b, Deliver(f));
    es := [a, b, Deliver(f)];
  }

  lemma OrdinaryThree(a: Event, b: Event, d: Event)
    requires Ordinary(a) && Ordinary(b) && Ordinary(d)
    ensures AllOrdinary([a, b, d])
  {
  }

  /** Steps of the agent and the cluster that end in a notice: the tables, the configurations and the orders stay. */
  ghost predicate EndsInNotice(s: System, es: seq<Event>, key: NamespaceKey, pid: ProjectId, f: Feedback)
    requires Inv(s)
  {
    && AllOrdinary(es) && Notice(f, key, pid) && f in Run(s, es).feedback
    && Run(s, es).db == s.db && Run(s, es).configs == s.configs && Run(s, es).sent == s.sent
  }

  /** One more step before it. */
  lemma NoticeAfter(s: System, e: Event, es: seq<Event>, key: NamespaceKey, pid: ProjectId, f: Feedback)
    requires Inv(s) && Ordinary(e) && Inv(Step(s, e)) && EndsInNotice(Step(s, e), es, key, pid, f)
    requires Step(s, e).db == s.db && Step(s, e).configs == s.configs && Step(s, e).sent == s.sent
    ensures EndsInNotice(s, [e] + es, key, pid, f)
  {
    assert ([e] + es)[1..] == es;
  }

  lemma NoticeNow(s: System, key: NamespaceKey, pid: ProjectId, f: Feedback)
    requires Inv(s) && Notice(f, key, pid) && f in s.feedback
    ensures EndsInNotice(s, [], key, pid, f)
  {
  }

  lemma NoticeAtOnce(s: System, pid: ProjectId, m: Outgoing, key: NamespaceKey) returns (es: seq<Event>, f: Feedback)
    requires Inv(s) && m == Outgoing.DeleteNamespace(key.cluster, key.name, pid) && m in s.sent && !Alive(s, key, pid)
    ensures EndsInNotice(s, es, key, pid, f)
  {
    var e := DropNamespace(m, Accepted);
    assert NamespaceKey(key.cluster, key.name) == key;
    f := NamespaceState(key.cluster, pid, NamespaceStatus.Deleted);
    StepInv(s, e);
    NoticeNow(Step(s, e), key, pid, f);
    NoticeAfter(s, e, [], key, pid, f);
    es := [e] + [];
  }

  /** A namespace that has left is read as gone, if need be from a cache. */
  lemma NoticeOfLeft(s: System, pid: ProjectId, key: NamespaceKey) returns (es: seq<Event>, f: Feedback)
    requires Inv(s) && key in s.left
    ensures EndsInNotice(s, es, key, pid, f)
  {
    var e := ReadLate(key);
    f := NamespaceGone(key.cluster, key.name);
    StepInv(s, e);
    NoticeNow(Step(s, e), key, pid, f);
    NoticeAfter(s, e, [], key, pid, f);
    es := [e] + [];
  }

  lemma NoticeOfUnheld(s: System, pid: ProjectId, key: NamespaceKey) returns (es: seq<Event>, f: Feedback)
    requires Inv(s) && key in s.live && s.live[key].terminating && !s.live[key].held
    ensures EndsInNotice(s, es, key, pid, f)
  {
    var e := Vanish(key);
    StepInv(s, e);
    var rest;
    rest, f := NoticeOfLeft(Step(s, e), pid, key);
    NoticeAfter(s, e, rest, key, pid, f);
    es := [e] + rest;
  }

  lemma Released(s: System, key: NamespaceKey)
    requires Inv(s) && key in s.live && s.live[key].terminating
    ensures var s' := Step(s, Event.Reconcile(key, true));
            && key in s'.live && s'.live[key].terminating && !s'.live[key].held
            && s'.db == s.db && s'.configs == s.configs && s'.sent == s.sent
  {
  }

  /** Under deletion: the agent releases its finalizer, and the namespace is gone. */
  lemma NoticeOfTerminating(s: System, pid: ProjectId, key: NamespaceKey) returns (es: seq<Event>, f: Feedback)
    requires Inv(s) && key in s.live && s.live[key].terminating
    ensures EndsInNotice(s, es, key, pid, f)
  {
    var e := Event.Reconcile(key, true);
    StepInv(s, e);
    Released(s, key);
    var rest;
    rest, f := NoticeOfUnheld(Step(s, e), pid, key);
    NoticeAfter(s, e, rest, key, pid, f);
    es := [e] + rest;
  }

  lemma Dropped(s: System, q: ProjectId, m: Outgoing, key: NamespaceKey)
    requires Inv(s) && m == Outgoing.DeleteNamespace(key.cluster, key.name, q) && m in s.sent && Alive(s, key, q)
    ensures Step(s, DropNamespace(m, Accepted)) == s.(live := s.live[key := s.live[key].(terminating := true)])
  {
    assert NamespaceKey(key.cluster, key.name) == key;
  }

  /** The delete call for the project the namespace is labelled with, whichever that is, is accepted. */
  lemma NoticeOfDrop(s: System, pid: ProjectId, q: ProjectId, m: Outgoing, key: NamespaceKey)
    returns (es: seq<Event>, f: Feedback)
    requires Inv(s) && m == Outgoing.DeleteNamespace(key.cluster, key.name, q) && m in s.sent && Alive(s, key, q)
    ensures EndsInNotice(s, es, key, pid, f)
  {
    var e := DropNamespace(m, Accepted);
    StepInv(s, e);
    Dropped(s, q, m, key);
    var rest;
    rest, f := NoticeOfTerminating(Step(s, e), pid, key);
    NoticeAfter(s, e, rest, key, pid, f);
    es := [e] + rest;
  }

  /** Steps of the agent and the cluster confirm that the namespace is gone. */
  lemma AgentConfirmsNamespace(s: System, pid: ProjectId) returns (es: seq<Event>)
    requires Inv(s) && pid in s.db.projects && s.db.projects[pid].status == ProjectStatus.Deleting
    requires var p := s.db.projects[pid]; Outgoing.DeleteNamespace(p.cluster, p.name, pid) in s.sent
    ensures AllOrdinary(es) && NamespaceConfirmed(s, Run(s, es), pid)
  {
    var key := KeyOf(s.db.projects[pid]);
    var m := Outgoing.DeleteNamespace(key.cluster, key.name, pid);
    var first, f;
    if Alive(s, key, pid) {
      first, f := NoticeOfDrop(s, pid, pid, m, key);
    } else {
      first, f := NoticeAtOnce(s, pid, m, key);
    }
    DeliverAtEnd(s, first, pid, key, f);
    es := first + [Deliver(f)];
  }

  lemma DeliverAtEnd(s: System, first: seq<Event>, pid: ProjectId, key: NamespaceKey, f: Feedback)
    requires Inv(s) && pid in s.db.projects && s.db.projects[pid].status == ProjectStatus.Deleting
    requires key == KeyOf(s.db.projects[pid]) && EndsInNotice(s, first, key, pid, f)
    ensures NamespaceConfirmed(s, Run(s, first + [Deliver(f)]), pid)
  {
    var s1 := Run(s, first);
    RunOne(s1, Deliver(f));
    RunAppend(s, first, [Deliver(f)]);
    DeliverNotice(s1, Step(s1, Deliver(f)), pid, ViewOf(s.db, pid), f);
  }

  /** With both orders sent, the quota first: the agent confirms it, then the namespace, and the project is gone. */
  lemma QuotaFirst(s: System, pid: ProjectId) returns (es: seq<Event>, fs: seq<Event>)
    requires Inv(s) && Deletable(s, pid) && s.db.projects[pid].cluster in s.configs
    requires Dismissed(s.sent, pid, s.db.projects[pid])
    ensures AllOrdinary(es + fs) && QuotaConfirmed(s, Run(s, es), pid)
    ensures pid !in Run(s, es + fs).db.projects
  {
    var p := s.db.projects[pid];
    var m :| m in s.sent && Dismisses(m, p);
    es := AgentConfirmsQuota(s, pid, m);
    fs := [];
    if pid in Run(s, es).db.projects {
      fs := AgentConfirmsNamespace(Run(s, es), pid);
    }
    RunAppend(s, es, fs);
  }

  /** With both orders sent, the namespace first: the agent confirms it, then the quota, and the project is gone. */
  lemma NamespaceFirst(s: System, pid: ProjectId) returns (es: seq<Event>, fs: seq<Event>)
    requires Inv(s) && Deletable(s, pid) && s.db.projects[pid].cluster in s.configs
    requires Dismissed(s.sent, pid, s.db.projects[pid])
    ensures AllOrdinary(es + fs) && NamespaceConfirmed(s, Run(s, es), pid)
    ensures pid !in Run(s, es + fs).db.projects
  {
    var p := s.db.projects[pid];
    var m :| m in s.sent && Dismisses(m, p);
    es := AgentConfirmsNamespace(s, pid);
    fs := [];
    if pid in Run(s, es).db.projects {
      fs := AgentConfirmsQuota(Run(s, es), pid, m);
    }
    RunAppend(s, es, fs);
  }

  // ----- three steps around any configuration

  /** Events that leave every namespace of every cluster alone. */
  predicate Calm(e: Event) {
    !(e.MakeNamespace? || e.DropNamespace? || e.Reconcile? || e.Vanish? || e.OutsideNamespace?)
  }

  ghost predicate AllCalm(es: seq<Event>) {
    forall e :: e in es ==> Calm(e)
  }

  /** A configuration under deletion is reported by a list that is empty, and not null. */
  lemma PublishNothing(s: System, c: ClusterId) returns (a: Event, b: Event, s': System)
    requires Inv(s)
    ensures JustPublished(s, a, b, s', QuotaSnapshot(c, s.now, [])) && Calm(a) && Calm(b)
  {
    a, b := OutsideConfig(c, []), ReleaseConfig(c, false);
    StepInv(s, a);
    StepInv(Step(s, a), b);
    s' := Step(Step(s, a), b);
  }

  /** Three calm steps confirm the quota's deletion, whatever was sent before. */
  lemma ConfirmQuota(s: System, pid: ProjectId) returns (es: seq<Event>)
    requires Inv(s) && Deletable(s, pid)
    ensures AllCalm(es) && QuotaConfirmed(s, Run(s, es), pid)
  {
    var c := s.db.projects[pid].cluster;
    var f := QuotaSnapshot(c, s.now, []);
    var a, b, s2 := PublishNothing(s, c);
    RunConfirms(s, s2, a, b, pid, f);
    CalmThree(a, b, Deliver(f));
    es := [a, b, Deliver(f)];
  }

  lemma CalmThree(a: Event, b: Event, d: Event)
    requires Calm(a) && Calm(b) && Calm(d)
    ensures AllCalm([a, b, d])
  {
  }

  // ----- removal while the namespace is alive

  /** It is so before, throughout and after the run. */
  ghost predicate StaysAlive(s: System, es: seq<Event>, key: NamespaceKey, pid: ProjectId)
    requires Inv(s)
    decreases es
  {
    Alive(s, key, pid) && (es == [] || (
      StepInv(s, es[0]);
      StaysAlive(Step(s, es[0]), es[1..], key, pid)))
  }

  predicate Noticed(s: System, key: NamespaceKey, pid: ProjectId) {
    || NamespaceGone(key.cluster, key.name) in s.feedback
    || NamespaceState(key.cluster, pid, NamespaceStatus.Deleted) in s.feedback
  }

  /** Under deletion, its namespace row not DELETED, and no notice on the way. */
  ghost predicate Pinned(s: System, pid: ProjectId, key: NamespaceKey)
    requires Structure(s.db)
  {
    && pid in s.db.projects && KeyOf(s.db.projects[pid]) == key
    && s.db.projects[pid].status == ProjectStatus.Deleting
    && ViewOf(s.db, pid).ns != NamespaceStatus.Deleted
    && !Noticed(s, key, pid) && key !in s.left
  }

  /** Who publishes a notice: the delete handler for that project's order, or the controller once the namespace left. */
  lemma NewNotice(s: System, e: Event, key: NamespaceKey, pid: ProjectId)
    requires Structure(s.db) && Noticed(Step(s, e), key, pid) && !Noticed(s, key, pid)
    ensures key in s.left
         || (e.DropNamespace? && e.order in s.sent && e.order.DeleteNamespace? && e.order.project == pid)
  {
    if e.OnTables() {
      TablesKeepCluster(s, e);
    } else if e.DropNamespace? && e.order in s.sent && e.order.DeleteNamespace? {
      DropNotice(s, NamespaceKey(e.order.cluster, e.order.name), e.order.project, e.outcome, key, pid);
    } else if e.Reconcile? {
      ReconcileNotice(s, e.key, e.patched, key, pid);
    }
  }

  lemma DropNotice(s: System, k: NamespaceKey, q: ProjectId, outcome: DeleteOutcome, key: NamespaceKey, pid: ProjectId)
    requires Noticed(DropStep(s, k, q, outcome), key, pid) && !Noticed(s, key, pid)
    ensures q == pid && (Alive(s, k, pid) ==> k !in DropStep(s, k, q, outcome).live)
  {
  }

  lemma ReconcileNotice(s: System, k: NamespaceKey, patched: bool, key: NamespaceKey, pid: ProjectId)
    requires Noticed(ReconcileStep(s, k, patched), key, pid) && !Noticed(s, key, pid)
    ensures k == key && key in s.left
  {
  }

  /** While the namespace is alive, and never left before, nothing publishes a notice. */
  lemma NoNoticeWhileAlive(s: System, e: Event, key: NamespaceKey, pid: ProjectId)
    requires Inv(s) && pid in s.born && s.born[pid] == key && !Noticed(s, key, pid)
    requires Alive(s, key, pid) && Alive(Step(s, e), key, pid) && key !in s.left
    ensures !Noticed(Step(s, e), key, pid) && key !in Step(s, e).left
  {
    CachesTrue(s, e);
    if Noticed(Step(s, e), key, pid) {
      NewNotice(s, e, key, pid);
      assert Ordered(s, e.order);
      DropNotice(s, key, pid, e.outcome, key, pid);
    }
  }

  lemma PinnedMove(s: System, e: Event, pid: ProjectId, v: View, key: NamespaceKey)
    requires Structure(s.db) && v.project.status == ProjectStatus.Deleting && v.ns != NamespaceStatus.Deleted
    requires KeyOf(v.project) == key && !Noticed(s, key, pid)
    ensures !Closes(s, e, pid, v) && Moved(s, e, pid, v).ns != NamespaceStatus.Deleted
  {
    if e.Deliver? && e.f in s.feedback {
      PinnedMessage(e.f, pid, v, s.now, key);
    }
  }

  lemma PinnedMessage(f: Feedback, pid: ProjectId, v: View, now: Time, key: NamespaceKey)
    requires v.ns != NamespaceStatus.Deleted && KeyOf(v.project) == key && !Notice(f, key, pid)
    ensures !Ends(f, pid, v, now) && After(f, pid, v, now).ns != NamespaceStatus.Deleted
  {
  }

  lemma PinnedStep(s: System, e: Event, pid: ProjectId, key: NamespaceKey)
    requires Inv(s) && Pinned(s, pid, key) && Alive(s, key, pid) && Alive(Step(s, e), key, pid)
    ensures Inv(Step(s, e)) && Pinned(Step(s, e), pid, key)
  {
    var v := ViewOf(s.db, pid);
    StepOne(s, e, pid, v);
    NoNoticeWhileAlive(s, e, key, pid);
    PinnedMove(s, e, pid, v, key);
    MovedProject(s, e, pid, v);
  }

  lemma {:induction false} PinnedForAsLong(s: System, es: seq<Event>, pid: ProjectId, key: NamespaceKey)
    requires Inv(s) && Pinned(s, pid, key) && StaysAlive(s, es, key, pid)
    ensures Pinned(Run(s, es), pid, key)
    decreases es
  {
    if es != [] {
      StepInv(s, es[0]);
      assert Alive(Step(s, es[0]), key, pid);
      PinnedStep(s, es[0], pid, key);
      PinnedForAsLong(Step(s, es[0]), es[1..], pid, key);
    }
  }

  lemma CalmStep(s: System, e: Event)
    requires Structure(s.db) && Calm(e)
    ensures Step(s, e).live == s.live
  {
  }

  lemma {:induction false} CalmStays(s: System, es: seq<Event>, key: NamespaceKey, pid: ProjectId)
    requires Inv(s) && AllCalm(es) && Alive(s, key, pid)
    ensures StaysAlive(s, es, key, pid)
    decreases es
  {
    if es != [] {
      assert es[0] in es;
      StepInv(s, es[0]);
      CalmStep(s, es[0]);
      CalmStays(Step(s, es[0]), es[1..], key, pid);
    }
  }

  /** A pending notice, or a row that already took one, ends the project without touching its namespace. */
  lemma EndByPending(s: System, pid: ProjectId) returns (es: seq<Event>)
    requires Inv(s) && Deletable(s, pid)
    requires Noticed(s, KeyOf(s.db.projects[pid]), pid) || ViewOf(s.db, pid).ns == NamespaceStatus.Deleted
    ensures AllCalm(es) && pid !in Run(s, es).db.projects
  {
    es := ConfirmQuota(s, pid);
    if pid in Run(s, es).db.projects {
      var f := PendingNotice(s, Run(s, es), pid, KeyOf(s.db.projects[pid]));
      EndByNotice(Run(s, es), pid, f);
      RunAppend(s, es, [Deliver(f)]);
      CalmDelivery(es, f);
      es := es + [Deliver(f)];
    }
  }

  lemma CalmDelivery(es: seq<Event>, f: Feedback)
    requires AllCalm(es)
    ensures AllCalm(es + [Deliver(f)])
  {
  }

  /** So does a namespace that has left before: a lagging cache may still show it gone. */
  lemma RemoveByNotice(s: System, pid: ProjectId) returns (es: seq<Event>)
    requires Inv(s) && Deletable(s, pid)
    requires var key := KeyOf(s.db.projects[pid]);
             Noticed(s, key, pid) || key in s.left || ViewOf(s.db, pid).ns == NamespaceStatus.Deleted
    ensures AllCalm(es) && pid !in Run(s, es).db.projects
  {
    if KeyOf(s.db.projects[pid]) in s.left {
      var e := NoticeRead(s, KeyOf(s.db.projects[pid]), pid);
      var rest := EndByPending(Step(s, e), pid);
      RunOne(s, e);
      RunAppend(s, [e], rest);
      es := [e] + rest;
    } else {
      es := EndByPending(s, pid);
    }
  }

  lemma NoticeRead(s: System, key: NamespaceKey, pid: ProjectId) returns (e: Event)
    requires Inv(s) && key in s.left
    ensures Calm(e) && Inv(Step(s, e)) && Step(s, e).db == s.db && Noticed(Step(s, e), key, pid)
  {
    e := ReadLate(key);
    StepInv(s, e);
  }

  lemma PendingNotice(s: System, s': System, pid: ProjectId, key: NamespaceKey) returns (f: Feedback)
    requires Noticed(s, key, pid) && s.feedback <= s'.feedback
    ensures Notice(f, key, pid) && f in s'.feedback
  {
    f := if NamespaceGone(key.cluster, key.name) in s.feedback then NamespaceGone(key.cluster, key.name)
         else NamespaceState(key.cluster, pid, NamespaceStatus.Deleted);
  }

  lemma EndByNotice(s: System, pid: ProjectId, f: Feedback)
    requires Inv(s) && f in s.feedback && pid in s.db.projects && Notice(f, KeyOf(s.db.projects[pid]), pid)
    requires s.db.projects[pid].status == ProjectStatus.Deleting
    requires ViewOf(s.db, pid).quota.status == QuotaStatus.Deleted
    ensures pid !in Run(s, [Deliver(f)]).db.projects
  {
    RunOne(s, Deliver(f));
    DeliverNotice(s, Step(s, Deliver(f)), pid, ViewOf(s.db, pid), f);
  }

  /** Someone else creates the namespace, without a label. */
  function Comes(key: NamespaceKey): Event {
    OutsideNamespace(key, Some(ClusterNamespace(None, "Active", false, false)))
  }

  lemma CameAndLeft(s: System, key: NamespaceKey)
    ensures var s' := ClusterStep(ClusterStep(s, Comes(key)), OutsideNamespace(key, None));
            s' == s.(live := s.live - {key}, left := s.left + {key})
  {
    assert s.live[key := ClusterNamespace(None, "Active", false, false)] - {key} == s.live - {key};
  }

  lemma ReportedGone(s: System, key: NamespaceKey)
    requires key !in s.live && key in s.left
    ensures ClusterStep(s, Event.Reconcile(key, true))
         == See(Publish(s, NamespaceGone(key.cluster, key.name)), Absent(key, s.now))
  {
  }

  /** Someone else creates the namespace and takes it away, and the controller reports it. */
  lemma PublishAbsence(s: System, key: NamespaceKey) returns (es: seq<Event>)
    requires Inv(s)
    ensures var s' := Run(s, es);
            && s'.db == s.db && s'.nextId == s.nextId && s'.limit == s.limit
            && key !in s'.live && NamespaceGone(key.cluster, key.name) in s'.feedback
  {
    var a, b, d := Comes(key), OutsideNamespace(key, None), Event.Reconcile(key, true);
    RunThree(s, a, b, d);
    CameAndLeft(s, key);
    ReportedGone(s.(live := s.live - {key}, left := s.left + {key}), key);
    es := [a, b, d];
  }

  lemma EndByAbsence(s: System, pid: ProjectId) returns (es: seq<Event>)
    requires Inv(s) && Deletable(s, pid) && ViewOf(s.db, pid).quota.status == QuotaStatus.Deleted
    ensures pid !in Run(s, es).db.projects
  {
    var key := KeyOf(s.db.projects[pid]);
    var f := NamespaceGone(key.cluster, key.name);
    var first := PublishAbsence(s, key);
    EndByNotice(Run(s, first), pid, f);
    RunAppend(s, first, [Deliver(f)]);
    es := first + [Deliver(f)];
  }

  lemma Remove(s: System, pid: ProjectId) returns (es: seq<Event>)
    requires Inv(s) && Deletable(s, pid)
    ensures pid !in Run(s, es).db.projects
  {
    es := ConfirmQuota(s, pid);
    if pid in Run(s, es).db.projects {
      var fs := EndByAbsence(Run(s, es), pid);
      RunAppend(s, es, fs);
      es := es + fs;
    }
  }

  /**
   * From any state whatever, configuration or not, some run removes a project under
   * deletion if and only if its quota is DELETING or DELETED.
   */
  lemma RemovableIffQuotaInDeletion(s: System, pid: ProjectId)
    requires Inv(s) && pid in s.db.projects && s.db.projects[pid].status == ProjectStatus.Deleting
    ensures (exists es :: pid !in Run(s, es).db.projects) <==> !ViewOf(s.db, pid).quota.status.Active()
  {
    if ViewOf(s.db, pid).quota.status.Active() {
      forall es ensures pid in Run(s, es).db.projects {
        TrappedForever(s, es, pid);
      }
    } else {
      var es := Remove(s, pid);
      assert pid !in Run(s, es).db.projects;
    }
  }

  /**
   * The exact condition for removal under a living namespace: some run removes a project
   * under deletion while its namespace stays there, labelled with it, if and only if the
   * quota is DELETING or DELETED, and a notice of absence is on the way or was taken, or
   * the namespace left before, so that a lagging cache may still show it gone. So a
   * project is released early exactly when a report of absence outlives the absence.
   */
  lemma RemovableWhileAliveExactly(s: System, pid: ProjectId)
    requires Inv(s) && pid in s.db.projects && s.db.projects[pid].status == ProjectStatus.Deleting
    requires Alive(s, KeyOf(s.db.projects[pid]), pid)
    ensures var key := KeyOf(s.db.projects[pid]);
            (exists es :: StaysAlive(s, es, key, pid) && pid !in Run(s, es).db.projects)
            <==> && !ViewOf(s.db, pid).quota.status.Active()
                 && (Noticed(s, key, pid) || key in s.left || ViewOf(s.db, pid).ns == NamespaceStatus.Deleted)
  {
    var key := KeyOf(s.db.projects[pid]);
    if ViewOf(s.db, pid).quota.status.Active() {
      forall es ensures pid in Run(s, es).db.projects {
        TrappedForever(s, es, pid);
      }
    } else if Noticed(s, key, pid) || key in s.left || ViewOf(s.db, pid).ns == NamespaceStatus.Deleted {
      var es := RemoveByNotice(s, pid);
      CalmStays(s, es, key, pid);
      assert StaysAlive(s, es, key, pid) && pid !in Run(s, es).db.projects;
    } else {
      forall es | StaysAlive(s, es, key, pid) ensures pid in Run(s, es).db.projects {
        PinnedForAsLong(s, es, pid, key);
      }
    }
  }

  /** A namespace row turns DELETED, or a project ends before it did, only on delivery of a notice. */
  lemma EndsOnNotice(s: System, e: Event, pid: ProjectId)
    requires Inv(s) && pid in s.db.projects && ViewOf(s.db, pid).ns != NamespaceStatus.Deleted
    requires Inv(Step(s, e))
    requires pid in Step(s, e).db.projects ==> ViewOf(Step(s, e).db, pid).ns == NamespaceStatus.Deleted
    ensures e.Deliver? && e.f in s.feedback && Notice(e.f, KeyOf(s.db.projects[pid]), pid)
  {
    var v := ViewOf(s.db, pid);
    StepOne(s, e, pid, v);
    MovedByNotice(s, e, pid, v);
  }

  lemma MovedByNotice(s: System, e: Event, pid: ProjectId, v: View)
    requires Structure(s.db) && v.ns != NamespaceStatus.Deleted
    requires Closes(s, e, pid, v) || Moved(s, e, pid, v).ns == NamespaceStatus.Deleted
    ensures e.Deliver? && e.f in s.feedback && Notice(e.f, KeyOf(v.project), pid)
  {
    assert e.Deliver? && e.f in s.feedback;
    if !Notice(e.f, KeyOf(v.project), pid) {
      PinnedMessage(e.f, pid, v, s.now, KeyOf(v.project));
    }
  }
}
