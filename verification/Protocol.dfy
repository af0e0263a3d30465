/**
 * The control plane and the agents as one state machine. A step is one committed
 * transaction, one agent action, or a change made by someone else in a cluster. The
 * network is the set of everything ever published: any message may be delivered late,
 * repeatedly, out of order, or never.
 */
module Protocol {
  import opened Domain
  import opened Capacity
  import opened Lifecycle
  import opened QueueConfig
  import opened Consumer
  import opened Outbox

  // ----- the system

  /**
   * A namespace in a cluster: its project label and phase, whether deletion has begun,
   * whether the agent's finalizer holds it.
   */
  datatype ClusterNamespace = ClusterNamespace(tag: Option<ProjectId>, phase: string, terminating: bool, held: bool)

  /** What an agent saw before it published what can end a project; `Departed` is read from a lagging cache. */
  datatype Observation =
    | Absent(key: NamespaceKey, at: Time)
    | Departed(key: NamespaceKey, at: Time)
    | Foreign(key: NamespaceKey, project: ProjectId, at: Time)
    | Snapshot(cluster: ClusterId, names: set<string>, at: Time)

  /**
   * `limit` is the number of messages the broker takes in the next flush, none for all.
   * `left` and `had` are what lagging caches may still show: namespaces that have left,
   * and configurations a cluster had. `seen`, `born` and `marks` are history:
   * observations, project keys, deletion requests.
   */
  datatype System = System(
    db: Db, now: Time, nextId: ProjectId,
    sent: set<Outgoing>, feedback: set<Feedback>, limit: Option<nat>,
    configs: map<ClusterId, seq<ClusterQueue>>, live: map<NamespaceKey, ClusterNamespace>,
    left: set<NamespaceKey>, had: set<(ClusterId, seq<ClusterQueue>)>,
    seen: set<Observation>, born: map<ProjectId, NamespaceKey>, marks: map<ProjectId, Time>)

  const INIT := System(EMPTY_DB, 0, 0, {}, {}, None, map[], map[], {}, {}, {}, map[], map[])

  /** How the cluster answers the agent's delete call. */
  datatype DeleteOutcome = Accepted | Vanished | Refused

  datatype Event =
    | RequestCreate(cluster: ClusterId, healthy: bool, name: string, figures: Resources)
    | RequestEdit(project: ProjectId, figures: Resources)
    | RequestDelete(project: ProjectId)
    | Deliver(f: Feedback)
    | Tick
    | Broker(limit: Option<nat>)
    | ApplyAllocation(order: Outgoing)
    | PublishSnapshot(cluster: ClusterId)
    | PublishLate(cluster: ClusterId, queues: seq<ClusterQueue>)
    | ReleaseConfig(cluster: ClusterId, gone: bool)
    | PublishFailure(cluster: ClusterId, reason: Option<Reason>)
    | MakeNamespace(order: Outgoing, created: bool)
    | DropNamespace(order: Outgoing, outcome: DeleteOutcome)
    | Reconcile(key: NamespaceKey, patched: bool)
    | ReadLate(key: NamespaceKey)
    | Vanish(key: NamespaceKey)
    | ReportNodes(f: Feedback)
    | OutsideConfig(cluster: ClusterId, queues: seq<ClusterQueue>)
    | OutsideNamespace(key: NamespaceKey, ns: Option<ClusterNamespace>)
  {
    /** A transaction on the tables; everything else happens in a cluster. */
    predicate OnTables() {
      RequestCreate? || RequestEdit? || RequestDelete? || Deliver?
    }
  }

  function MapPhase(phase: string): NamespaceStatus {
    if phase == "Active" then NamespaceStatus.Active
    else if phase == "Terminating" then NamespaceStatus.Terminating
    else if phase == "Pending" then NamespaceStatus.Pending
    else NamespaceStatus.Failed
  }

  function NamesIn(allocations: seq<Allocation>): set<string> {
    set a | a in allocations :: a.name
  }

  function SetOf(out: seq<Outgoing>): set<Outgoing> {
    set m | m in out
  }

  /** A transaction commits, and the flush that follows gets through what the broker takes. */
  function Commit(s: System, t: Result<(Db, seq<Outgoing>)>): System {
    if t.Ok? then s.(db := t.value.0, sent := s.sent + SetOf(Flushed(t.value.1, s.limit))) else s
  }

  function Publish(s: System, f: Feedback): System {
    s.(feedback := s.feedback + {f})
  }

  function See(s: System, o: Observation): System {
    s.(seen := s.seen + {o})
  }

  /** The agent's report on a namespace it can read: by project when labelled, by name otherwise. */
  function StateReport(key: NamespaceKey, tag: Option<ProjectId>, state: NamespaceStatus): Feedback {
    if tag.Some? then NamespaceState(key.cluster, tag.value, state)
    else UnmanagedNamespace(key.cluster, key.name, state)
  }

  function SnapshotStep(s: System, c: ClusterId, allocations: seq<Allocation>): System {
    See(Publish(s, QuotaSnapshot(c, s.now, allocations)), Snapshot(c, NamesIn(allocations), s.now))
  }

  /** A namespace leaves the cluster. */
  function Depart(s: System, key: NamespaceKey): System {
    s.(live := s.live - {key}, left := s.left + {key})
  }

  /** A cluster gets a configuration. */
  function Configure(s: System, c: ClusterId, queues: seq<ClusterQueue>): System {
    s.(configs := s.configs[c := queues], had := s.had + {(c, queues)})
  }

  /** The agent's namespace delete handler. */
  function DropStep(s: System, key: NamespaceKey, pid: ProjectId, outcome: DeleteOutcome): System {
    var deleted := NamespaceState(key.cluster, pid, NamespaceStatus.Deleted);
    if key !in s.live then See(Publish(s, deleted), Absent(key, s.now))
    else if s.live[key].tag != Some(pid) then See(Publish(s, deleted), Foreign(key, pid, s.now))
    else match outcome
      case Accepted => s.(live := s.live[key := s.live[key].(terminating := true)])
      case Vanished => See(Publish(Depart(s, key), deleted), Absent(key, s.now))
      case Refused => Publish(s, NamespaceState(key.cluster, pid, NamespaceStatus.DeleteFailed))
  }

  /**
   * The agent's namespace controller, which runs only on namespaces that are or were
   * there; `patched` says whether the cluster takes its patch of the finalizer list.
   */
  function ReconcileStep(s: System, key: NamespaceKey, patched: bool): System {
    if key !in s.live then
      if key in s.left then See(Publish(s, NamespaceGone(key.cluster, key.name)), Absent(key, s.now)) else s
    else
      var ns := s.live[key];
      if ns.terminating then
        if ns.held then
          Publish(if patched then Hold(s, key, false) else s, StateReport(key, ns.tag, NamespaceStatus.Terminating))
        else s
      else if ns.held || patched then Publish(Hold(s, key, true), StateReport(key, ns.tag, MapPhase(ns.phase)))
      else s
  }

  function Hold(s: System, key: NamespaceKey, held: bool): System
    requires key in s.live
  {
    s.(live := s.live[key := s.live[key].(held := held)])
  }

  /** What a transaction does to the tables and what it enqueues. */
  function Transaction(s: System, e: Event): Result<(Db, seq<Outgoing>)>
    requires Structure(s.db) && e.OnTables()
  {
    match e
    case RequestCreate(c, healthy, name, figures) =>
      CreateProject(s.db, s.nextId, c, healthy, name, figures, s.now)
    case RequestEdit(pid, figures) => EditQuota(s.db, pid, figures, s.now)
    case RequestDelete(pid) => DeleteProject(s.db, pid, s.now)
    case Deliver(f) => if f in s.feedback then Handle(s.db, f, s.now) else Ok((s.db, []))
  }

  function TableStep(s: System, e: Event): System
    requires Structure(s.db) && e.OnTables()
  {
    var t := Transaction(s, e);
    if t.Err? then s
    else
      match e
      case RequestCreate(c, healthy, name, figures) =>
        Commit(s, t).(nextId := s.nextId + 1, born := s.born[s.nextId := NamespaceKey(c, name)])
      case RequestDelete(pid) => Commit(s, t).(marks := s.marks[pid := s.now])
      case _ => Commit(s, t)
  }

  function ClusterStep(s: System, e: Event): System
    requires !e.OnTables()
  {
    match e
    case Tick => s.(now := s.now + 1)
    case Broker(limit) => s.(limit := limit)
    case ApplyAllocation(m) =>
      if m in s.sent && m.Allocate? && m.cluster in s.configs
      then Configure(s, m.cluster, Build(m.vendor, m.allocations)) else s
    case PublishSnapshot(c) =>
      if c in s.configs && Report(s.configs[c]).Some? then SnapshotStep(s, c, Report(s.configs[c]).value) else s
    case PublishLate(c, queues) =>
      if (c, queues) in s.had && Report(queues).Some? then SnapshotStep(s, c, Report(queues).value) else s
    case ReleaseConfig(c, gone) =>
      if c in s.configs then
        SnapshotStep(s, c, []).(configs := if gone then s.configs - {c} else s.configs)
      else s
    case PublishFailure(c, reason) => Publish(s, QuotaFailure(c, s.now, reason))
    case MakeNamespace(m, created) =>
      if m in s.sent && m.CreateNamespace? then
        var key := NamespaceKey(m.cluster, m.name);
        var ns := ClusterNamespace(Some(m.project), "Active", false, false);
        if created && key !in s.live then s.(live := s.live[key := ns])
        else Publish(s, NamespaceState(m.cluster, m.project, NamespaceStatus.Failed))
      else s
    case DropNamespace(m, outcome) =>
      if m in s.sent && m.DeleteNamespace? then DropStep(s, NamespaceKey(m.cluster, m.name), m.project, outcome) else s
    case Reconcile(key, patched) => ReconcileStep(s, key, patched)
    case ReadLate(key) =>
      if key in s.left then See(Publish(s, NamespaceGone(key.cluster, key.name)), Departed(key, s.now)) else s
    case Vanish(key) =>
      if key in s.live && s.live[key].terminating && !s.live[key].held then Depart(s, key) else s
    case ReportNodes(f) => if f.NodeList? || f.NodeUpdate? || f.NodeDelete? then Publish(s, f) else s
    case OutsideConfig(c, queues) => Configure(s, c, queues)
    case OutsideNamespace(key, ns) =>
      if ns.Some? then s.(live := s.live[key := ns.value]) else if key in s.live then Depart(s, key) else s
  }

  function Step(s: System, e: Event): System
    requires Structure(s.db)
  {
    if e.OnTables() then TableStep(s, e) else ClusterStep(s, e)
  }

  // ----- what the history must show

  /** The namespace was seen absent, or read as gone from a cache. */
  predicate Gone(o: Observation, key: NamespaceKey) {
    (o.Absent? || o.Departed?) && o.key == key
  }

  /** The namespace was seen absent, read as gone after it had left, or seen to belong to something else. */
  ghost predicate NamespaceEvidence(seen: set<Observation>, key: NamespaceKey, pid: ProjectId, since: Time) {
    exists o :: o in seen && (Gone(o, key) || (o.Foreign? && o.project == pid && o.key == key)) && o.at >= since
  }

  /** A snapshot of the cluster's quotas, no older than `since`, did not name this one. */
  ghost predicate QuotaEvidence(seen: set<Observation>, p: Project, since: Time) {
    exists o :: o in seen && o.Snapshot? && o.cluster == p.cluster && p.name !in o.names && o.at >= since
  }

  // ----- the invariant

  /** What history says about one project, before its end is decided. */
  ghost predicate Sound(s: System, pid: ProjectId, v: View) {
    && ValidName(v.project.name)
    && pid in s.born && s.born[pid] == KeyOf(v.project)
    && v.quota.updatedAt <= s.now
    && v.quota.cluster == v.project.cluster
    && (!v.quota.status.Active() ==> v.project.status == ProjectStatus.Deleting)
    && (v.project.status == ProjectStatus.Deleting <==> pid in s.marks)
    && (pid in s.marks ==> s.marks[pid] <= s.now)
    && (v.quota.status == QuotaStatus.Deleting ==> v.quota.updatedAt >= s.marks[pid])
    && (v.quota.status == QuotaStatus.Deleted ==> QuotaEvidence(s.seen, v.project, s.marks[pid]))
    && (v.ns == NamespaceStatus.Deleted ==> NamespaceEvidence(s.seen, KeyOf(v.project), pid, 0))
  }

  ghost predicate Projects(s: System)
    requires Structure(s.db)
  {
    forall pid :: pid in s.db.projects ==> Sound(s, pid, ViewOf(s.db, pid)) && !ViewOf(s.db, pid).Finished()
  }

  /** Every message that can end a project was published after a matching observation. */
  ghost predicate Honest(s: System, f: Feedback) {
    match f
    case QuotaSnapshot(c, at, allocations) => at <= s.now && Snapshot(c, NamesIn(allocations), at) in s.seen
    case QuotaFailure(c, at, reason) => at <= s.now
    case NamespaceGone(c, name) => exists o :: o in s.seen && Gone(o, NamespaceKey(c, name))
    case NamespaceState(c, pid, state) =>
      state == NamespaceStatus.Deleted ==>
        pid in s.born && pid in s.marks && NamespaceEvidence(s.seen, s.born[pid], pid, s.marks[pid])
    case _ => true
  }

  ghost predicate Ordered(s: System, m: Outgoing) {
    m.DeleteNamespace? ==>
      && m.project in s.born && s.born[m.project] == NamespaceKey(m.cluster, m.name)
      && m.project in s.marks && s.marks[m.project] <= s.now
  }

  ghost predicate Inv(s: System) {
    && Structure(s.db)
    && Projects(s)
    && (forall f :: f in s.feedback ==> Honest(s, f))
    && (forall m :: m in s.sent ==> Ordered(s, m))
    && (forall pid :: pid in s.marks ==> pid in s.born)
    && (forall pid :: pid in s.born ==> pid < s.nextId)
    && (forall o :: o in s.seen && o.Foreign? ==> o.project in s.marks && o.at >= s.marks[o.project])
  }

  /** History only grows, and says the same about a project as before. */
  ghost predicate Extends(s: System, s': System) {
    && s.seen <= s'.seen && s.now <= s'.now
    && (forall pid :: pid in s.born ==> pid in s'.born && s'.born[pid] == s.born[pid])
    && (forall pid :: pid in s.marks ==> pid in s'.marks && s'.marks[pid] == s.marks[pid])
  }

  lemma SoundExtends(s: System, s': System, pid: ProjectId, v: View)
    requires Extends(s, s') && Sound(s, pid, v) && (pid in s'.marks ==> pid in s.marks)
    ensures Sound(s', pid, v)
  {
  }

  lemma MessagesExtend(s: System, s': System)
    requires Extends(s, s')
    ensures forall f :: Honest(s, f) ==> Honest(s', f)
    ensures forall m :: Ordered(s, m) ==> Ordered(s', m)
  {
    forall f | Honest(s, f) ensures Honest(s', f) {
      if f.NamespaceGone? {
        var o :| o in s.seen && Gone(o, NamespaceKey(f.cluster, f.name));
        assert o in s'.seen;
      }
    }
  }

  lemma SoundReviewed(s: System, pid: ProjectId, v: View)
    requires Sound(s, pid, v)
    ensures Sound(s, pid, v.Reviewed())
    ensures v.Reviewed().Finished() <==> v.Finished()
  {
  }

  /** A snapshot's verdict on a quota stays within what history shows. */
  lemma SoundVerdict(s: System, pid: ProjectId, v: View, at: Time, allocations: seq<Allocation>)
    requires Sound(s, pid, v) && at <= s.now
    requires Snapshot(v.project.cluster, NamesIn(allocations), at) in s.seen
    ensures Sound(s, pid, v.(quota := Verdict(v.quota, v.project.name, at, allocations, s.now)))
  {
    var q' := Verdict(v.quota, v.project.name, at, allocations, s.now);
    if q'.status == QuotaStatus.Deleted && v.quota.status == QuotaStatus.Deleting {
      FirstNamedFound(allocations, v.project.name);
      assert v.project.name !in NamesIn(allocations);
      assert at >= v.quota.updatedAt >= s.marks[pid];
    }
  }

  /** What a published message writes stays within what history shows. */
  lemma SoundTouched(s: System, f: Feedback, pid: ProjectId, v: View)
    requires Sound(s, pid, v) && Honest(s, f) && Touched(f, pid, v, s.now).Some?
    ensures Sound(s, pid, Touched(f, pid, v, s.now).value)
  {
    match f
    case QuotaSnapshot(c, at, allocations) => SoundVerdict(s, pid, v, at, allocations);
    case NamespaceGone(c, name) =>
      var o :| o in s.seen && Gone(o, NamespaceKey(c, name));
      assert o.at >= 0;
    case _ =>
  }

  // ----- every step keeps the invariant

  /** The evidence the history holds when project `pid` is removed. */
  ghost predicate Justified(s: System, pid: ProjectId)
    requires pid in s.db.projects
  {
    && s.db.projects[pid].status == ProjectStatus.Deleting && pid in s.marks
    && QuotaEvidence(s.seen, s.db.projects[pid], s.marks[pid])
    && NamespaceEvidence(s.seen, KeyOf(s.db.projects[pid]), pid, 0)
  }

  /** A step that leaves the tables alone. */
  lemma QuietStep(s: System, s': System)
    requires Inv(s) && Extends(s, s') && s'.db == s.db && s'.marks == s.marks && s'.born == s.born
    requires s'.nextId == s.nextId && s'.sent == s.sent
    requires forall f :: f in s'.feedback && f !in s.feedback ==> Honest(s', f)
    requires forall o :: o in s'.seen && o !in s.seen && o.Foreign? ==>
               o.project in s.marks && o.at >= s.marks[o.project]
    ensures Inv(s')
  {
    MessagesExtend(s, s');
    forall pid | pid in s.db.projects ensures Sound(s', pid, ViewOf(s.db, pid)) {
      SoundExtends(s, s', pid, ViewOf(s.db, pid));
    }
  }

  lemma DropInv(s: System, key: NamespaceKey, pid: ProjectId, outcome: DeleteOutcome)
    requires Inv(s) && Outgoing.DeleteNamespace(key.cluster, key.name, pid) in s.sent
    ensures Inv(DropStep(s, key, pid, outcome))
  {
    assert Ordered(s, Outgoing.DeleteNamespace(key.cluster, key.name, pid));
    assert NamespaceKey(key.cluster, key.name) == key;
    if key !in s.live {
      DeletedReport(s, s, key, pid, Absent(key, s.now));
    } else if s.live[key].tag != Some(pid) {
      DeletedReport(s, s, key, pid, Foreign(key, pid, s.now));
    } else if outcome.Vanished? {
      DeletedReport(s, Depart(s, key), key, pid, Absent(key, s.now));
    } else {
      QuietStep(s, DropStep(s, key, pid, outcome));
    }
  }

  /** A report that the namespace is deleted, made on evidence. */
  lemma DeletedReport(s: System, mid: System, key: NamespaceKey, pid: ProjectId, o: Observation)
    requires Inv(s) && pid in s.born && s.born[pid] == key && pid in s.marks && s.marks[pid] <= s.now
    requires mid == s.(live := mid.live, left := mid.left)
    requires o == Absent(key, s.now) || o == Foreign(key, pid, s.now)
    ensures Inv(See(Publish(mid, NamespaceState(key.cluster, pid, NamespaceStatus.Deleted)), o))
  {
    var s' := See(Publish(mid, NamespaceState(key.cluster, pid, NamespaceStatus.Deleted)), o);
    assert o in s'.seen && o.key == key && o.at >= s.marks[pid];
    QuietStep(s, s');
  }

  /** A notice that the namespace is gone, seen or read from a cache. */
  lemma GoneReport(s: System, key: NamespaceKey, o: Observation)
    requires Inv(s) && (o == Absent(key, s.now) || o == Departed(key, s.now))
    ensures Inv(See(Publish(s, NamespaceGone(key.cluster, key.name)), o))
  {
    var s' := See(Publish(s, NamespaceGone(key.cluster, key.name)), o);
    assert o in s'.seen && Gone(o, NamespaceKey(key.cluster, key.name));
    QuietStep(s, s');
  }

  lemma ReconcileInv(s: System, key: NamespaceKey, patched: bool)
    requires Inv(s)
    ensures Inv(ReconcileStep(s, key, patched)) && ReconcileStep(s, key, patched).db == s.db
  {
    if key in s.live {
      ReportInv(s, ReconcileStep(s, key, patched));
    } else if key in s.left {
      GoneReport(s, key, Absent(key, s.now));
    }
  }

  lemma SnapshotInv(s: System, c: ClusterId, allocations: seq<Allocation>)
    requires Inv(s)
    ensures Inv(SnapshotStep(s, c, allocations))
  {
    QuietStep(s, SnapshotStep(s, c, allocations));
  }

  /** A transaction that keeps every project sound. */
  lemma CommitInv(s: System, db': Db, out: seq<Outgoing>)
    requires Inv(s) && Structure(db') && Projects(s.(db := db'))
    requires forall m :: m in out ==> m.Allocate?
    ensures Inv(Commit(s, Ok((db', out))))
  {
    var s' := Commit(s, Ok((db', out)));
    forall pid | pid in db'.projects ensures Sound(s', pid, ViewOf(db', pid)) && !ViewOf(db', pid).Finished() {
      assert Sound(s.(db := db'), pid, ViewOf(db', pid));
    }
    MessagesExtend(s, s');
  }

  /** What a delivered message does to the projects, and what justifies a removal. */
  lemma HandleProjects(s: System, f: Feedback, db': Db)
    requires Inv(s) && f in s.feedback && Effect(s.db, f, s.now, db')
    ensures Projects(s.(db := db'))
    ensures forall pid :: pid in s.db.projects && pid !in db'.projects ==> Justified(s, pid)
  {
    var s' := s.(db := db');
    forall pid | pid in s.db.projects
      ensures pid in db'.projects ==> Sound(s', pid, ViewOf(db', pid)) && !ViewOf(db', pid).Finished()
      ensures pid !in db'.projects ==> Justified(s, pid)
    {
      var v := ViewOf(s.db, pid);
      if Touched(f, pid, v, s.now).Some? {
        SoundTouched(s, f, pid, v);
        SoundReviewed(s, pid, Touched(f, pid, v, s.now).value);
      }
    }
  }

  /** A request touches one project; the step keeps the invariant when that project stays sound. */
  lemma RequestStep(s: System, s': System, pid: ProjectId)
    requires Inv(s) && Structure(s'.db) && Extends(s, s') && s'.seen == s.seen && s'.feedback == s.feedback
    requires pid in s'.db.projects && Sound(s', pid, ViewOf(s'.db, pid)) && !ViewOf(s'.db, pid).Finished()
    requires forall x :: x in s'.db.projects && x != pid ==> x in s.db.projects && ViewOf(s'.db, x) == ViewOf(s.db, x)
    requires forall x :: x in s'.marks && x != pid ==> x in s.marks
    requires forall m :: m in s'.sent && m !in s.sent ==> Ordered(s', m)
    requires (forall x :: x in s'.marks ==> x in s'.born) && forall x :: x in s'.born ==> x < s'.nextId
    ensures Inv(s')
  {
    MessagesExtend(s, s');
    forall x | x in s'.db.projects && x != pid ensures Sound(s', x, ViewOf(s'.db, x)) {
      SoundExtends(s, s', x, ViewOf(s.db, x));
    }
  }

  /** The next id is unused. */
  lemma FreshId(s: System)
    requires Inv(s)
    ensures s.nextId !in s.db.projects && s.nextId !in s.marks && s.nextId !in s.born
  {
    forall pid | pid in s.db.projects ensures pid < s.nextId {
      assert Sound(s, pid, ViewOf(s.db, pid));
    }
  }

  lemma CreateInv(s: System, c: ClusterId, healthy: bool, name: string, figures: Resources)
    requires Inv(s)
    ensures Inv(Step(s, RequestCreate(c, healthy, name, figures)))
    ensures forall x :: x in s.db.projects ==> x in Step(s, RequestCreate(c, healthy, name, figures)).db.projects
  {
    var t := CreateProject(s.db, s.nextId, c, healthy, name, figures, s.now);
    if t.Ok? {
      FreshId(s);
      CreateViews(s.db, s.nextId, c, name, figures, s.now);
      CreatedInv(s, Step(s, RequestCreate(c, healthy, name, figures)), Project(name, c, ProjectStatus.Pending),
                 Quota(c, figures, QuotaStatus.Pending, None, s.now));
    }
  }

  /** A new project under the next id. */
  lemma CreatedInv(s: System, s': System, p: Project, q: Quota)
    requires Inv(s) && Structure(s'.db) && s.nextId !in s.db.projects && s.nextId !in s.marks && s.nextId !in s.born
    requires ValidName(p.name) && p.status == ProjectStatus.Pending
    requires q.cluster == p.cluster && q.status == QuotaStatus.Pending && q.updatedAt <= s.now
    requires s'.seen == s.seen && s'.feedback == s.feedback && s'.now == s.now && s'.marks == s.marks
    requires s'.born == s.born[s.nextId := KeyOf(p)] && s'.nextId == s.nextId + 1
    requires forall m :: m in s'.sent && m !in s.sent ==> !m.DeleteNamespace?
    requires forall x :: x in s'.db.projects <==> x in s.db.projects || x == s.nextId
    requires ViewOf(s'.db, s.nextId) == View(p, q, NamespaceStatus.Pending)
    requires forall x :: x in s.db.projects ==> ViewOf(s'.db, x) == ViewOf(s.db, x)
    ensures Inv(s')
  {
    NewIdExtends(s, s', KeyOf(p));
    NewSound(s', s.nextId, p, q);
    RequestStep(s, s', s.nextId);
  }

  lemma NewIdExtends(s: System, s': System, key: NamespaceKey)
    requires s.nextId !in s.born && s'.born == s.born[s.nextId := key]
    requires s'.seen == s.seen && s'.now == s.now && s'.marks == s.marks
    ensures Extends(s, s')
  {
  }

  lemma NewSound(s: System, pid: ProjectId, p: Project, q: Quota)
    requires ValidName(p.name) && p.status == ProjectStatus.Pending && pid !in s.marks
    requires q.cluster == p.cluster && q.status == QuotaStatus.Pending && q.updatedAt <= s.now
    requires pid in s.born && s.born[pid] == KeyOf(p)
    ensures var v := View(p, q, NamespaceStatus.Pending); Sound(s, pid, v) && !v.Finished()
  {
  }

  lemma EditInv(s: System, pid: ProjectId, figures: Resources)
    requires Inv(s)
    ensures Inv(Step(s, RequestEdit(pid, figures)))
    ensures Step(s, RequestEdit(pid, figures)).db.projects == s.db.projects
  {
    var t := EditQuota(s.db, pid, figures, s.now);
    if t.Ok? {
      EditViews(s.db, pid, figures, s.now);
      EditedInv(s, pid, figures, t.value.0, t.value.1);
    }
  }

  lemma EditedInv(s: System, pid: ProjectId, figures: Resources, db': Db, out: seq<Outgoing>)
    requires Inv(s) && Structure(db') && db'.projects == s.db.projects && pid in s.db.projects
    requires ViewOf(db', pid) == ViewOf(s.db, pid).(quota := Edited(ViewOf(s.db, pid).quota, figures, s.now))
    requires forall x :: x in s.db.projects && x != pid ==> ViewOf(db', x) == ViewOf(s.db, x)
    requires forall m :: m in out ==> m.Allocate?
    ensures Inv(Commit(s, Ok((db', out))))
  {
    var s' := Commit(s, Ok((db', out)));
    assert Sound(s, pid, ViewOf(s.db, pid));
    SameHistory(s, s');
    EditedSound(s, pid, ViewOf(s.db, pid), figures);
    SoundExtends(s, s', pid, ViewOf(db', pid));
    RequestStep(s, s', pid);
  }

  lemma EditedSound(s: System, pid: ProjectId, v: View, figures: Resources)
    requires Sound(s, pid, v)
    ensures var v' := v.(quota := Edited(v.quota, figures, s.now)); Sound(s, pid, v') && !v'.Finished()
  {
  }

  lemma SameHistory(s: System, s': System)
    requires s'.seen == s.seen && s'.now == s.now && s'.born == s.born && s'.marks == s.marks
    ensures Extends(s, s')
  {
  }

  lemma DeleteInv(s: System, pid: ProjectId)
    requires Inv(s)
    ensures Inv(Step(s, RequestDelete(pid)))
    ensures forall x :: x in s.db.projects ==> x in Step(s, RequestDelete(pid)).db.projects
  {
    var t := DeleteProject(s.db, pid, s.now);
    DeleteStep(s, pid);
    if t.Ok? {
      DeleteViews(s.db, pid, s.now);
      DeletedInv(s, pid, t.value.0, t.value.1);
    }
  }

  /** The step that a deletion request is, and what it enqueues. */
  lemma DeleteStep(s: System, pid: ProjectId)
    requires Structure(s.db)
    ensures var t := DeleteProject(s.db, pid, s.now);
            && (t.Err? ==> Step(s, RequestDelete(pid)) == s)
            && (t.Ok? ==>
                  && pid in s.db.projects && s.db.projects[pid].status != ProjectStatus.Deleting
                  && Step(s, RequestDelete(pid)) == Commit(s, t).(marks := s.marks[pid := s.now])
                  && forall m :: m in t.value.1 ==>
                       || m.Allocate?
                       || m == Outgoing.DeleteNamespace(s.db.projects[pid].cluster, s.db.projects[pid].name, pid))
  {
  }

  lemma DeletedSound(s: System, s': System, pid: ProjectId, v: View)
    requires Sound(s, pid, v) && v.project.status != ProjectStatus.Deleting
    requires s'.born == s.born && s'.seen == s.seen && s'.now == s.now && s'.marks == s.marks[pid := s.now]
    ensures Sound(s', pid, View(v.project.(status := ProjectStatus.Deleting),
                                Restated(v.quota, QuotaStatus.Deleting, None, s.now), NamespaceStatus.Terminating))
  {
  }

  lemma DeletedInv(s: System, pid: ProjectId, db': Db, out: seq<Outgoing>)
    requires Inv(s) && Structure(db') && (forall x :: x in db'.projects <==> x in s.db.projects) && pid in s.db.projects
    requires s.db.projects[pid].status != ProjectStatus.Deleting
    requires var v := ViewOf(s.db, pid);
             ViewOf(db', pid) == View(v.project.(status := ProjectStatus.Deleting),
                                      Restated(v.quota, QuotaStatus.Deleting, None, s.now), NamespaceStatus.Terminating)
    requires forall x :: x in s.db.projects && x != pid ==> ViewOf(db', x) == ViewOf(s.db, x)
    requires forall m :: m in out ==>
               m.Allocate? || m == Outgoing.DeleteNamespace(s.db.projects[pid].cluster, s.db.projects[pid].name, pid)
    ensures Inv(Commit(s, Ok((db', out))).(marks := s.marks[pid := s.now]))
  {
    var s' := Commit(s, Ok((db', out))).(marks := s.marks[pid := s.now]);
    assert Sound(s, pid, ViewOf(s.db, pid)) && pid !in s.marks;
    DeletedSound(s, s', pid, ViewOf(s.db, pid));
    MarkExtends(s, s', pid);
    DeletionOrdered(s', pid, s.db.projects[pid], out);
    assert !ViewOf(db', pid).Finished();
    RequestStep(s, s', pid);
  }

  lemma DeletionOrdered(s: System, pid: ProjectId, p: Project, out: seq<Outgoing>)
    requires pid in s.born && s.born[pid] == KeyOf(p) && pid in s.marks && s.marks[pid] <= s.now
    requires forall m :: m in out ==> m.Allocate? || m == Outgoing.DeleteNamespace(p.cluster, p.name, pid)
    ensures forall m :: m in SetOf(out) ==> Ordered(s, m)
  {
  }

  lemma ClusterInv(s: System, e: Event)
    requires Inv(s) && !e.OnTables()
    ensures Inv(ClusterStep(s, e)) && ClusterStep(s, e).db == s.db
  {
    ClusterGrows(s, e);
    match e
    case PublishSnapshot(c) =>
      if c in s.configs && Report(s.configs[c]).Some? { SnapshotInv(s, c, Report(s.configs[c]).value); }
    case PublishLate(c, queues) =>
      if (c, queues) in s.had && Report(queues).Some? { SnapshotInv(s, c, Report(queues).value); }
    case ReadLate(key) =>
      if key in s.left { GoneReport(s, key, Departed(key, s.now)); }
    case ReleaseConfig(c, gone) =>
      if c in s.configs { ReleaseInv(s, c, gone); }
    case DropNamespace(m, outcome) =>
      if m in s.sent && m.DeleteNamespace? { DropInv(s, NamespaceKey(m.cluster, m.name), m.project, outcome); }
    case Reconcile(key, patched) => ReconcileInv(s, key, patched);
    case _ => OutsideInv(s, e);
  }

  lemma ReleaseInv(s: System, c: ClusterId, gone: bool)
    requires Inv(s)
    ensures Inv(SnapshotStep(s, c, []).(configs := if gone then s.configs - {c} else s.configs))
  {
    var mid := SnapshotStep(s, c, []);
    SnapshotInv(s, c, []);
    QuietStep(mid, mid.(configs := if gone then s.configs - {c} else s.configs));
  }

  lemma OutsideInv(s: System, e: Event)
    requires Inv(s)
    requires e.Tick? || e.ApplyAllocation? || e.PublishFailure? || e.MakeNamespace? || e.ReportNodes?
          || e.OutsideConfig? || e.OutsideNamespace? || e.Vanish? || e.Broker?
    ensures Inv(ClusterStep(s, e)) && ClusterStep(s, e).db == s.db
  {
    if e.PublishFailure? || e.MakeNamespace? || e.ReportNodes? {
      ReportEvent(s, e);
      ReportInv(s, ClusterStep(s, e));
    } else {
      QuietEvent(s, e);
      QuietStep(s, ClusterStep(s, e));
    }
  }

  /** Events that publish nothing, and are seen by nobody. */
  lemma QuietEvent(s: System, e: Event)
    requires e.Tick? || e.ApplyAllocation? || e.OutsideConfig? || e.OutsideNamespace? || e.Vanish? || e.Broker?
    ensures Grows(s, ClusterStep(s, e))
    ensures ClusterStep(s, e).feedback == s.feedback && ClusterStep(s, e).seen == s.seen
  {
  }

  /** A report that ends no project. */
  predicate Harmless(f: Feedback, now: Time) {
    || (f.QuotaFailure? && f.at <= now) || f.NodeList? || f.NodeUpdate? || f.NodeDelete?
    || (f.NamespaceState? && f.state != NamespaceStatus.Deleted) || f.UnmanagedNamespace?
  }

  /** Events that publish such a report. */
  lemma ReportEvent(s: System, e: Event)
    requires e.PublishFailure? || e.MakeNamespace? || e.ReportNodes?
    ensures var s' := ClusterStep(s, e);
            && s' == s.(live := s'.live, feedback := s'.feedback) && s.feedback <= s'.feedback
            && forall f :: f in s'.feedback && f !in s.feedback ==> Harmless(f, s.now)
  {
  }

  lemma ReportInv(s: System, s': System)
    requires Inv(s) && s' == s.(live := s'.live, feedback := s'.feedback)
    requires forall f :: f in s'.feedback && f !in s.feedback ==> Harmless(f, s.now)
    ensures Inv(s')
  {
    SameHistory(s, s');
    QuietStep(s, s');
  }

  lemma DeliverInv(s: System, f: Feedback)
    requires Inv(s)
    ensures Inv(Step(s, Deliver(f)))
    ensures forall pid :: pid in s.db.projects && pid !in Step(s, Deliver(f)).db.projects ==> Justified(s, pid)
  {
    DeliverStep(s, f);
    if f in s.feedback && Handle(s.db, f, s.now).Ok? {
      HandledInv(s, f, Handle(s.db, f, s.now).value.0, Handle(s.db, f, s.now).value.1);
    }
  }

  /** The step that a delivery is. */
  lemma DeliverStep(s: System, f: Feedback)
    requires Structure(s.db)
    ensures var t := Handle(s.db, f, s.now);
            Step(s, Deliver(f)) == if f in s.feedback && t.Ok? then Commit(s, Ok((t.value.0, t.value.1))) else s
  {
    NothingCommitted(s);
  }

  lemma NothingCommitted(s: System)
    ensures Commit(s, Ok((s.db, []))) == s
  {
    assert s.sent + SetOf(Flushed([], s.limit)) == s.sent;
  }

  lemma HandledInv(s: System, f: Feedback, db': Db, out: seq<Outgoing>)
    requires Inv(s) && f in s.feedback && Handle(s.db, f, s.now) == Ok((db', out))
    ensures Inv(Commit(s, Ok((db', out))))
    ensures forall pid :: pid in s.db.projects && pid !in db'.projects ==> Justified(s, pid)
  {
    HandleEffect(s.db, f, s.now);
    HandleProjects(s, f, db');
    CommitInv(s, db', out);
  }

  /** Every step keeps the invariant, and removes a project only on evidence. */
  lemma StepInv(s: System, e: Event)
    requires Inv(s)
    ensures Inv(Step(s, e))
    ensures forall pid :: pid in s.db.projects && pid !in Step(s, e).db.projects ==> e.Deliver? && Justified(s, pid)
  {
    if e.RequestCreate? {
      CreateInv(s, e.cluster, e.healthy, e.name, e.figures);
    } else if e.RequestEdit? {
      EditInv(s, e.project, e.figures);
    } else if e.RequestDelete? {
      DeleteInv(s, e.project);
    } else if e.Deliver? {
      DeliverInv(s, e.f);
    } else {
      ClusterInv(s, e);
    }
  }

  /** The step ends the project. */
  predicate Closes(s: System, e: Event, pid: ProjectId, v: View) {
    e.Deliver? && e.f in s.feedback && Ends(e.f, pid, v, s.now)
  }

  /** One project after a step that does not end it. */
  function Moved(s: System, e: Event, pid: ProjectId, v: View): View
    requires Structure(s.db)
  {
    match e
    case RequestEdit(p, figures) =>
      if p == pid && EditQuota(s.db, p, figures, s.now).Ok? then v.(quota := Edited(v.quota, figures, s.now)) else v
    case RequestDelete(p) =>
      if p == pid && v.project.status != ProjectStatus.Deleting then
        View(v.project.(status := ProjectStatus.Deleting),
             Restated(v.quota, QuotaStatus.Deleting, None, s.now), NamespaceStatus.Terminating)
      else v
    case Deliver(f) => if f in s.feedback then After(f, pid, v, s.now) else v
    case _ => v
  }

  /** A project as it is created. */
  function NewView(e: Event, now: Time): View
    requires e.RequestCreate?
  {
    View(Project(e.name, e.cluster, ProjectStatus.Pending),
         Quota(e.cluster, e.figures, QuotaStatus.Pending, None, now), NamespaceStatus.Pending)
  }

  /** A step seen project by project; a new project carries the next unused id. */
  ghost predicate StepEffect(s: System, e: Event, db': Db)
    requires Structure(s.db)
  {
    && Structure(db')
    && (forall pid :: pid in s.db.projects ==>
          (pid in db'.projects <==> !Closes(s, e, pid, ViewOf(s.db, pid))))
    && (forall pid :: pid in s.db.projects && pid in db'.projects ==>
          ViewOf(db', pid) == Moved(s, e, pid, ViewOf(s.db, pid)))
    && (forall pid :: pid in db'.projects && pid !in s.db.projects ==>
          e.RequestCreate? && pid == s.nextId && ViewOf(db', pid) == NewView(e, s.now))
  }

  lemma DeliveredEffect(s: System, f: Feedback, db': Db)
    requires Structure(s.db) && f in s.feedback && Effect(s.db, f, s.now, db')
    ensures StepEffect(s, Deliver(f), db')
  {
    var e := Deliver(f);
    forall pid, v ensures Closes(s, e, pid, v) <==> Ends(f, pid, v, s.now) {}
    forall pid, v ensures Moved(s, e, pid, v) == After(f, pid, v, s.now) {}
  }

  lemma RejectedEffect(s: System, f: Feedback)
    requires Structure(s.db) && Handle(s.db, f, s.now).Err?
    ensures StepEffect(s, Deliver(f), s.db)
  {
    forall pid | pid in s.db.projects ensures Touched(f, pid, ViewOf(s.db, pid), s.now).None? {
      RejectedTouchesNothing(s.db, f, s.now, pid);
    }
  }

  lemma DeliverEffect(s: System, f: Feedback)
    requires Structure(s.db)
    ensures StepEffect(s, Deliver(f), Step(s, Deliver(f)).db)
  {
    if f in s.feedback {
      if Handle(s.db, f, s.now).Ok? {
        HandleEffect(s.db, f, s.now);
        DeliveredEffect(s, f, Handle(s.db, f, s.now).value.0);
      } else {
        RejectedEffect(s, f);
      }
    }
  }

  lemma CreatedEffect(s: System, e: Event, db': Db)
    requires Structure(s.db) && e.RequestCreate?
    requires Structure(db') && forall x :: x in db'.projects <==> x in s.db.projects || x == s.nextId
    requires ViewOf(db', s.nextId) == NewView(e, s.now)
    requires forall x :: x in s.db.projects ==> ViewOf(db', x) == ViewOf(s.db, x)
    ensures StepEffect(s, e, db')
  {
  }

  /** The step that a creation is. */
  lemma CreateStep(s: System, e: Event)
    requires Structure(s.db) && e.RequestCreate?
    ensures var t := CreateProject(s.db, s.nextId, e.cluster, e.healthy, e.name, e.figures, s.now);
            && (t.Err? ==> Step(s, e) == s)
            && (t.Ok? ==>
                  && ValidName(e.name) && !NameTaken(s.db, e.name)
                  && NamespaceKey(e.cluster, e.name) !in s.db.namespaces
                  && Step(s, e).db == WithProject(s.db, s.nextId, e.cluster, e.name, e.figures, s.now)
                  && Step(s, e) == Commit(s, t).(nextId := s.nextId + 1,
                                                 born := s.born[s.nextId := NamespaceKey(e.cluster, e.name)]))
  {
  }

  lemma CreateEffect(s: System, e: Event)
    requires Inv(s) && e.RequestCreate?
    ensures StepEffect(s, e, Step(s, e).db)
  {
    CreateStep(s, e);
    if CreateProject(s.db, s.nextId, e.cluster, e.healthy, e.name, e.figures, s.now).Ok? {
      FreshId(s);
      CreateViews(s.db, s.nextId, e.cluster, e.name, e.figures, s.now);
      CreatedEffect(s, e, WithProject(s.db, s.nextId, e.cluster, e.name, e.figures, s.now));
    }
  }

  lemma RewrittenEffect(s: System, e: Event, db': Db, pid: ProjectId)
    requires Structure(s.db) && (e.RequestEdit? || e.RequestDelete?) && pid in s.db.projects && e.project == pid
    requires Structure(db') && forall x :: x in db'.projects <==> x in s.db.projects
    requires ViewOf(db', pid) == Moved(s, e, pid, ViewOf(s.db, pid))
    requires forall x :: x in s.db.projects && x != pid ==> ViewOf(db', x) == ViewOf(s.db, x)
    ensures StepEffect(s, e, db')
  {
    forall x | x in s.db.projects
      ensures !Closes(s, e, x, ViewOf(s.db, x)) && (x != pid ==> Moved(s, e, x, ViewOf(s.db, x)) == ViewOf(s.db, x))
    {
      OthersStay(s, e, x, ViewOf(s.db, x));
    }
  }

  lemma OthersStay(s: System, e: Event, x: ProjectId, v: View)
    requires Structure(s.db) && (e.RequestEdit? || e.RequestDelete?)
    ensures !Closes(s, e, x, v) && (e.project != x ==> Moved(s, e, x, v) == v)
  {
  }

  lemma EditEffect(s: System, e: Event)
    requires Structure(s.db) && e.RequestEdit?
    ensures StepEffect(s, e, Step(s, e).db)
  {
    var t := EditQuota(s.db, e.project, e.figures, s.now);
    if t.Ok? {
      EditViews(s.db, e.project, e.figures, s.now);
      RewrittenEffect(s, e, t.value.0, e.project);
    }
  }

  lemma DeleteEffect(s: System, e: Event)
    requires Structure(s.db) && e.RequestDelete?
    ensures StepEffect(s, e, Step(s, e).db)
  {
    var t := DeleteProject(s.db, e.project, s.now);
    if t.Ok? {
      DeleteViews(s.db, e.project, s.now);
      RewrittenEffect(s, e, t.value.0, e.project);
    }
  }

  /** What one step does to every project. */
  lemma StepProjects(s: System, e: Event)
    requires Inv(s)
    ensures StepEffect(s, e, Step(s, e).db)
  {
    if e.RequestCreate? {
      CreateEffect(s, e);
    } else if e.RequestEdit? {
      EditEffect(s, e);
    } else if e.RequestDelete? {
      DeleteEffect(s, e);
    } else if e.Deliver? {
      DeliverEffect(s, e.f);
    } else {
      ClusterInv(s, e);
      QuietEffect(s, e);
    }
  }

  lemma QuietEffect(s: System, e: Event)
    requires Structure(s.db) && !e.OnTables()
    ensures StepEffect(s, e, s.db)
  {
  }

  /** History only grows, and ids are never reused. */
  lemma StepHistory(s: System, e: Event)
    requires Inv(s)
    ensures Extends(s, Step(s, e)) && s.nextId <= Step(s, e).nextId
  {
    if e.RequestDelete? {
      DeleteHistory(s, e.project);
    } else if e.RequestCreate? {
      CreateHistory(s, e);
    } else if e.OnTables() {
      WriteHistory(s, e);
    } else {
      PlainHistory(s, e);
    }
  }

  /** An edit or a delivery leaves history as it is. */
  lemma WriteHistory(s: System, e: Event)
    requires Structure(s.db) && (e.RequestEdit? || e.Deliver?)
    ensures Extends(s, Step(s, e)) && s.nextId == Step(s, e).nextId
  {
    SameHistory(s, Step(s, e));
  }

  lemma DeleteHistory(s: System, pid: ProjectId)
    requires Inv(s)
    ensures Extends(s, Step(s, RequestDelete(pid))) && s.nextId == Step(s, RequestDelete(pid)).nextId
  {
    DeleteStep(s, pid);
    if DeleteProject(s.db, pid, s.now).Ok? {
      assert pid !in s.marks by { assert Sound(s, pid, ViewOf(s.db, pid)); }
      MarkExtends(s, Step(s, RequestDelete(pid)), pid);
    }
  }

  lemma CreateHistory(s: System, e: Event)
    requires Inv(s) && e.RequestCreate?
    ensures Extends(s, Step(s, e)) && s.nextId <= Step(s, e).nextId
  {
    FreshId(s);
    CreateStep(s, e);
    if CreateProject(s.db, s.nextId, e.cluster, e.healthy, e.name, e.figures, s.now).Ok? {
      NewIdExtends(s, Step(s, e), NamespaceKey(e.cluster, e.name));
    }
  }

  lemma MarkExtends(s: System, s': System, pid: ProjectId)
    requires pid !in s.marks && s'.marks == s.marks[pid := s.now] && s'.born == s.born
    requires s'.seen == s.seen && s'.now == s.now && s'.nextId == s.nextId
    ensures Extends(s, s')
  {
  }

  lemma PlainHistory(s: System, e: Event)
    requires !e.OnTables()
    ensures Extends(s, ClusterStep(s, e)) && s.nextId == ClusterStep(s, e).nextId
  {
    ClusterGrows(s, e);
    GrowsExtends(s, ClusterStep(s, e));
  }

  /** A step in a cluster leaves the tables and the orders alone, and only adds to what was said and seen. */
  ghost predicate Grows(s: System, s': System) {
    && s'.db == s.db && s'.sent == s.sent && s'.marks == s.marks && s'.born == s.born && s'.nextId == s.nextId
    && s.seen <= s'.seen && s.feedback <= s'.feedback && s.now <= s'.now
  }

  lemma GrowsExtends(s: System, s': System)
    requires Grows(s, s')
    ensures Extends(s, s')
  {
  }

  lemma SnapshotGrows(s: System, c: ClusterId, allocations: seq<Allocation>)
    ensures Grows(s, SnapshotStep(s, c, allocations))
  {
  }

  lemma DropGrows(s: System, key: NamespaceKey, pid: ProjectId, outcome: DeleteOutcome)
    ensures Grows(s, DropStep(s, key, pid, outcome))
  {
  }

  lemma ReconcileGrows(s: System, key: NamespaceKey, patched: bool)
    ensures Grows(s, ReconcileStep(s, key, patched))
  {
  }

  /** A report about a namespace. */
  predicate OnNamespace(f: Feedback) {
    f.NamespaceState? || f.NamespaceGone? || f.UnmanagedNamespace?
  }

  lemma DropSays(s: System, key: NamespaceKey, q: ProjectId, outcome: DeleteOutcome, f: Feedback)
    requires f in DropStep(s, key, q, outcome).feedback && f !in s.feedback
    ensures OnNamespace(f)
  {
  }

  lemma ReconcileSays(s: System, key: NamespaceKey, patched: bool, f: Feedback)
    requires f in ReconcileStep(s, key, patched).feedback && f !in s.feedback
    ensures OnNamespace(f)
  {
  }

  lemma ClusterGrows(s: System, e: Event)
    requires !e.OnTables()
    ensures Grows(s, ClusterStep(s, e))
  {
    match e
    case PublishSnapshot(c) =>
      if c in s.configs && Report(s.configs[c]).Some? { SnapshotGrows(s, c, Report(s.configs[c]).value); }
    case PublishLate(c, queues) => if Report(queues).Some? { SnapshotGrows(s, c, Report(queues).value); }
    case ReleaseConfig(c, gone) => SnapshotGrows(s, c, []);
    case DropNamespace(m, outcome) =>
      if m in s.sent && m.DeleteNamespace? { DropGrows(s, NamespaceKey(m.cluster, m.name), m.project, outcome); }
    case Reconcile(key, patched) => ReconcileGrows(s, key, patched);
    case ReadLate(key) =>
    case _ =>
      if e.PublishFailure? || e.MakeNamespace? || e.ReportNodes? { ReportEvent(s, e); } else { QuietEvent(s, e); }
  }

  /** Everything a transaction leaves alone. */
  ghost predicate SameClusters(s: System, s': System) {
    && s'.live == s.live && s'.left == s.left && s'.configs == s.configs && s'.had == s.had
    && s'.feedback == s.feedback && s'.limit == s.limit && s'.now == s.now
  }

  /** A transaction leaves the clusters and what they published alone, and only adds to the orders. */
  lemma TablesKeepCluster(s: System, e: Event)
    requires Structure(s.db) && e.OnTables()
    ensures SameClusters(s, Step(s, e)) && s.sent <= Step(s, e).sent
  {
    CommitKeepsCluster(s, Transaction(s, e));
  }

  lemma CommitKeepsCluster(s: System, t: Result<(Db, seq<Outgoing>)>)
    ensures SameClusters(s, Commit(s, t)) && s.sent <= Commit(s, t).sent
  {
  }

  /** What an event enqueues: nothing unless it is a transaction that commits. */
  function Enqueued(s: System, e: Event): seq<Outgoing>
    requires Structure(s.db)
  {
    if e.OnTables() && Transaction(s, e).Ok? then Transaction(s, e).value.1 else []
  }

  /** What an event sends, and what it leaves in the tables. */
  lemma StepSends(s: System, e: Event)
    requires Structure(s.db)
    ensures Step(s, e).sent == s.sent + SetOf(Flushed(Enqueued(s, e), s.limit))
    ensures e.OnTables() && Transaction(s, e).Ok? ==> Step(s, e).db == Transaction(s, e).value.0
    ensures !(e.OnTables() && Transaction(s, e).Ok?) ==> Step(s, e).db == s.db
  {
    if !e.OnTables() {
      ClusterGrows(s, e);
    }
  }

  /** A broker that takes everything gets all of it. */
  lemma NothingLost(s: System, e: Event, m: Outgoing)
    requires Structure(s.db) && s.limit.None? && m in Enqueued(s, e)
    ensures m in Step(s, e).sent
  {
    StepSends(s, e);
  }

  /** What was ordered and what was published stays so. */
  lemma MessagesKept(s: System, e: Event)
    requires Structure(s.db)
    ensures s.sent <= Step(s, e).sent && s.feedback <= Step(s, e).feedback
  {
    if e.OnTables() {
      TablesKeepCluster(s, e);
    } else {
      ClusterGrows(s, e);
    }
  }

  // ----- whole runs

  /** The states a run can reach, from any state that satisfies the invariant. */
  function Run(s: System, es: seq<Event>): (s': System)
    requires Inv(s)
    ensures Inv(s')
    decreases es
  {
    if es == [] then s
    else
      StepInv(s, es[0]);
      Run(Step(s, es[0]), es[1..])
  }

  lemma InitInv()
    ensures Inv(INIT)
  {
  }

  /** Where these events lead from the empty system: every reachable state is one of these. */
  function Reached(es: seq<Event>): (s: System)
    ensures Inv(INIT) && Inv(s) && s == Run(INIT, es)
  {
    InitInv();
    Run(INIT, es)
  }
}
