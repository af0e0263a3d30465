/**
 * The feedback consumer: one transaction per message, and what it does to each project.
 */
module Consumer {
  import opened Domain
  import opened Capacity
  import opened Lifecycle
  import Nodes

  /** New node rows; when they differ from the old ones the allocations are sent again. */
  function OnNodes(db: Db, c: ClusterId, rows: seq<Node>): (Db, seq<Outgoing>) {
    if rows == NodesOf(db, c) then (db, [])
    else
      var db' := db.(nodes := db.nodes[c := rows]);
      (db', [AllocationMessage(db', c)])
  }

  function Silent(r: Result<Db>): Result<(Db, seq<Outgoing>)> {
    match r
    case Ok(db) => Ok((db, []))
    case Err(error) => Err(error)
  }

  /** The dispatch on the message type; an error rolls the transaction back. */
  function Handle(db: Db, f: Feedback, now: Time): Result<(Db, seq<Outgoing>)>
    requires Structure(db)
  {
    match f
    case QuotaSnapshot(c, at, allocations) => Ok((OnQuotaSnapshot(db, c, at, allocations, now), []))
    case QuotaFailure(c, at, reason) => Ok((OnQuotaFailure(db, c, at, reason), []))
    case NamespaceState(c, pid, state) => Silent(OnNamespaceState(db, c, pid, state))
    case NamespaceGone(c, name) => Silent(OnNamespaceGone(db, c, name))
    case UnmanagedNamespace(c, name, state) => Ok((OnUnmanagedNamespace(db, c, name, state), []))
    case NodeList(c, at, reports) =>
      if Nodes.UniqueReports(reports) then Ok(OnNodes(db, c, Nodes.Synced(NodesOf(db, c), reports, at)))
      else Err(Conflict)
    case NodeUpdate(c, at, report) =>
      var r := Nodes.Updated(NodesOf(db, c), report, at);
      if r.Ok? then Ok(OnNodes(db, c, r.value)) else Err(r.error)
    case NodeDelete(c, name) => Ok(OnNodes(db, c, Nodes.Removed(NodesOf(db, c), name)))
  }

  /**
   * The components of a project after a message has written one of them, before the
   * project is reviewed or removed; none when the message does not concern it.
   */
  function Touched(f: Feedback, pid: ProjectId, v: View, now: Time): Option<View> {
    match f
    case QuotaSnapshot(c, at, allocations) =>
      if v.project.cluster == c && Affected(v.quota, v.project.name, at, allocations)
      then Some(v.(quota := Verdict(v.quota, v.project.name, at, allocations, now))) else None
    case QuotaFailure(c, at, reason) =>
      if v.project.cluster == c && Failing(v.quota, at)
      then Some(v.(quota := Restated(v.quota, QuotaStatus.Failed, reason, at))) else None
    case NamespaceState(c, p, state) => if p == pid && v.project.cluster == c then Some(v.(ns := state)) else None
    case NamespaceGone(c, name) =>
      if KeyOf(v.project) == NamespaceKey(c, name) then Some(v.(ns := NamespaceStatus.Deleted)) else None
    case _ => None
  }

  /** The message ends the project. */
  predicate Ends(f: Feedback, pid: ProjectId, v: View, now: Time) {
    Touched(f, pid, v, now).Some? && Touched(f, pid, v, now).value.Finished()
  }

  function After(f: Feedback, pid: ProjectId, v: View, now: Time): View {
    if Touched(f, pid, v, now).Some? then Touched(f, pid, v, now).value.Reviewed() else v
  }

  /** The project after the message, unless it ends. */
  function Outcome(f: Feedback, pid: ProjectId, v: View, now: Time): Option<View> {
    if Ends(f, pid, v, now) then None else Some(After(f, pid, v, now))
  }

  function Ended(db: Db, f: Feedback, now: Time): set<ProjectId>
    requires Structure(db)
  {
    set pid | pid in db.projects && Ends(f, pid, ViewOf(db, pid), now)
  }

  /** The tables after a message, seen project by project. */
  ghost predicate Effect(db: Db, f: Feedback, now: Time, db': Db)
    requires Structure(db)
  {
    && Structure(db')
    && db'.order == Without(db.order, Ended(db, f, now))
    && (forall pid :: pid in db'.projects <==> pid in db.projects && !Ends(f, pid, ViewOf(db, pid), now))
    && (forall pid :: pid in db'.projects ==> ViewOf(db', pid) == After(f, pid, ViewOf(db, pid), now))
  }

  lemma SettledEffect(db: Db, f: Feedback, now: Time, upd: map<ProjectId, Quota>)
    requires Structure(db) && Updates(db, upd) && (f.QuotaSnapshot? || f.QuotaFailure?)
    requires forall pid :: pid in db.projects ==>
               Touched(f, pid, ViewOf(db, pid), now) == if pid in upd then Some(WithQuota(db, upd, pid)) else None
    ensures Effect(db, f, now, Settled(db, upd))
  {
    TouchedLeaving(db, f, now, upd);
    assert Ended(db, f, now) == Leaving(db, upd);
    SettledViews(db, upd);
  }

  lemma TouchedLeaving(db: Db, f: Feedback, now: Time, upd: map<ProjectId, Quota>)
    requires Structure(db) && Updates(db, upd)
    requires forall pid :: pid in db.projects ==>
               Touched(f, pid, ViewOf(db, pid), now) == if pid in upd then Some(WithQuota(db, upd, pid)) else None
    ensures forall pid :: pid in db.projects ==> (Ends(f, pid, ViewOf(db, pid), now) <==> pid in Leaving(db, upd))
    ensures forall pid :: pid in db.projects ==>
              After(f, pid, ViewOf(db, pid), now) ==
                if pid in upd then WithQuota(db, upd, pid).Reviewed() else ViewOf(db, pid)
  {
  }

  lemma QuotaEffect(db: Db, f: Feedback, now: Time)
    requires Structure(db) && (f.QuotaSnapshot? || f.QuotaFailure?)
    ensures Effect(db, f, now, Handle(db, f, now).value.0)
  {
    var upd := if f.QuotaSnapshot? then Verdicts(db, f.cluster, f.at, f.allocations, now)
               else Failures(db, f.cluster, f.at, f.reason);
    SettledEffect(db, f, now, upd);
  }

  /** A message that writes one project's namespace, with `v` what it leaves before the review. */
  lemma OneTouched(db: Db, f: Feedback, now: Time, db': Db, pid: ProjectId, v: View)
    requires Structure(db) && pid in db.projects
    requires forall x :: x in db.projects ==> Touched(f, x, ViewOf(db, x), now) == if x == pid then Some(v) else None
    requires Structure(db') && Single(db, db', pid, v)
    ensures Effect(db, f, now, db')
  {
    TouchedOnly(db, f, now, pid, v);
    EndedOnly(db, f, now, pid, v);
    EffectViews(db, f, now, db', pid, v);
  }

  lemma EndedOnly(db: Db, f: Feedback, now: Time, pid: ProjectId, v: View)
    requires Structure(db) && pid in db.projects
    requires forall x :: x in db.projects ==> (Ends(f, x, ViewOf(db, x), now) <==> x == pid && v.Finished())
    ensures Ended(db, f, now) == if v.Finished() then {pid} else {}
  {
  }

  lemma EffectViews(db: Db, f: Feedback, now: Time, db': Db, pid: ProjectId, v: View)
    requires Complete(db) && Complete(db') && pid in db.projects && Single(db, db', pid, v)
    requires forall x :: x in db.projects ==> (Ends(f, x, ViewOf(db, x), now) <==> x == pid && v.Finished())
    requires forall x :: x in db.projects ==>
               After(f, x, ViewOf(db, x), now) == if x == pid then v.Reviewed() else ViewOf(db, x)
    ensures forall x :: x in db'.projects <==> x in db.projects && !Ends(f, x, ViewOf(db, x), now)
    ensures forall x :: x in db'.projects ==> ViewOf(db', x) == After(f, x, ViewOf(db, x), now)
  {
    forall x | x in db'.projects ensures x in db.projects && ViewOf(db', x) == After(f, x, ViewOf(db, x), now) {
      if x != pid { assert ViewOf(db', x) == ViewOf(db, x); }
    }
  }

  lemma TouchedOnly(db: Db, f: Feedback, now: Time, pid: ProjectId, v: View)
    requires Complete(db) && pid in db.projects
    requires forall x :: x in db.projects ==> Touched(f, x, ViewOf(db, x), now) == if x == pid then Some(v) else None
    ensures forall x :: x in db.projects ==> (Ends(f, x, ViewOf(db, x), now) <==> x == pid && v.Finished())
    ensures forall x :: x in db.projects ==>
              After(f, x, ViewOf(db, x), now) == if x == pid then v.Reviewed() else ViewOf(db, x)
  {
  }

  lemma NamespaceEffect(db: Db, f: Feedback, now: Time, pid: ProjectId, state: NamespaceStatus)
    requires Structure(db) && pid in db.projects
    requires forall x :: x in db.projects ==>
               Touched(f, x, ViewOf(db, x), now) == if x == pid then Some(ViewOf(db, x).(ns := state)) else None
    ensures Effect(db, f, now, NamespaceSettled(db, pid, state))
  {
    NamespaceSettledViews(db, pid, state);
    OneTouched(db, f, now, NamespaceSettled(db, pid, state), pid, ViewOf(db, pid).(ns := state));
  }

  lemma GoneEffect(db: Db, f: Feedback, now: Time)
    requires Structure(db) && f.NamespaceGone? && Handle(db, f, now).Ok?
    ensures Effect(db, f, now, Handle(db, f, now).value.0)
  {
    var k := NamespaceKey(f.cluster, f.name);
    if db.namespaces[k].owner.Some? {
      assert OwnerPresent(db, k);
      var pid := db.namespaces[k].owner.value;
      forall x | x in db.projects ensures KeyOf(db.projects[x]) == k <==> x == pid {
        assert Owned(db, x);
      }
      NamespaceEffect(db, f, now, pid, NamespaceStatus.Deleted);
    } else {
      forall x | x in db.projects ensures KeyOf(db.projects[x]) != k {
        assert Owned(db, x);
      }
      UnownedViews(db, db.(namespaces := db.namespaces - {k}), k);
      WithoutNothing(db.order);
      assert Ended(db, f, now) == {};
    }
  }

  lemma BystanderView(f: Feedback, pid: ProjectId, v: View, now: Time)
    requires f.UnmanagedNamespace? || f.NodeList? || f.NodeUpdate? || f.NodeDelete?
    ensures !Ends(f, pid, v, now) && After(f, pid, v, now) == v
  {
  }

  /** A message about no project leaves all of them as they are. */
  lemma BystanderEffect(db: Db, f: Feedback, now: Time, db': Db)
    requires Structure(db) && (f.UnmanagedNamespace? || f.NodeList? || f.NodeUpdate? || f.NodeDelete?)
    requires Structure(db') && db'.projects == db.projects && db'.order == db.order
    requires forall pid :: pid in db.projects ==> ViewOf(db', pid) == ViewOf(db, pid)
    ensures Effect(db, f, now, db')
  {
    WithoutNothing(db.order);
    forall pid | pid in db.projects
      ensures !Ends(f, pid, ViewOf(db, pid), now) && After(f, pid, ViewOf(db, pid), now) == ViewOf(db, pid)
    {
      BystanderView(f, pid, ViewOf(db, pid), now);
    }
    assert Ended(db, f, now) == {};
  }

  lemma UnmanagedEffect(db: Db, f: Feedback, now: Time)
    requires Structure(db) && f.UnmanagedNamespace?
    ensures Effect(db, f, now, OnUnmanagedNamespace(db, f.cluster, f.name, f.state))
  {
    var k := NamespaceKey(f.cluster, f.name);
    if !(k in db.namespaces && db.namespaces[k].owner.Some?) {
      UnownedViews(db, WriteNamespace(db, k, Namespace(None, f.state)), k);
    }
    BystanderEffect(db, f, now, OnUnmanagedNamespace(db, f.cluster, f.name, f.state));
  }

  lemma NodesEffect(db: Db, f: Feedback, now: Time, c: ClusterId, rows: seq<Node>)
    requires Structure(db) && (f.NodeList? || f.NodeUpdate? || f.NodeDelete?)
    ensures Effect(db, f, now, OnNodes(db, c, rows).0)
  {
    NodesViews(db, db.nodes);
    NodesViews(db, db.nodes[c := rows]);
    BystanderEffect(db, f, now, db);
    BystanderEffect(db, f, now, db.(nodes := db.nodes[c := rows]));
  }

  /** A rejected message concerned no project. */
  lemma RejectedTouchesNothing(db: Db, f: Feedback, now: Time, pid: ProjectId)
    requires Structure(db) && pid in db.projects && Handle(db, f, now).Err?
    ensures Touched(f, pid, ViewOf(db, pid), now).None?
  {
    assert Owned(db, pid);
  }

  /**
   * Every message, pointwise: a project it concerns is written, then removed if both its
   * components are deleted and otherwise given the status they call for; every other
   * project keeps its project row, quota and namespace status.
   */
  lemma HandleEffect(db: Db, f: Feedback, now: Time)
    requires Structure(db) && Handle(db, f, now).Ok?
    ensures Effect(db, f, now, Handle(db, f, now).value.0)
    ensures forall m :: m in Handle(db, f, now).value.1 ==> m.Allocate?
  {
    match f
    case QuotaSnapshot(c, at, allocations) => QuotaEffect(db, f, now);
    case QuotaFailure(c, at, reason) => QuotaEffect(db, f, now);
    case NamespaceState(c, pid, state) => NamespaceEffect(db, f, now, pid, state);
    case NamespaceGone(c, name) => GoneEffect(db, f, now);
    case UnmanagedNamespace(c, name, state) => UnmanagedEffect(db, f, now);
    case NodeList(c, at, reports) => NodesEffect(db, f, now, c, Nodes.Synced(NodesOf(db, c), reports, at));
    case NodeUpdate(c, at, report) => NodesEffect(db, f, now, c, Nodes.Updated(NodesOf(db, c), report, at).value);
    case NodeDelete(c, name) => NodesEffect(db, f, now, c, Nodes.Removed(NodesOf(db, c), name));
  }

  /** The unique index on node names holds after every message. */
  lemma RowsStayUnique(db: Db, f: Feedback, now: Time, c: ClusterId)
    requires Structure(db) && Handle(db, f, now).Ok? && Nodes.UniqueRows(NodesOf(db, c))
    ensures Nodes.UniqueRows(NodesOf(Handle(db, f, now).value.0, c))
  {
    if f.cluster == c {
      match f
      case NodeList(_, at, reports) => Nodes.SyncedUnique(NodesOf(db, c), reports, at);
      case NodeUpdate(_, at, report) => Nodes.UpdatedUnique(NodesOf(db, c), report, at);
      case NodeDelete(_, name) => Nodes.RemovedUnique(NodesOf(db, c), name);
      case _ =>
    }
  }

  // ----- redelivery and stale feedback

  /** Equal up to the time of the last write. */
  predicate SameButTime(v: View, w: View) {
    v == w.(quota := w.quota.(updatedAt := v.quota.updatedAt))
  }

  lemma AfterTwice(f: Feedback, pid: ProjectId, v: View, now: Time, later: Time)
    requires !Ends(f, pid, v, now)
    ensures !Ends(f, pid, After(f, pid, v, now), later)
    ensures SameButTime(After(f, pid, After(f, pid, v, now), later), After(f, pid, v, now))
  {
  }

  /**
   * Redelivery: handling a message a second time, at any later moment, removes nothing
   * more and leaves every project with the same status, figures and reason.
   */
  lemma RedeliveryIdempotent(db: Db, f: Feedback, now: Time, later: Time)
    requires Structure(db) && Handle(db, f, now).Ok? && Structure(Handle(db, f, now).value.0)
    requires Handle(Handle(db, f, now).value.0, f, later).Ok?
    ensures var once := Handle(db, f, now).value.0;
            var twice := Handle(once, f, later).value.0;
            && Structure(twice) && twice.projects.Keys == once.projects.Keys
            && forall pid :: pid in once.projects ==> SameButTime(ViewOf(twice, pid), ViewOf(once, pid))
  {
    var once := Handle(db, f, now).value.0;
    HandleEffect(db, f, now);
    HandleEffect(once, f, later);
    forall pid | pid in once.projects
      ensures !Ends(f, pid, ViewOf(once, pid), later)
           && SameButTime(After(f, pid, ViewOf(once, pid), later), ViewOf(once, pid))
    {
      AfterTwice(f, pid, ViewOf(db, pid), now, later);
    }
  }

  /**
   * A node message whose transaction committed enqueues nothing when it is delivered
   * again: if the flush after the commit failed, redelivery does not send the lost
   * allocation.
   */
  lemma NodeMessageOnce(db: Db, f: Feedback, now: Time, later: Time)
    requires Structure(db) && (f.NodeList? || f.NodeUpdate? || f.NodeDelete?)
    requires Handle(db, f, now).Ok? && Structure(Handle(db, f, now).value.0)
    ensures var db' := Handle(db, f, now).value.0; Handle(db', f, later) == Ok((db', []))
  {
    var rows := NodesOf(db, f.cluster);
    match f
    case NodeList(_, at, reports) => Nodes.SyncAchieves(rows, reports, at);
    case NodeUpdate(_, at, report) => Nodes.UpdatedTwice(rows, report, at);
    case NodeDelete(_, name) => Nodes.RemovedTwice(rows, name);
  }

  /** No message sends anything when it is delivered again. */
  lemma RedeliverySendsNothing(db: Db, f: Feedback, now: Time, later: Time)
    requires Structure(db) && Handle(db, f, now).Ok? && Structure(Handle(db, f, now).value.0)
    requires Handle(Handle(db, f, now).value.0, f, later).Ok?
    ensures Handle(Handle(db, f, now).value.0, f, later).value.1 == []
  {
    if f.NodeList? || f.NodeUpdate? || f.NodeDelete? {
      NodeMessageOnce(db, f, now, later);
    }
  }

  /** The instant a quota message speaks about. */
  function StampOf(f: Feedback): Time
    requires f.QuotaSnapshot? || f.QuotaFailure?
  {
    f.at
  }

  /**
   * Stale feedback: a quota written after the message's stamp keeps its row, and its
   * project its status. A quota's time of last write moves back only where a quota under
   * deletion is marked DELETED by a control plane whose clock is behind the quota's.
   */
  lemma StaleFeedbackHarmless(db: Db, f: Feedback, now: Time)
    requires Structure(db) && (f.QuotaSnapshot? || f.QuotaFailure?)
    ensures var db' := Handle(db, f, now).value.0;
            Structure(db') && forall pid :: pid in db.projects ==>
              && (ViewOf(db, pid).quota.updatedAt > StampOf(f) ==>
                    pid in db'.projects && ViewOf(db', pid) == ViewOf(db, pid))
              && (pid in db'.projects && ViewOf(db', pid).quota.updatedAt < ViewOf(db, pid).quota.updatedAt ==>
                    && !ViewOf(db, pid).quota.status.Active() && ViewOf(db', pid).quota.status == QuotaStatus.Deleted
                    && ViewOf(db', pid).quota.updatedAt == now)
  {
    var db' := Handle(db, f, now).value.0;
    assert Effect(db, f, now, db') by {
      QuotaEffect(db, f, now);
    }
    forall pid | pid in db.projects
      ensures ViewOf(db, pid).quota.updatedAt > StampOf(f) ==> Touched(f, pid, ViewOf(db, pid), now).None?
      ensures MovesBackOnlyDeleted(ViewOf(db, pid).quota, After(f, pid, ViewOf(db, pid), now).quota, now)
    {
      StaleUntouched(f, pid, ViewOf(db, pid), now);
    }
  }

  predicate MovesBackOnlyDeleted(was: Quota, q: Quota, now: Time) {
    q.updatedAt < was.updatedAt ==> !was.status.Active() && q.status == QuotaStatus.Deleted && q.updatedAt == now
  }

  lemma StaleUntouched(f: Feedback, pid: ProjectId, v: View, now: Time)
    requires f.QuotaSnapshot? || f.QuotaFailure?
    ensures v.quota.updatedAt > StampOf(f) ==> Touched(f, pid, v, now).None?
    ensures MovesBackOnlyDeleted(v.quota, After(f, pid, v, now).quota, now)
  {
  }
}
